/** The single-threaded computer: one loop builds the rank maps, the
    out-degree table and the reversed-edge index; then up to `iterations`
    rounds each sum the dangling mass, recompute every rank, and either
    return the previous generation (residual below tolerance) or copy the
    current generation into the previous one. */
module SingleThreaded {
  import opened Network
  import opened ReversedIndex
  import opened Ranking

  /** The build loop: for each page, both rank generations get
      `1.0 / size`, the out-degree table the page's link count, and the
      page is pushed under each of its links in the reversed-edge index. */
  method BuildIndex(pages: seq<Page>) returns (prev: Ranks, curr: Ranks, numLinks: Degrees, edges: Index)
    ensures prev == Uniform(pages) && curr == Uniform(pages)
    ensures numLinks == DegreesOf(pages)
    ensures edges == EdgesOf(pages)
  {
    var rank := InitialRank(|pages|);
    prev, curr, numLinks, edges := map[], map[], map[], map[];
    var i := 0;
    while i < |pages|
      invariant i <= |pages|
      invariant prev == WithRank(map[], pages[0..i], rank) && curr == prev
      invariant numLinks == AddDegrees(map[], pages[0..i])
      invariant edges == AddPages(map[], pages[0..i])
    {
      var page := pages[i];
      BuildStep(map[], map[], map[], pages, 0, i, rank);
      prev := prev[page.id := rank];
      curr := curr[page.id := rank];
      numLinks := numLinks[page.id := |page.links|];
      edges := PushLinks(edges, page.id, page.links);
      i := i + 1;
    }
    assert pages[0..i] == pages;
  }

  /** The dangling sum: the previous ranks of the pages without links. */
  method DanglingSum(pages: seq<Page>, prev: Ranks) returns (dangleSum: real)
    requires IdSet(pages) <= prev.Keys
    ensures dangleSum == DanglingMass(pages, prev)
  {
    dangleSum := 0.0;
    var i := 0;
    while i < |pages|
      invariant i <= |pages|
      invariant IdSet(pages[..i]) <= prev.Keys
      invariant dangleSum == DanglingMass(pages[..i], prev)
    {
      assert pages[..i + 1][..i] == pages[..i];
      IdSetSplit(pages, i + 1);
      DanglingMassSnoc(pages[..i + 1], prev);
      if pages[i].links == [] {
        dangleSum := dangleSum + prev[pages[i].id];
      }
      i := i + 1;
    }
    assert pages[..i] == pages;
  }

  /** The update loop: every page's current rank becomes the value of the
      recurrence on the previous generation. */
  method UpdateRanks(pages: seq<Page>, edges: Index, numLinks: Degrees, prev: Ranks, curr: Ranks,
                     dangleSum: real, formula: RankFormula) returns (next: Ranks)
    ensures next == Updated(curr, pages, edges, numLinks, prev, dangleSum, formula)
  {
    next := curr;
    var j := 0;
    while j < |pages|
      invariant j <= |pages|
      invariant next == Updated(curr, pages[..j], edges, numLinks, prev, dangleSum, formula)
    {
      assert pages[..j + 1][..j] == pages[..j];
      UpdatedSnoc(curr, pages[..j + 1], edges, numLinks, prev, dangleSum, formula);
      next := next[pages[j].id := formula(edges, numLinks, prev, dangleSum, pages[j].id)];
      j := j + 1;
    }
    assert pages[..j] == pages;
  }

  /** The copy loop of a non-converged round: the previous rank of every
      page becomes its current rank. */
  method CopyRanks(pages: seq<Page>, prev: Ranks, curr: Ranks) returns (next: Ranks)
    requires IdSet(pages) <= curr.Keys
    ensures next == Copied(prev, curr, pages)
  {
    next := prev;
    var j := 0;
    while j < |pages|
      invariant j <= |pages|
      invariant IdSet(pages[..j]) <= curr.Keys
      invariant next == Copied(prev, curr, pages[..j])
    {
      assert pages[..j + 1][..j] == pages[..j];
      IdSetSplit(pages, j + 1);
      CopiedSnoc(prev, curr, pages[..j + 1]);
      next := next[pages[j].id := curr[pages[j].id]];
      j := j + 1;
    }
    assert pages[..j] == pages;
  }

  /** What the single-threaded computation returns: the previous generation
      at the first round whose residual is below the tolerance, subject to
      the result-size assertion; a convergence failure otherwise. */
  function Outcome(pages: seq<Page>, iterations: nat, tolerance: real,
                   formula: RankFormula, residual: nat -> real): (r: Result<Ranks>)
    ensures r == Err(NotConverged) <==> forall k :: 0 <= k < iterations ==> residual(k) >= tolerance
    ensures r.Ok? ==> exists k :: 0 <= k < iterations && residual(k) < tolerance
                        && (forall j :: 0 <= j < k ==> residual(j) >= tolerance)
                        && r.value == RanksAfter(pages, formula, k)
    ensures r.Ok? ==> r.value.Keys == IdSet(pages) && |r.value| == |pages|
    ensures r == Err(InvalidResultSize) ==> !DistinctIds(pages)
  {
    match FirstBelow(residual, tolerance, 0, iterations)
    case None => Err(NotConverged)
    case Some(k) => SizeChecked(pages, RanksAfter(pages, formula, k))
  }

  /** Round `i` converging, with no earlier round having converged, decides
      the outcome. */
  lemma ConvergedAt(pages: seq<Page>, iterations: nat, tolerance: real,
                    formula: RankFormula, residual: nat -> real, i: nat)
    requires i < iterations && residual(i) < tolerance
    requires FirstBelow(residual, tolerance, i, iterations) == FirstBelow(residual, tolerance, 0, iterations)
    ensures Outcome(pages, iterations, tolerance, formula, residual) == SizeChecked(pages, RanksAfter(pages, formula, i))
  {
  }

  /** `computeForNetwork`: the residual of round `k` is `residual(k)`, the
      recurrence is `formula`, and page identifiers are already assigned. */
  method ComputeForNetwork(pages: seq<Page>, iterations: nat, tolerance: real,
                           formula: RankFormula, residual: nat -> real) returns (r: Result<Ranks>)
    ensures r == Outcome(pages, iterations, tolerance, formula, residual)
  {
    var prev, curr, numLinks, edges := BuildIndex(pages);
    r := Iterate(pages, edges, numLinks, prev, curr, iterations, tolerance, formula, residual);
  }

  /** The iteration loop of `computeForNetwork`, from the maps the build
      loop produced: returns at the first round whose residual is below the
      tolerance, fails after `iterations` rounds otherwise. */
  method Iterate(pages: seq<Page>, edges: Index, numLinks: Degrees, prev: Ranks, curr: Ranks,
                 iterations: nat, tolerance: real, formula: RankFormula, residual: nat -> real)
    returns (r: Result<Ranks>)
    requires numLinks == DegreesOf(pages) && edges == EdgesOf(pages)
    requires prev == Uniform(pages) && curr == Uniform(pages)
    ensures r == Outcome(pages, iterations, tolerance, formula, residual)
  {
    var prev, curr := prev, curr;
    var i := 0;
    while i < iterations
      invariant i <= iterations
      invariant prev == RanksAfter(pages, formula, i)
      invariant curr.Keys == IdSet(pages)
      invariant FirstBelow(residual, tolerance, i, iterations) == FirstBelow(residual, tolerance, 0, iterations)
    {
      var dangleSum := DanglingSum(pages, prev);
      ghost var curr0 := curr;
      curr := UpdateRanks(pages, edges, numLinks, prev, curr, dangleSum, formula);
      if residual(i) < tolerance {
        ConvergedAt(pages, iterations, tolerance, formula, residual, i);
        if |prev| != |pages| {
          return Err(InvalidResultSize);
        }
        return Ok(prev);
      }
      RoundAdvances(pages, formula, i, curr0);
      prev := CopyRanks(pages, prev, curr);
      i := i + 1;
    }
    return Err(NotConverged);
  }
}
