/** The rank maps of a computation and the loop structure of the power
    iteration, with the floating-point recurrence itself left opaque: the new
    rank of a page is `formula(edges, numLinks, prev, danglingMass, id)`, and
    the residual of a round is an input. */
module Ranking {
  import opened Network
  import opened ReversedIndex

  /** The numeric rank recurrence (alpha scaling, the dangling share and
      the contributions along reversed edges), which the model leaves opaque. */
  type RankFormula = (Index, Degrees, Ranks, real, PageId) -> real

  /** `1.0 / size`; never stored when there are no pages. */
  function InitialRank(size: nat): real
  {
    if size == 0 then 0.0 else 1.0 / size as real
  }

  /** What the rank part of the build loop does to a generation: every
      page's entry becomes `rank`; no other entry changes. */
  function WithRank(ranks: Ranks, pages: seq<Page>, rank: real): (r: Ranks)
    ensures r.Keys == ranks.Keys + IdSet(pages)
    ensures forall id :: id in IdSet(pages) ==> r[id] == rank
    ensures forall id :: id in ranks && id !in IdSet(pages) ==> r[id] == ranks[id]
  {
    ranks + map id | id in IdSet(pages) :: rank
  }

  /** The rank map the build loop starts both generations from: one entry
      per page identifier, each `1.0 / size`. */
  function Uniform(pages: seq<Page>): (r: Ranks)
    ensures r.Keys == IdSet(pages)
  {
    WithRank(map[], pages, InitialRank(|pages|))
  }

  lemma WithRankSnoc(ranks: Ranks, pages: seq<Page>, rank: real)
    requires pages != []
    ensures WithRank(ranks, pages, rank) == WithRank(ranks, pages[..|pages| - 1], rank)[pages[|pages| - 1].id := rank]
  {
    IdSetSnoc(pages);
  }

  /** One iteration of a build loop over `pages[start..end]`: the state
      after pages `start .. i` is the state after `start .. i - 1` with page
      `i`'s rank, out-degree and links added. */
  lemma BuildStep(ranks: Ranks, numLinks: Degrees, edges: Index, pages: seq<Page>,
                  start: nat, i: nat, rank: real)
    requires start <= i < |pages|
    ensures var page := pages[i];
            && WithRank(ranks, pages[start..i + 1], rank) == WithRank(ranks, pages[start..i], rank)[page.id := rank]
            && AddDegrees(numLinks, pages[start..i + 1]) == AddDegrees(numLinks, pages[start..i])[page.id := |page.links|]
            && AddPages(edges, pages[start..i + 1]) == AddLinks(AddPages(edges, pages[start..i]), page.id, page.links)
  {
    var done := pages[start..i + 1];
    assert done[..|done| - 1] == pages[start..i] && done[|done| - 1] == pages[i];
    WithRankSnoc(ranks, done, rank);
  }

  /** The identifiers of the dangling pages (no links), in page order. */
  function DanglingIds(pages: seq<Page>): (ids: seq<PageId>)
    ensures forall id :: id in ids ==> id in IdSet(pages)
  {
    if pages == [] then []
    else
      var last := pages[|pages| - 1];
      IdSetSnoc(pages);
      DanglingIds(pages[..|pages| - 1]) + (if last.links == [] then [last.id] else [])
  }

  /** Sum of the ranks of the listed pages. */
  function SumRanks(ranks: Ranks, ids: seq<PageId>): real
    requires forall id :: id in ids ==> id in ranks
  {
    if ids == [] then 0.0 else SumRanks(ranks, ids[..|ids| - 1]) + ranks[ids[|ids| - 1]]
  }

  /** The rank mass held by dangling pages. */
  function DanglingMass(pages: seq<Page>, ranks: Ranks): real
    requires IdSet(pages) <= ranks.Keys
  {
    SumRanks(ranks, DanglingIds(pages))
  }

  /** The dangling selection is exact: an identifier is summed precisely
      when some page with that identifier has an empty link list. */
  lemma {:induction false} DanglingIdsExact(pages: seq<Page>, x: PageId)
    ensures x in DanglingIds(pages) <==> exists i :: 0 <= i < |pages| && pages[i].id == x && pages[i].links == []
  {
    if pages != [] {
      var front, last := pages[..|pages| - 1], pages[|pages| - 1];
      DanglingIdsExact(front, x);
      if exists i :: 0 <= i < |pages| && pages[i].id == x && pages[i].links == [] {
        var i :| 0 <= i < |pages| && pages[i].id == x && pages[i].links == [];
        if i < |pages| - 1 { assert front[i] == pages[i]; }
      }
      if x in DanglingIds(front) {
        var i :| 0 <= i < |front| && front[i].id == x && front[i].links == [];
        assert pages[i] == front[i];
      }
    }
  }

  lemma {:induction false} DanglingIdsConcat(a: seq<Page>, b: seq<Page>)
    ensures DanglingIds(a + b) == DanglingIds(a) + DanglingIds(b)
  {
    if b == [] {
      assert a + b == a;
    } else {
      var front := b[..|b| - 1];
      DanglingIdsConcat(a, front);
      assert (a + b)[..|a + b| - 1] == a + front;
    }
  }

  lemma {:induction false} SumRanksConcat(ranks: Ranks, x: seq<PageId>, y: seq<PageId>)
    requires forall id :: id in x ==> id in ranks
    requires forall id :: id in y ==> id in ranks
    ensures SumRanks(ranks, x + y) == SumRanks(ranks, x) + SumRanks(ranks, y)
  {
    if y == [] {
      assert x + y == x;
    } else {
      var front := y[..|y| - 1];
      SumRanksConcat(ranks, x, front);
      assert (x + y)[..|x + y| - 1] == x + front;
    }
  }

  /** The dangling mass of two consecutive slices is the sum of their
      dangling masses: what the per-thread partial sums, added up by the
      barrier, rely on. */
  lemma DanglingMassConcat(a: seq<Page>, b: seq<Page>, ranks: Ranks)
    requires IdSet(a + b) <= ranks.Keys
    ensures IdSet(a) <= ranks.Keys && IdSet(b) <= ranks.Keys
    ensures DanglingMass(a + b, ranks) == DanglingMass(a, ranks) + DanglingMass(b, ranks)
  {
    IdSetConcat(a, b);
    DanglingIdsConcat(a, b);
    SumRanksConcat(ranks, DanglingIds(a), DanglingIds(b));
  }

  /** Adding one page adds its previous rank when it has no links. */
  lemma DanglingMassSnoc(pages: seq<Page>, ranks: Ranks)
    requires pages != [] && IdSet(pages) <= ranks.Keys
    ensures IdSet(pages[..|pages| - 1]) <= ranks.Keys
    ensures DanglingMass(pages, ranks) == DanglingMass(pages[..|pages| - 1], ranks)
              + (if pages[|pages| - 1].links == [] then ranks[pages[|pages| - 1].id] else 0.0)
  {
    var front, last := pages[..|pages| - 1], pages[|pages| - 1];
    IdSetSnoc(pages);
    var ids := DanglingIds(pages);
    if last.links == [] {
      assert ids == DanglingIds(front) + [last.id];
      assert ids[..|ids| - 1] == DanglingIds(front);
      assert SumRanks(ranks, ids) == SumRanks(ranks, ids[..|ids| - 1]) + ranks[ids[|ids| - 1]];
    } else {
      assert ids == DanglingIds(front);
    }
  }

  /** What the update loop does to the current generation: every page's
      entry becomes the recurrence's value; no other entry changes. */
  function Updated(curr: Ranks, pages: seq<Page>, edges: Index, numLinks: Degrees,
                   prev: Ranks, dangling: real, formula: RankFormula): (next: Ranks)
    ensures next.Keys == curr.Keys + IdSet(pages)
    ensures forall id :: id in IdSet(pages) ==> next[id] == formula(edges, numLinks, prev, dangling, id)
    ensures forall id :: id in curr && id !in IdSet(pages) ==> next[id] == curr[id]
  {
    curr + map id | id in IdSet(pages) :: formula(edges, numLinks, prev, dangling, id)
  }

  /** What the copy loop does to the previous generation: every page's
      entry becomes its current rank; no other entry changes. */
  function Copied(prev: Ranks, curr: Ranks, pages: seq<Page>): (next: Ranks)
    requires IdSet(pages) <= curr.Keys
    ensures next.Keys == prev.Keys + IdSet(pages)
    ensures forall id :: id in IdSet(pages) ==> next[id] == curr[id]
    ensures forall id :: id in prev && id !in IdSet(pages) ==> next[id] == prev[id]
  {
    prev + map id | id in IdSet(pages) :: curr[id]
  }

  /** The update loop's step: one more page is one more map update. */
  lemma UpdatedSnoc(curr: Ranks, pages: seq<Page>, edges: Index, numLinks: Degrees,
                    prev: Ranks, dangling: real, formula: RankFormula)
    requires pages != []
    ensures var id := pages[|pages| - 1].id;
            Updated(curr, pages, edges, numLinks, prev, dangling, formula)
            == Updated(curr, pages[..|pages| - 1], edges, numLinks, prev, dangling, formula)[id := formula(edges, numLinks, prev, dangling, id)]
  {
    IdSetSnoc(pages);
  }

  /** The copy loop's step: one more page is one more map update. */
  lemma CopiedSnoc(prev: Ranks, curr: Ranks, pages: seq<Page>)
    requires pages != [] && IdSet(pages) <= curr.Keys
    ensures IdSet(pages[..|pages| - 1]) <= curr.Keys
    ensures var id := pages[|pages| - 1].id;
            Copied(prev, curr, pages) == Copied(prev, curr, pages[..|pages| - 1])[id := curr[id]]
  {
    IdSetSnoc(pages);
  }

  /** One iteration of an update loop over `pages[start..end]`. */
  lemma UpdateStep(curr: Ranks, pages: seq<Page>, start: nat, j: nat, edges: Index, numLinks: Degrees,
                   prev: Ranks, dangling: real, formula: RankFormula)
    requires start <= j < |pages|
    ensures var id := pages[j].id;
            Updated(curr, pages[start..j + 1], edges, numLinks, prev, dangling, formula)
            == Updated(curr, pages[start..j], edges, numLinks, prev, dangling, formula)[id := formula(edges, numLinks, prev, dangling, id)]
  {
    var done := pages[start..j + 1];
    assert done[..|done| - 1] == pages[start..j] && done[|done| - 1] == pages[j];
    UpdatedSnoc(curr, done, edges, numLinks, prev, dangling, formula);
  }

  /** One iteration of a copy loop over `pages[start..end]`. */
  lemma CopyStep(prev: Ranks, curr: Ranks, pages: seq<Page>, start: nat, j: nat, end: nat)
    requires start <= j < end <= |pages| && IdSet(pages[start..end]) <= curr.Keys
    ensures IdSet(pages[start..j]) <= curr.Keys && IdSet(pages[start..j + 1]) <= curr.Keys
    ensures pages[j].id in curr
    ensures Copied(prev, curr, pages[start..j + 1]) == Copied(prev, curr, pages[start..j])[pages[j].id := curr[pages[j].id]]
  {
    var done := pages[start..j + 1];
    assert done == pages[start..end][..j + 1 - start];
    IdSetSplit(pages[start..end], j + 1 - start);
    assert done[..|done| - 1] == pages[start..j] && done[|done| - 1] == pages[j];
    CopiedSnoc(prev, curr, done);
  }

  /** One iteration of a dangling loop over `pages[start..end]`. */
  lemma DanglingStep(prev: Ranks, pages: seq<Page>, start: nat, j: nat, end: nat)
    requires start <= j < end <= |pages| && IdSet(pages[start..end]) <= prev.Keys
    ensures IdSet(pages[start..j]) <= prev.Keys && IdSet(pages[start..j + 1]) <= prev.Keys
    ensures pages[j].id in prev
    ensures DanglingMass(pages[start..j + 1], prev)
            == DanglingMass(pages[start..j], prev) + (if pages[j].links == [] then prev[pages[j].id] else 0.0)
  {
    var done := pages[start..j + 1];
    assert done == pages[start..end][..j + 1 - start];
    IdSetSplit(pages[start..end], j + 1 - start);
    assert done[..|done| - 1] == pages[start..j] && done[|done| - 1] == pages[j];
    DanglingMassSnoc(done, prev);
  }

  /** Running the rank part of two consecutive slices' builds one after the
      other is running it on their concatenation. */
  lemma WithRankConcat(ranks: Ranks, a: seq<Page>, b: seq<Page>, rank: real)
    ensures WithRank(WithRank(ranks, a, rank), b, rank) == WithRank(ranks, a + b, rank)
  {
    IdSetConcat(a, b);
    var l, r := WithRank(WithRank(ranks, a, rank), b, rank), WithRank(ranks, a + b, rank);
    assert l.Keys == r.Keys;
    assert forall id :: id in l ==> l[id] == r[id];
  }

  /** Updating two consecutive slices one after the other (with the same
      previous generation) is updating their concatenation. */
  lemma UpdatedConcat(curr: Ranks, a: seq<Page>, b: seq<Page>, edges: Index, numLinks: Degrees,
                      prev: Ranks, dangling: real, formula: RankFormula)
    ensures Updated(Updated(curr, a, edges, numLinks, prev, dangling, formula), b, edges, numLinks, prev, dangling, formula)
            == Updated(curr, a + b, edges, numLinks, prev, dangling, formula)
  {
    IdSetConcat(a, b);
    var l := Updated(Updated(curr, a, edges, numLinks, prev, dangling, formula), b, edges, numLinks, prev, dangling, formula);
    var r := Updated(curr, a + b, edges, numLinks, prev, dangling, formula);
    assert l.Keys == r.Keys;
    forall id | id in l
      ensures l[id] == r[id]
    {
      if id !in IdSet(a + b) {
        assert id !in IdSet(a) && id !in IdSet(b);
      }
    }
  }

  /** Copying two consecutive slices one after the other is copying their
      concatenation. */
  lemma CopiedConcat(prev: Ranks, curr: Ranks, a: seq<Page>, b: seq<Page>)
    requires IdSet(a + b) <= curr.Keys
    ensures IdSet(a) <= curr.Keys && IdSet(b) <= curr.Keys
    ensures Copied(Copied(prev, curr, a), curr, b) == Copied(prev, curr, a + b)
  {
    IdSetConcat(a, b);
    var l, r := Copied(Copied(prev, curr, a), curr, b), Copied(prev, curr, a + b);
    assert l.Keys == r.Keys;
    assert forall id :: id in l ==> l[id] == r[id];
  }

  /** One non-converged round: every page takes the value of the recurrence
      on the previous generation, with the network's own index and degrees. */
  function NextRanks(pages: seq<Page>, prev: Ranks, formula: RankFormula): (next: Ranks)
    requires IdSet(pages) <= prev.Keys
  {
    Updated(prev, pages, EdgesOf(pages), DegreesOf(pages), prev, DanglingMass(pages, prev), formula)
  }

  /** The previous generation after `k` non-converged rounds. */
  function RanksAfter(pages: seq<Page>, formula: RankFormula, k: nat): (r: Ranks)
    ensures r.Keys == IdSet(pages)
  {
    if k == 0 then Uniform(pages) else NextRanks(pages, RanksAfter(pages, formula, k - 1), formula)
  }

  /** A non-converged round of either computer: updating the current
      generation of all pages from the previous generation after `k` rounds,
      then copying it back, yields the previous generation after `k + 1`
      rounds, and leaves the current generation equal to it. */
  lemma RoundAdvances(pages: seq<Page>, formula: RankFormula, k: nat, curr: Ranks)
    requires curr.Keys == IdSet(pages)
    ensures var prev := RanksAfter(pages, formula, k);
            var next := Updated(curr, pages, EdgesOf(pages), DegreesOf(pages), prev, DanglingMass(pages, prev), formula);
            next == RanksAfter(pages, formula, k + 1) && Copied(prev, next, pages) == next
  {
  }

  /** The first round in `[from, iterations)` whose residual is below the
      tolerance, if any. */
  function FirstBelow(residual: nat -> real, tolerance: real, from: nat, iterations: nat): (r: Option<nat>)
    decreases iterations - from
    ensures r.Some? ==> from <= r.value < iterations && residual(r.value) < tolerance
    ensures r.Some? ==> forall j :: from <= j < r.value ==> residual(j) >= tolerance
    ensures r.None? <==> forall j :: from <= j < iterations ==> residual(j) >= tolerance
  {
    if from >= iterations then None
    else if residual(from) < tolerance then Some(from)
    else FirstBelow(residual, tolerance, from + 1, iterations)
  }

  /** The result-size assertion: the map must hold one entry per page. */
  function SizeChecked(pages: seq<Page>, ranks: Ranks): (r: Result<Ranks>)
    requires ranks.Keys == IdSet(pages)
    ensures r.Ok? ==> r.value == ranks && |r.value| == |pages|
    ensures r.Err? ==> r.error == InvalidResultSize && !DistinctIds(pages)
  {
    DistinctIdsIffFullCount(pages);
    if |ranks| == |pages| then Ok(ranks) else Err(InvalidResultSize)
  }
}
