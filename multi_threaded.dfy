/** The multi-threaded computer, with its `numThreads` workers run in
    lockstep: each phase between two barrier rounds is the workers' loops
    over their own page ranges, taken in thread order, and each barrier
    round is a `ReductionBarrier.Barrier` round in which every worker
    arrives once. Worker `t` owns `pages[Start(t) .. Start(t + 1))`. */
module MultiThreaded {
  import opened Network
  import opened ReversedIndex
  import opened Ranking
  import opened Partitioning
  import opened ReductionBarrier

  /** A worker's build loop over `pages[start..end]`, applied to the shared
      maps: its pages get `1.0 / size` in both generations and their link
      counts, and each of them is pushed under each of its links. */
  method BuildRange(pages: seq<Page>, start: nat, end: nat,
                    prev: Ranks, curr: Ranks, numLinks: Degrees, edges: Index)
    returns (prev': Ranks, curr': Ranks, numLinks': Degrees, edges': Index)
    requires start <= end <= |pages|
    ensures prev' == WithRank(prev, pages[start..end], InitialRank(|pages|))
    ensures curr' == WithRank(curr, pages[start..end], InitialRank(|pages|))
    ensures numLinks' == AddDegrees(numLinks, pages[start..end])
    ensures edges' == AddPages(edges, pages[start..end])
  {
    var rank := InitialRank(|pages|);
    prev', curr', numLinks', edges' := prev, curr, numLinks, edges;
    var i := start;
    while i < end
      invariant start <= i <= end
      invariant prev' == WithRank(prev, pages[start..i], rank)
      invariant curr' == WithRank(curr, pages[start..i], rank)
      invariant numLinks' == AddDegrees(numLinks, pages[start..i])
      invariant edges' == AddPages(edges, pages[start..i])
    {
      var pageId := pages[i].id;
      BuildStep(prev, numLinks, edges, pages, start, i, rank);
      BuildStep(curr, numLinks, edges, pages, start, i, rank);
      prev' := prev'[pageId := rank];
      curr' := curr'[pageId := rank];
      numLinks' := numLinks'[pageId := |pages[i].links|];
      edges' := PushLinks(edges', pageId, pages[i].links);
      i := i + 1;
    }
  }

  /** A worker's dangling loop: the previous ranks of its pages that have
      no links, summed. */
  method DanglingRange(pages: seq<Page>, start: nat, end: nat, prev: Ranks) returns (partial: real)
    requires start <= end <= |pages| && IdSet(pages[start..end]) <= prev.Keys
    ensures partial == DanglingMass(pages[start..end], prev)
  {
    partial := 0.0;
    var j := start;
    while j < end
      invariant start <= j <= end
      invariant IdSet(pages[start..j]) <= prev.Keys
      invariant partial == DanglingMass(pages[start..j], prev)
    {
      DanglingStep(prev, pages, start, j, end);
      if pages[j].links == [] {
        partial := partial + prev[pages[j].id];
      }
      j := j + 1;
    }
  }

  /** A worker's update loop: each of its pages gets the recurrence's value
      on the previous generation. */
  method UpdateRange(pages: seq<Page>, start: nat, end: nat, edges: Index, numLinks: Degrees,
                     prev: Ranks, curr: Ranks, dangling: real, formula: RankFormula) returns (next: Ranks)
    requires start <= end <= |pages|
    ensures next == Updated(curr, pages[start..end], edges, numLinks, prev, dangling, formula)
  {
    next := curr;
    var j := start;
    while j < end
      invariant start <= j <= end
      invariant next == Updated(curr, pages[start..j], edges, numLinks, prev, dangling, formula)
    {
      UpdateStep(curr, pages, start, j, edges, numLinks, prev, dangling, formula);
      next := next[pages[j].id := formula(edges, numLinks, prev, dangling, pages[j].id)];
      j := j + 1;
    }
  }

  /** A worker's copy loop: the previous rank of each of its pages becomes
      its current rank. */
  method CopyRange(pages: seq<Page>, start: nat, end: nat, prev: Ranks, curr: Ranks) returns (next: Ranks)
    requires start <= end <= |pages| && IdSet(pages[start..end]) <= curr.Keys
    ensures next == Copied(prev, curr, pages[start..end])
  {
    next := prev;
    var j := start;
    while j < end
      invariant start <= j <= end
      invariant IdSet(pages[start..j]) <= curr.Keys
      invariant next == Copied(prev, curr, pages[start..j])
    {
      CopyStep(prev, curr, pages, start, j, end);
      next := next[pages[j].id := curr[pages[j].id]];
      j := j + 1;
    }
  }

  /** Thread `t`'s range within a tiling: the pages before it and the
      pages it owns together are the pages up to its end. */
  lemma RangeJoin(pages: seq<Page>, ranges: seq<(nat, nat)>, t: nat, done: nat)
    requires Tiles(ranges, |pages|) && t < |ranges| && ranges[t].0 == done
    ensures done <= ranges[t].1 <= |pages|
    ensures pages[0..done] + pages[done..ranges[t].1] == pages[0..ranges[t].1]
    ensures t + 1 < |ranges| ==> ranges[t + 1].0 == ranges[t].1
    ensures t + 1 == |ranges| ==> ranges[t].1 == |pages| && pages[0..ranges[t].1] == pages
  {
  }

  /** The build phase's step: adding thread `t`'s pages to the maps built
      from the pages before them gives the maps built from both. */
  lemma BuildJoin(pages: seq<Page>, start: nat, end: nat, rank: real)
    requires start <= end <= |pages|
    ensures WithRank(WithRank(map[], pages[0..start], rank), pages[start..end], rank)
            == WithRank(map[], pages[0..end], rank)
    ensures AddDegrees(AddDegrees(map[], pages[0..start]), pages[start..end]) == AddDegrees(map[], pages[0..end])
    ensures AddPages(AddPages(map[], pages[0..start]), pages[start..end]) == AddPages(map[], pages[0..end])
  {
    SliceJoin(pages, 0, start, end);
    WithRankConcat(map[], pages[0..start], pages[start..end], rank);
    AddDegreesConcat(map[], pages[0..start], pages[start..end]);
    AddPagesConcat(map[], pages[0..start], pages[start..end]);
  }

  /** The build phase, the workers one after the other: the shared maps end
      up exactly as the single-threaded build loop leaves them. */
  method BuildPhase(pages: seq<Page>, ranges: seq<(nat, nat)>)
    returns (prev: Ranks, curr: Ranks, numLinks: Degrees, edges: Index)
    requires Tiles(ranges, |pages|)
    ensures prev == Uniform(pages) && curr == Uniform(pages)
    ensures numLinks == DegreesOf(pages)
    ensures edges == EdgesOf(pages)
  {
    var rank := InitialRank(|pages|);
    prev, curr, numLinks, edges := map[], map[], map[], map[];
    var t := 0;
    ghost var done: nat := 0;
    while t < |ranges|
      invariant t <= |ranges| && done <= |pages|
      invariant t < |ranges| ==> ranges[t].0 == done
      invariant t == |ranges| ==> pages[0..done] == pages
      invariant prev == WithRank(map[], pages[0..done], rank) && curr == prev
      invariant numLinks == AddDegrees(map[], pages[0..done])
      invariant edges == AddPages(map[], pages[0..done])
    {
      RangeJoin(pages, ranges, t, done);
      BuildJoin(pages, done, ranges[t].1, rank);
      prev, curr, numLinks, edges := BuildRange(pages, ranges[t].0, ranges[t].1, prev, curr, numLinks, edges);
      done := ranges[t].1;
      t := t + 1;
    }
  }

  /** The dangling phase: the workers' partial sums, one per range, add up
      to the network's dangling mass. */
  method DanglingPhase(pages: seq<Page>, ranges: seq<(nat, nat)>, prev: Ranks)
    returns (partials: seq<real>)
    requires Tiles(ranges, |pages|) && IdSet(pages) <= prev.Keys
    ensures |partials| == |ranges|
    ensures RealSum(partials) == DanglingMass(pages, prev)
  {
    partials := [];
    var t := 0;
    ghost var done: nat := 0;
    while t < |ranges|
      invariant t <= |ranges| && done <= |pages| && |partials| == t
      invariant t < |ranges| ==> ranges[t].0 == done
      invariant t == |ranges| ==> pages[0..done] == pages
      invariant IdSet(pages[0..done]) <= prev.Keys
      invariant RealSum(partials) == DanglingMass(pages[0..done], prev)
    {
      RangeJoin(pages, ranges, t, done);
      var end := ranges[t].1;
      IdSetSlice(pages, 0, end);
      DanglingMassConcat(pages[0..done], pages[done..end], prev);
      var partial := DanglingRange(pages, ranges[t].0, end, prev);
      assert (partials + [partial])[..t] == partials;
      partials := partials + [partial];
      done := end;
      t := t + 1;
    }
  }

  /** The update phase: every page gets the recurrence's value, as in the
      single-threaded update loop. */
  method UpdatePhase(pages: seq<Page>, ranges: seq<(nat, nat)>, edges: Index, numLinks: Degrees,
                     prev: Ranks, curr: Ranks, dangling: real, formula: RankFormula)
    returns (next: Ranks)
    requires Tiles(ranges, |pages|)
    ensures next == Updated(curr, pages, edges, numLinks, prev, dangling, formula)
  {
    next := curr;
    var t := 0;
    ghost var done: nat := 0;
    while t < |ranges|
      invariant t <= |ranges| && done <= |pages|
      invariant t < |ranges| ==> ranges[t].0 == done
      invariant t == |ranges| ==> pages[0..done] == pages
      invariant next == Updated(curr, pages[0..done], edges, numLinks, prev, dangling, formula)
    {
      RangeJoin(pages, ranges, t, done);
      var end := ranges[t].1;
      UpdatedConcat(curr, pages[0..done], pages[done..end], edges, numLinks, prev, dangling, formula);
      next := UpdateRange(pages, ranges[t].0, end, edges, numLinks, prev, next, dangling, formula);
      done := end;
      t := t + 1;
    }
  }

  /** The copy phase: every page's previous rank becomes its current rank,
      as in the single-threaded copy loop. */
  method CopyPhase(pages: seq<Page>, ranges: seq<(nat, nat)>, prev: Ranks, curr: Ranks)
    returns (next: Ranks)
    requires Tiles(ranges, |pages|) && IdSet(pages) <= curr.Keys
    ensures next == Copied(prev, curr, pages)
  {
    next := prev;
    var t := 0;
    ghost var done: nat := 0;
    while t < |ranges|
      invariant t <= |ranges| && done <= |pages|
      invariant t < |ranges| ==> ranges[t].0 == done
      invariant t == |ranges| ==> pages[0..done] == pages
      invariant IdSet(pages[0..done]) <= curr.Keys
      invariant next == Copied(prev, curr, pages[0..done])
    {
      RangeJoin(pages, ranges, t, done);
      var end := ranges[t].1;
      IdSetSlice(pages, 0, end);
      CopiedConcat(prev, curr, pages[0..done], pages[done..end]);
      next := CopyRange(pages, ranges[t].0, end, next, curr);
      done := end;
      t := t + 1;
    }
  }

  /** The residual contributions of round `k`, worker by worker: worker `t`
      contributes `partialResidual(k, t)`, the sum of `|new - old|` over its
      pages, which the model leaves opaque. */
  function PartialResiduals(partialResidual: (nat, nat) -> real, k: nat, numThreads: nat): (ds: seq<real>)
    ensures |ds| == numThreads && forall t :: 0 <= t < numThreads ==> ds[t] == partialResidual(k, t)
  {
    seq(numThreads, t requires 0 <= t < numThreads => partialResidual(k, t))
  }

  /** The barrier's total of round `k`, which every worker compares with the
      tolerance. */
  function Totals(partialResidual: (nat, nat) -> real, numThreads: nat): nat -> real
  {
    (k: nat) => RealSum(PartialResiduals(partialResidual, k, numThreads))
  }

  /** What the multi-threaded computation returns, given the value
      `success0` its uninitialised `success` flag happens to hold: the
      current generation after the first round whose total is below the
      tolerance, subject to the result-size assertion; when no round
      converges, a convergence failure if `success0` is false, and the ranks
      after the last round otherwise. With no threads no round runs and
      `curr_p_ranks` stays empty: a convergence failure if `success0` is
      false, and otherwise the empty map, which passes the result-size
      assertion only for an empty network. */
  function Outcome(pages: seq<Page>, numThreads: nat, iterations: nat, tolerance: real,
                   formula: RankFormula, partialResidual: (nat, nat) -> real, success0: bool): (r: Result<Ranks>)
    ensures r.Ok? ==> r.value.Keys == IdSet(pages) && |r.value| == |pages|
    ensures r == Err(InvalidResultSize) ==> !DistinctIds(pages) || numThreads == 0
  {
    if numThreads == 0 then
      if !success0 then Err(NotConverged)
      else if pages == [] then Ok(map[])
      else Err(InvalidResultSize)
    else
    match FirstBelow(Totals(partialResidual, numThreads), tolerance, 0, iterations)
    case Some(k) => SizeChecked(pages, RanksAfter(pages, formula, k + 1))
    case None =>
      if success0 then SizeChecked(pages, RanksAfter(pages, formula, iterations))
      else Err(NotConverged)
  }

  /** With `success` initialised to `false`, the computation fails to
      converge exactly when there are no threads or no round's total is
      below the tolerance. */
  lemma InitialisedOutcome(pages: seq<Page>, numThreads: nat, iterations: nat, tolerance: real,
                           formula: RankFormula, partialResidual: (nat, nat) -> real)
    ensures Outcome(pages, numThreads, iterations, tolerance, formula, partialResidual, false) == Err(NotConverged)
            <==> numThreads == 0 || forall k :: 0 <= k < iterations ==> Totals(partialResidual, numThreads)(k) >= tolerance
  {
    var total := Totals(partialResidual, numThreads);
    var first := FirstBelow(total, tolerance, 0, iterations);
    if numThreads >= 1 && first.Some? {
      assert Outcome(pages, numThreads, iterations, tolerance, formula, partialResidual, false)
             == SizeChecked(pages, RanksAfter(pages, formula, first.value + 1));
    }
  }

  /** When round `k` is the first whose total is below the tolerance, the
      outcome is the current generation after `k + 1` rounds, whatever
      `success` held: one round further than the single-threaded computer's
      result for the same residuals. */
  lemma FirstConvergedRound(pages: seq<Page>, numThreads: nat, iterations: nat, tolerance: real,
                            formula: RankFormula, partialResidual: (nat, nat) -> real, success0: bool, k: nat)
    requires numThreads >= 1
    requires k < iterations && Totals(partialResidual, numThreads)(k) < tolerance
    requires forall j :: 0 <= j < k ==> Totals(partialResidual, numThreads)(j) >= tolerance
    ensures Outcome(pages, numThreads, iterations, tolerance, formula, partialResidual, success0)
            == SizeChecked(pages, RanksAfter(pages, formula, k + 1))
  {
    var first := FirstBelow(Totals(partialResidual, numThreads), tolerance, 0, iterations);
    assert first.Some?;
    assert first.value == k;
  }

  /** With `success` holding `true` by accident, the computation never
      reports a convergence failure: when no round converges it returns the
      ranks after the last round (or fails the result-size assertion). */
  lemma UninitialisedOutcome(pages: seq<Page>, numThreads: nat, iterations: nat, tolerance: real,
                             formula: RankFormula, partialResidual: (nat, nat) -> real)
    ensures var r := Outcome(pages, numThreads, iterations, tolerance, formula, partialResidual, true);
            var total := Totals(partialResidual, numThreads);
            && r != Err(NotConverged)
            && ((numThreads >= 1 && forall k :: 0 <= k < iterations ==> total(k) >= tolerance)
                ==> r == SizeChecked(pages, RanksAfter(pages, formula, iterations)))
  {
  }

  /** With no threads no round runs: with `success` false the computation
      fails to converge, and with `success` true by accident it returns the
      empty `curr_p_ranks`, which fails the result-size assertion for every
      non-empty network, even one with distinct identifiers. */
  lemma NoThreadsOutcome(pages: seq<Page>, iterations: nat, tolerance: real,
                         formula: RankFormula, partialResidual: (nat, nat) -> real)
    ensures Outcome(pages, 0, iterations, tolerance, formula, partialResidual, false) == Err(NotConverged)
    ensures pages != [] ==> Outcome(pages, 0, iterations, tolerance, formula, partialResidual, true) == Err(InvalidResultSize)
    ensures pages == [] ==> Outcome(pages, 0, iterations, tolerance, formula, partialResidual, true) == Ok(map[])
  {
  }

  /** Round `i` converging, with no earlier round having converged, decides
      the outcome. */
  lemma ConvergedAt(pages: seq<Page>, numThreads: nat, iterations: nat, tolerance: real,
                    formula: RankFormula, partialResidual: (nat, nat) -> real, success0: bool, i: nat)
    requires numThreads >= 1
    requires i < iterations && Totals(partialResidual, numThreads)(i) < tolerance
    requires FirstBelow(Totals(partialResidual, numThreads), tolerance, i, iterations)
             == FirstBelow(Totals(partialResidual, numThreads), tolerance, 0, iterations)
    ensures Outcome(pages, numThreads, iterations, tolerance, formula, partialResidual, success0)
            == SizeChecked(pages, RanksAfter(pages, formula, i + 1))
  {
  }

  /** `computeForNetwork` as written: `indeterminate` is whatever the
      uninitialised `success` holds; the residual contributions are
      `partialResidual`, the recurrence `formula`, and page identifiers are
      already assigned. */
  method ComputeForNetworkAsWritten(pages: seq<Page>, numThreads: nat, iterations: nat, tolerance: real,
                                    formula: RankFormula, partialResidual: (nat, nat) -> real, indeterminate: bool)
    returns (r: Result<Ranks>)
    ensures r == Outcome(pages, numThreads, iterations, tolerance, formula, partialResidual, indeterminate)
  {
    var ranges := Partition(|pages|, numThreads);
    var barrier := new Barrier(numThreads);
    var success := indeterminate;
    var curr: Ranks := map[];
    if numThreads == 0 {
      // No thread is started: no round runs and the maps stay empty.
      if success {
        if |curr| != |pages| {
          return Err(InvalidResultSize);
        }
        return Ok(curr);
      }
      return Err(NotConverged);
    }
    barrier.WaitRound();
    RangesTile(|pages|, numThreads);
    var prev, numLinks, edges;
    prev, curr, numLinks, edges := BuildPhase(pages, ranges);
    barrier.WaitRound();
    var i := 0;
    while i < iterations
      invariant i <= iterations
      invariant barrier.Valid() && barrier.counter == numThreads && barrier.numThreads == numThreads
      invariant prev == RanksAfter(pages, formula, i) && curr == prev
      invariant success == indeterminate
      invariant FirstBelow(Totals(partialResidual, numThreads), tolerance, i, iterations)
                == FirstBelow(Totals(partialResidual, numThreads), tolerance, 0, iterations)
    {
      var partials := DanglingPhase(pages, ranges, prev);
      var danglingSum := barrier.WaitAndSumRound(partials);
      ghost var curr0 := curr;
      curr := UpdatePhase(pages, ranges, edges, numLinks, prev, curr, danglingSum, formula);
      RoundAdvances(pages, formula, i, curr0);
      var total := barrier.WaitAndSumRound(PartialResiduals(partialResidual, i, numThreads));
      if total < tolerance {
        ConvergedAt(pages, numThreads, iterations, tolerance, formula, partialResidual, indeterminate, i);
        success := true;
        break;
      }
      prev := CopyPhase(pages, ranges, prev, curr);
      barrier.WaitRound();
      i := i + 1;
    }
    if success {
      if |curr| != |pages| {
        return Err(InvalidResultSize);
      }
      return Ok(curr);
    }
    return Err(NotConverged);
  }

  /** `computeForNetwork` with `success` initialised to `false`: it reports a
      convergence failure exactly when no round's total falls below the
      tolerance. */
  method ComputeForNetwork(pages: seq<Page>, numThreads: nat, iterations: nat, tolerance: real,
                           formula: RankFormula, partialResidual: (nat, nat) -> real)
    returns (r: Result<Ranks>)
    ensures r == Outcome(pages, numThreads, iterations, tolerance, formula, partialResidual, false)
    ensures r == Err(NotConverged) <==>
              numThreads == 0 || forall k :: 0 <= k < iterations ==> Totals(partialResidual, numThreads)(k) >= tolerance
  {
    r := ComputeForNetworkAsWritten(pages, numThreads, iterations, tolerance, formula, partialResidual, false);
    InitialisedOutcome(pages, numThreads, iterations, tolerance, formula, partialResidual);
  }

  /** With `success` holding `true` by accident, a one-page network whose
      single round does not converge is reported as a result instead of a
      convergence failure. */
  lemma UninitialisedSuccessCounterexample()
    ensures var pages, formula, partialResidual := [Page("a", [])], (_: Index, _: Degrees, _: Ranks, _: real, _: PageId) => 1.0,
                                                   (_: nat, _: nat) => 1.0;
            && Totals(partialResidual, 1)(0) >= 0.0
            && Outcome(pages, 1, 1, 0.0, formula, partialResidual, false) == Err(NotConverged)
            && Outcome(pages, 1, 1, 0.0, formula, partialResidual, true).Ok?
  {
    var pages, formula, partialResidual := [Page("a", [])], (_: Index, _: Degrees, _: Ranks, _: real, _: PageId) => 1.0,
                                           (_: nat, _: nat) => 1.0;
    assert PartialResiduals(partialResidual, 0, 1) == [1.0];
    assert RealSum([1.0]) == 1.0 by {
      assert [1.0][..0] == [];
    }
    assert IdSet(pages) == {"a"} by {
      assert pages[0].id == "a";
    }
    assert |RanksAfter(pages, formula, 1)| == 1;
  }
}
