/** How the multi-threaded computer splits the pages among its threads:
    `numThreads` contiguous half-open ranges `[start, end)`, each of
    `numPages / numThreads` pages (the share), the first
    `numPages % numThreads` of them (the extra) with one page more. */
module Partitioning {

  function Min(a: nat, b: nat): nat
  {
    if a <= b then a else b
  }

  /** Where thread `i`'s range starts (and thread `i - 1`'s ends): the
      partition loop's running `index` after `i` threads, each of which took
      one share plus one extra page while the extra exceeded its number. */
  function Start(share: nat, extra: nat, i: int): nat
    decreases i
  {
    if i <= 0 then 0
    else Start(share, extra, i - 1) + share + (if extra > i - 1 then 1 else 0)
  }

  /** The running index in closed form: `i` full shares plus one extra page
      for each earlier thread that got one. */
  lemma {:induction false} StartClosedForm(share: nat, extra: nat, i: nat)
    ensures Start(share, extra, i) == i * share + Min(i, extra)
  {
    if i > 0 {
      StartClosedForm(share, extra, i - 1);
      assert i * share == (i - 1) * share + share;
    }
  }

  /** The ranges, thread by thread; none when there are no threads (the
      partition loop then never runs, so nothing is divided). */
  function Ranges(numPages: nat, numThreads: nat): (rs: seq<(nat, nat)>)
    ensures |rs| == numThreads
  {
    if numThreads == 0 then []
    else
      var share, extra := numPages / numThreads, numPages % numThreads;
      seq(numThreads, i => (Start(share, extra, i), Start(share, extra, i + 1)))
  }

  predicate InRange(r: (nat, nat), p: nat)
  {
    r.0 <= p < r.1
  }

  /** The partition loop: `index` runs over the range ends, thread `i` gets
      one extra page while `numPages % numThreads > i`. */
  method Partition(numPages: nat, numThreads: nat) returns (ranges: seq<(nat, nat)>)
    ensures ranges == Ranges(numPages, numThreads)
  {
    ranges := [];
    var index := 0;
    var i := 0;
    while i < numThreads
      invariant i <= numThreads
      invariant numThreads >= 1 ==> index == Start(numPages / numThreads, numPages % numThreads, i)
      invariant |ranges| == i
      invariant forall k :: 0 <= k < i ==> ranges[k] == Ranges(numPages, numThreads)[k]
    {
      var delta := if numPages % numThreads > i then 1 else 0;
      ranges := ranges + [(index, index + numPages / numThreads + delta)];
      index := index + numPages / numThreads + delta;
      i := i + 1;
    }
  }

  /** The last range ends at `numPages`. */
  lemma StartLast(numPages: nat, numThreads: nat)
    requires numThreads >= 1
    ensures Start(numPages / numThreads, numPages % numThreads, numThreads) == numPages
  {
    StartClosedForm(numPages / numThreads, numPages % numThreads, numThreads);
    assert numThreads * (numPages / numThreads) + numPages % numThreads == numPages;
  }

  lemma {:induction false} StartMonotone(share: nat, extra: nat, i: nat, j: nat)
    requires i <= j
    ensures Start(share, extra, i) <= Start(share, extra, j)
  {
    if i < j {
      StartMonotone(share, extra, i, j - 1);
    }
  }

  /** The ranges are contiguous and ordered: the first starts at 0, each
      starts where the previous ends, the last ends at `numPages`; and each
      holds `numPages / numThreads` pages, plus one exactly for the first
      `numPages % numThreads` threads. */
  lemma RangesShape(numPages: nat, numThreads: nat)
    requires numThreads >= 1
    ensures |Ranges(numPages, numThreads)| == numThreads
    ensures Ranges(numPages, numThreads)[0].0 == 0
    ensures Ranges(numPages, numThreads)[numThreads - 1].1 == numPages
    ensures forall k, k' :: 0 <= k && k' == k + 1 && k' < numThreads ==>
              Ranges(numPages, numThreads)[k'].0 == Ranges(numPages, numThreads)[k].1
    ensures forall k :: 0 <= k < numThreads ==>
              Ranges(numPages, numThreads)[k].0 <= Ranges(numPages, numThreads)[k].1
              && Ranges(numPages, numThreads)[k].1 - Ranges(numPages, numThreads)[k].0
                 == numPages / numThreads + (if k < numPages % numThreads then 1 else 0)
  {
    var share, extra := numPages / numThreads, numPages % numThreads;
    var rs := Ranges(numPages, numThreads);
    assert rs[numThreads - 1].1 == numPages by {
      StartLast(numPages, numThreads);
    }
    forall k | 0 <= k < numThreads
      ensures rs[k].0 <= rs[k].1
      ensures rs[k].1 - rs[k].0 == numPages / numThreads + (if k < numPages % numThreads then 1 else 0)
    {
      assert rs[k] == (Start(share, extra, k), Start(share, extra, k + 1));
      assert Start(share, extra, k + 1) == Start(share, extra, k) + share + (if k < extra then 1 else 0);
    }
  }

  /** `ranges` split `[0, numPages)` into consecutive ranges, in order,
      at least one of them. */
  predicate Tiles(ranges: seq<(nat, nat)>, numPages: nat)
  {
    && |ranges| >= 1
    && ranges[0].0 == 0
    && ranges[|ranges| - 1].1 == numPages
    && (forall k :: 0 <= k < |ranges| ==> ranges[k].0 <= ranges[k].1 <= numPages)
    && (forall k, k' :: 0 <= k < |ranges| && k' == k + 1 && k' < |ranges| ==> ranges[k'].0 == ranges[k].1)
  }

  /** The partition tiles the pages. */
  lemma RangesTile(numPages: nat, numThreads: nat)
    requires numThreads >= 1
    ensures |Ranges(numPages, numThreads)| == numThreads
    ensures Tiles(Ranges(numPages, numThreads), numPages)
  {
    RangesShape(numPages, numThreads);
    forall k | 0 <= k < numThreads
      ensures Ranges(numPages, numThreads)[k].1 <= numPages
    {
      RangeEndsWithin(numPages, numThreads, k);
    }
  }

  lemma RangeEndsWithin(numPages: nat, numThreads: nat, k: nat)
    requires numThreads >= 1 && k < numThreads
    ensures Ranges(numPages, numThreads)[k].1 <= numPages
  {
    StartMonotone(numPages / numThreads, numPages % numThreads, k + 1, numThreads);
    StartLast(numPages, numThreads);
  }

  /** The thread whose range holds page `p`: how a page position maps to a
      worker. */
  function Owner(numPages: nat, numThreads: nat, p: nat, from: nat): (k: nat)
    requires numThreads >= 1 && p < numPages
    requires from < numThreads && Start(numPages / numThreads, numPages % numThreads, from) <= p
    decreases numThreads - from
    ensures from <= k < numThreads
    ensures InRange(Ranges(numPages, numThreads)[k], p)
  {
    StartLast(numPages, numThreads);
    if p < Start(numPages / numThreads, numPages % numThreads, from + 1) then from
    else Owner(numPages, numThreads, p, from + 1)
  }

  /** Every page lies in some thread's range, and a position outside
      `[0, numPages)` lies in none. */
  lemma RangesCover(numPages: nat, numThreads: nat, p: nat)
    requires numThreads >= 1
    ensures p < numPages ==> exists k :: 0 <= k < numThreads && InRange(Ranges(numPages, numThreads)[k], p)
    ensures p >= numPages ==> forall k :: 0 <= k < numThreads ==> !InRange(Ranges(numPages, numThreads)[k], p)
  {
    var rs := Ranges(numPages, numThreads);
    if p < numPages {
      var k := Owner(numPages, numThreads, p, 0);
    } else {
      forall k | 0 <= k < numThreads ensures !InRange(rs[k], p) {
        RangeEndsWithin(numPages, numThreads, k);
      }
    }
  }

  /** No page lies in two threads' ranges. */
  lemma RangesDisjoint(numPages: nat, numThreads: nat, p: nat)
    requires numThreads >= 1
    ensures forall k, k' :: 0 <= k < numThreads && 0 <= k' < numThreads
              && InRange(Ranges(numPages, numThreads)[k], p) && InRange(Ranges(numPages, numThreads)[k'], p)
              ==> k == k'
  {
    var rs := Ranges(numPages, numThreads);
    forall k, k' | 0 <= k < numThreads && 0 <= k' < numThreads && InRange(rs[k], p) && InRange(rs[k'], p)
      ensures k == k'
    {
      RangesOrdered(numPages, numThreads, k, k');
      RangesOrdered(numPages, numThreads, k', k);
    }
  }

  /** Earlier threads' ranges end before later threads' ranges start. */
  lemma RangesOrdered(numPages: nat, numThreads: nat, k: nat, k': nat)
    requires numThreads >= 1 && k < numThreads && k' < numThreads
    ensures k < k' ==> Ranges(numPages, numThreads)[k].1 <= Ranges(numPages, numThreads)[k'].0
  {
    if k < k' {
      StartMonotone(numPages / numThreads, numPages % numThreads, k + 1, k');
    }
  }

  /** Ten pages over three threads: [0,4), [4,7), [7,10). */
  lemma TenPagesOverThreeThreads()
    ensures Ranges(10, 3) == [(0, 4), (4, 7), (7, 10)]
  {
    assert Start(3, 1, 1) == 4 && Start(3, 1, 2) == 7 && Start(3, 1, 3) == 10;
    assert Ranges(10, 3)[0] == (0, 4) && Ranges(10, 3)[1] == (4, 7) && Ranges(10, 3)[2] == (7, 10);
  }
}
