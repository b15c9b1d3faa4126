/** The reusable reduction barrier of the multi-threaded computer, as the
    state change each arrival makes while it holds the barrier's lock.
    Blocking and wake-up are not modelled: a round is the sequence of the
    `numThreads` arrivals, in the order they took the lock. */
module ReductionBarrier {

  /** The sum of a sequence of contributions, in arrival order. */
  function RealSum(s: seq<real>): real
  {
    if s == [] then 0.0 else RealSum(s[..|s| - 1]) + s[|s| - 1]
  }

  /** `n` plain arrivals, each contributing nothing. */
  function Zeros(n: nat): (z: seq<real>)
    ensures |z| == n && forall i :: 0 <= i < n ==> z[i] == 0.0
  {
    seq(n, _ => 0.0)
  }

  lemma {:induction false} RealSumZeros(n: nat)
    ensures RealSum(Zeros(n)) == 0.0
  {
    if n > 0 {
      RealSumZeros(n - 1);
      assert Zeros(n)[..n - 1] == Zeros(n - 1);
    }
  }

  class Barrier {
    const numThreads: nat
    /** Arrivals still missing in the current round. */
    var counter: nat
    /** Flipped at the end of every round; waiters wait for it to change. */
    var generation: bool
    /** The sum published by the last completed round. */
    var resultDouble: real
    /** The running sum of the current round's contributions. */
    var countDouble: real

    /** Contributions of the current round so far (a plain wait counts as 0). */
    ghost var arrivals: seq<real>
    /** Sums published by the completed rounds, oldest first. */
    ghost var published: seq<real>

    /** Between two arrivals: the counter says how many are missing, the
        accumulator holds the sum of this round's contributions, the
        generation is the parity of the completed rounds, and the result is
        the last published sum (0 before the first round completes). */
    ghost predicate Valid()
      reads this
    {
      && 1 <= counter <= numThreads
      && |arrivals| == numThreads - counter
      && countDouble == RealSum(arrivals)
      && generation == (|published| % 2 == 1)
      && resultDouble == (if published == [] then 0.0 else published[|published| - 1])
    }

    /** The state the last arrival of a round is in when it calls NotifyAll. */
    ghost predicate AllArrived()
      reads this
    {
      && counter == 0 && numThreads >= 1
      && |arrivals| == numThreads
      && countDouble == RealSum(arrivals)
      && generation == (|published| % 2 == 1)
    }

    /** With no threads the barrier is built but never waited on, so it is
        ready for a round only when there is at least one thread. */
    constructor (numThreads: nat)
      ensures numThreads >= 1 ==> Valid()
      ensures this.numThreads == numThreads && counter == numThreads
      ensures !generation && resultDouble == 0.0 && countDouble == 0.0
      ensures arrivals == [] && published == []
    {
      this.numThreads := numThreads;
      counter := numThreads;
      generation := false;
      resultDouble := 0.0;
      countDouble := 0.0;
      arrivals := [];
      published := [];
    }

    /** The last arrival publishes the round's sum, resets the accumulator
        and the counter, and flips the generation (waking the waiters). */
    method NotifyAll()
      requires AllArrived()
      modifies this
      ensures Valid()
      ensures resultDouble == old(countDouble) == RealSum(old(arrivals))
      ensures countDouble == 0.0 && counter == numThreads
      ensures generation == !old(generation)
      ensures arrivals == [] && published == old(published) + [old(countDouble)]
    {
      resultDouble := countDouble;
      countDouble := 0.0;
      generation := !generation;
      counter := numThreads;
      arrivals := [];
      published := published + [resultDouble];
    }

    /** A plain arrival: contributes nothing; `last` says whether it
        completed the round (otherwise the caller blocks until it does). */
    method Wait() returns (last: bool)
      requires Valid()
      modifies this
      ensures Valid()
      ensures last == (old(counter) == 1)
      ensures last ==> counter == numThreads && countDouble == 0.0 && generation == !old(generation)
                       && resultDouble == old(countDouble) && arrivals == []
                       && published == old(published) + [old(countDouble)]
      ensures !last ==> counter == old(counter) - 1 && countDouble == old(countDouble)
                        && generation == old(generation) && resultDouble == old(resultDouble)
                        && arrivals == old(arrivals) + [0.0] && published == old(published)
    {
      arrivals := arrivals + [0.0];
      assert RealSum(arrivals) == RealSum(old(arrivals)) + 0.0 by {
        assert arrivals[..|arrivals| - 1] == old(arrivals);
      }
      counter := counter - 1;
      last := counter == 0;
      if last {
        NotifyAll();
      }
    }

    /** An arrival contributing `diff`. When `last` is false the caller
        blocks until the round completes; either way the value its call
        returns is the round's published sum, `resultDouble` once the round
        is over (see `WaitAndSumRound`). */
    method WaitAndSum(diff: real) returns (last: bool)
      requires Valid()
      modifies this
      ensures Valid()
      ensures last == (old(counter) == 1)
      ensures last ==> counter == numThreads && countDouble == 0.0 && generation == !old(generation)
                       && resultDouble == old(countDouble) + diff && arrivals == []
                       && published == old(published) + [old(countDouble) + diff]
      ensures !last ==> counter == old(counter) - 1 && countDouble == old(countDouble) + diff
                        && generation == old(generation) && resultDouble == old(resultDouble)
                        && arrivals == old(arrivals) + [diff] && published == old(published)
    {
      countDouble := countDouble + diff;
      arrivals := arrivals + [diff];
      assert RealSum(arrivals) == RealSum(old(arrivals)) + diff by {
        assert arrivals[..|arrivals| - 1] == old(arrivals);
      }
      counter := counter - 1;
      last := counter == 0;
      if last {
        NotifyAll();
      }
    }

    /** One round of plain waits, one per thread: it publishes 0 and leaves
        the barrier ready for the next round, with the generation flipped. */
    method WaitRound()
      requires Valid() && counter == numThreads
      modifies this
      ensures Valid() && counter == numThreads && countDouble == 0.0
      ensures resultDouble == 0.0 && generation == !old(generation)
      ensures published == old(published) + [0.0]
    {
      var t := 0;
      while t < numThreads
        invariant Valid() && t <= numThreads
        invariant t < numThreads ==> counter == numThreads - t && arrivals == Zeros(t)
                                     && generation == old(generation) && published == old(published)
        invariant t == numThreads ==> counter == numThreads && resultDouble == 0.0
                                      && generation == !old(generation) && published == old(published) + [0.0]
      {
        RealSumZeros(t);
        var last := Wait();
        t := t + 1;
        if !last {
          assert arrivals == Zeros(t);
        }
      }
    }

    /** One round of `WaitAndSum`, thread `t` contributing `diffs[t]`: every
        thread's call returns `total`, the sum of all contributions, and the
        barrier is reset for the next round with the generation flipped. */
    method WaitAndSumRound(diffs: seq<real>) returns (total: real)
      requires Valid() && counter == numThreads && |diffs| == numThreads
      modifies this
      ensures Valid() && counter == numThreads && countDouble == 0.0
      ensures total == RealSum(diffs) && resultDouble == total
      ensures generation == !old(generation)
      ensures published == old(published) + [RealSum(diffs)]
    {
      var t := 0;
      while t < numThreads
        invariant Valid() && t <= numThreads
        invariant t < numThreads ==> counter == numThreads - t && arrivals == diffs[..t]
                                     && generation == old(generation) && published == old(published)
        invariant t == numThreads ==> counter == numThreads && resultDouble == RealSum(diffs)
                                      && generation == !old(generation) && published == old(published) + [RealSum(diffs)]
      {
        var last := WaitAndSum(diffs[t]);
        t := t + 1;
        assert diffs[..t] == diffs[..t - 1] + [diffs[t - 1]];
        if last {
          assert diffs[..t] == diffs;
        }
      }
      total := resultDouble;
    }
  }
}
