# PageRank computers: a Dafny model

This project models the two PageRank computers of the repository:
- the single-threaded computer, `singleThreadedPageRankComputer.hpp`;
- the multi-threaded computer, `multiThreadedPageRankComputer.hpp`, with its reusable reduction barrier.

A network is a sequence of pages. Each page has an identifier and a list of links, which are identifiers of other pages. Both computers do the same work:
1. They fill four maps:
   - two rank generations, `prev` and `curr`, every page starting at `1.0 / size`;
   - the out-degree table `numLinks`;
   - the reversed-edge index `edges`, where `edges[t]` lists the pages linking to `t`, once per link.
2. Up to `iterations` times, they:
   - sum the previous ranks of the dangling pages (pages with no links);
   - recompute every page's current rank;
   - stop when the round's residual is below `tolerance`, and otherwise copy the current generation into the previous one.

The multi-threaded computer splits the pages into `numThreads` contiguous ranges. The first `numPages % numThreads` ranges get one page more. Each thread runs every loop above over its own range. The threads meet at a barrier between phases, and the barrier also sums the threads' partial dangling sums and partial residuals.

What is proved, in outline:
- The build loops produce a reversed-edge index in which a page appears under a target exactly when it links there, once per link. With distinct page identifiers, the out-degree of every page is its link count (a repeated identifier keeps the count of its last page).
- The dangling loops sum exactly the pages without links.
- Each round turns the previous generation after `k` rounds into the one after `k + 1` rounds (`Ranking.RanksAfter`).
- The single-threaded computer returns the previous generation at the first converged round, or fails after `iterations` rounds.
- The partition covers every page exactly once, in contiguous ranges whose sizes differ by at most one.
- The barrier's round returns the sum of all threads' contributions to every thread, and leaves the barrier ready for the next round with its generation flipped.
- With the threads run in lockstep, each phase's per-thread loops, taken in thread order, do what the single-threaded loop does over all pages. A round's per-thread dangling sums, added up by the barrier, give the network's dangling mass.
- The multi-threaded computer's `success` flag is never initialised (see Findings). The corrected computer fails exactly when no round converges or there are no threads.

The floating-point recurrence is not modelled. The new rank of a page is `formula(edges, numLinks, prev, danglingMass, id)`, where `formula` is a parameter (`Ranking.RankFormula`). The residual of a round is also a parameter: a per-round value for the single-threaded computer, and a per-round, per-thread partial for the multi-threaded one. The two computers return different generations:
- the single-threaded computer returns `prevHashMap` at the first converged round `k`, that is the ranks after `k` rounds;
- the multi-threaded computer returns `curr_p_ranks`, that is the ranks after `k + 1` rounds.

Files:
- `network.dfy`: pages, rank maps and results.
- `reversed_index.dfy`: the index and degree builds.
- `ranking.dfy`: rank maps and rounds.
- `partition.dfy`: the page split.
- `barrier.dfy`: the barrier class.
- `single_threaded.dfy` and `multi_threaded.dfy`: the two computers.

## Model

| member | source | states |
|---|---|---|
| Network.DistinctIdsIffFullCount | singleThreadedPageRankComputer.hpp:64-69 | a network has at most as many distinct identifiers as pages, and exactly as many iff the identifiers are pairwise distinct, which is what the result-size assertion checks |
| ReversedIndex.AddLinks | singleThreadedPageRankComputer.hpp:34-36 | pushing a page's identifier under each of its links adds exactly the link targets as keys |
| ReversedIndex.PushLinks | singleThreadedPageRankComputer.hpp:34-36 | the inner build loop pushes the identifier under each link in order, i.e. computes `AddLinks` |
| ReversedIndex.AddPages | singleThreadedPageRankComputer.hpp:29-37 | after the build loop the index's keys are the old keys plus every link target of every page |
| ReversedIndex.AddDegrees | singleThreadedPageRankComputer.hpp:33-33 | the degree table gains an entry for each page identifier and no other entry changes |
| ReversedIndex.AddLinksLookup | singleThreadedPageRankComputer.hpp:34-36 | one page's loop appends its identifier under `t` exactly as many times as it links to `t` |
| ReversedIndex.AddPagesLookup | singleThreadedPageRankComputer.hpp:29-37 | the entry under `t` grows by exactly the pages linking to `t`, in page order, once per link |
| ReversedIndex.LinkersComplete | singleThreadedPageRankComputer.hpp:34-36 | every link of every page is recorded: the page appears among the linkers of its target |
| ReversedIndex.LinkersSound | singleThreadedPageRankComputer.hpp:34-36 | whoever appears among the linkers of `t` is a page that links to `t` |
| ReversedIndex.LinkersCount | singleThreadedPageRankComputer.hpp:34-36 | the linkers of `t` are as many as the links to `t` in the network |
| ReversedIndex.EdgesOfNetwork | singleThreadedPageRankComputer.hpp:29-37 | the index built from a network has `t` as a key iff some page links to `t`; a page is listed under `t` iff it links to `t`; the entry has one element per link to `t` |
| ReversedIndex.DegreeOfPage | singleThreadedPageRankComputer.hpp:33-33 | with distinct identifiers, each page's out-degree entry is its link count |
| ReversedIndex.BuildRecordsPage | multiThreadedPageRankComputer.hpp:103-112 | whatever the shared maps held before, a thread's build over a range with distinct identifiers records each page's link count and lists the page under each of its links |
| ReversedIndex.AddPagesConcat | multiThreadedPageRankComputer.hpp:103-112 | building two consecutive ranges one after the other builds their concatenation |
| ReversedIndex.AddDegreesConcat | multiThreadedPageRankComputer.hpp:103-112 | the same composition for the out-degree table |
| Ranking.WithRank | singleThreadedPageRankComputer.hpp:31-32 | the rank part of a build loop gives every page `rank` and leaves other entries unchanged |
| Ranking.Uniform | singleThreadedPageRankComputer.hpp:31-32 | the initial generation has exactly one entry per page identifier |
| Ranking.DanglingIds | singleThreadedPageRankComputer.hpp:41-44 | the identifiers summed by the dangling loop are page identifiers |
| Ranking.DanglingIdsExact | singleThreadedPageRankComputer.hpp:41-44 | an identifier is summed iff some page with that identifier has no links |
| Ranking.DanglingIdsConcat | multiThreadedPageRankComputer.hpp:119-122 | the dangling pages of two consecutive ranges are those of the first followed by those of the second |
| Ranking.SumRanksConcat | multiThreadedPageRankComputer.hpp:119-123 | summing the ranks of two lists is adding their sums |
| Ranking.DanglingMassConcat | multiThreadedPageRankComputer.hpp:119-123 | the dangling mass of two consecutive ranges is the sum of their dangling masses, which is what adding the threads' partial sums relies on |
| Ranking.DanglingMassSnoc | singleThreadedPageRankComputer.hpp:41-44 | one more page adds its previous rank to the dangling mass exactly when it has no links |
| Ranking.Updated | singleThreadedPageRankComputer.hpp:48-61 | the update loop gives every page the recurrence's value on the previous generation and leaves other entries unchanged |
| Ranking.Copied | singleThreadedPageRankComputer.hpp:71-74 | the copy loop gives every page its current rank in the previous generation and leaves other entries unchanged |
| Ranking.UpdatedConcat | multiThreadedPageRankComputer.hpp:129-138 | updating two consecutive ranges one after the other updates their concatenation |
| Ranking.CopiedConcat | multiThreadedPageRankComputer.hpp:145-148 | copying two consecutive ranges one after the other copies their concatenation |
| Ranking.WithRankConcat | multiThreadedPageRankComputer.hpp:106-107 | initialising two consecutive ranges one after the other initialises their concatenation |
| Ranking.RanksAfter | singleThreadedPageRankComputer.hpp:39-76 | the previous generation after `k` non-converged rounds has exactly one entry per page identifier |
| Ranking.RoundAdvances | singleThreadedPageRankComputer.hpp:47-74 | a non-converged round (update from the previous generation after `k` rounds, then copy back) gives the generation after `k + 1` rounds in both maps |
| Ranking.FirstBelow | singleThreadedPageRankComputer.hpp:63-63 | finds the first round whose residual is below the tolerance, all earlier rounds being at or above it; finds none iff every round is at or above it |
| Ranking.SizeChecked | singleThreadedPageRankComputer.hpp:68-68 | the result-size assertion passes with the rank map, whose size is the page count, and fails only when identifiers repeat |
| Partitioning.Partition | multiThreadedPageRankComputer.hpp:154-162 | the partition loop with its running `index` and `delta_i` produces the ranges `Ranges`, one per thread, none when there are no threads |
| Partitioning.StartClosedForm | multiThreadedPageRankComputer.hpp:154-162 | after `i` threads the running index is `i` shares plus `min(i, numPages % numThreads)` |
| Partitioning.StartLast | multiThreadedPageRankComputer.hpp:154-162 | after all threads the running index is the page count |
| Partitioning.StartMonotone | multiThreadedPageRankComputer.hpp:154-162 | range starts never decrease |
| Partitioning.RangesShape | multiThreadedPageRankComputer.hpp:154-162 | one range per thread; the first starts at 0, the last ends at the page count, each starts where the previous ends, and each holds `numPages / numThreads` pages plus one exactly for the first `numPages % numThreads` threads |
| Partitioning.RangesTile | multiThreadedPageRankComputer.hpp:154-162 | the ranges tile the pages: contiguous, in order, within bounds |
| Partitioning.RangeEndsWithin | multiThreadedPageRankComputer.hpp:154-162 | no range ends past the last page |
| Partitioning.RangesOrdered | multiThreadedPageRankComputer.hpp:154-162 | an earlier thread's range ends before a later thread's begins |
| Partitioning.Owner | multiThreadedPageRankComputer.hpp:154-162 | finds the thread whose range holds a page |
| Partitioning.RangesCover | multiThreadedPageRankComputer.hpp:154-162 | every page lies in some thread's range, and no position past the last page does |
| Partitioning.RangesDisjoint | multiThreadedPageRankComputer.hpp:154-162 | no page lies in two threads' ranges |
| Partitioning.TenPagesOverThreeThreads | multiThreadedPageRankComputer.hpp:154-162 | ten pages over three threads give [0,4), [4,7), [7,10) |
| ReductionBarrier.Barrier.constructor | multiThreadedPageRankComputer.hpp:20-27 | a new barrier expects `numThreads` arrivals, generation false, sums 0; it is ready for a round when there is at least one thread |
| ReductionBarrier.Barrier.NotifyAll | multiThreadedPageRankComputer.hpp:29-36 | the last arrival publishes the round's sum, resets the accumulator and the counter, and flips the generation |
| ReductionBarrier.Barrier.Wait | multiThreadedPageRankComputer.hpp:38-48 | a plain arrival decrements the counter; the last one completes the round, the others leave the state for it |
| ReductionBarrier.Barrier.WaitAndSum | multiThreadedPageRankComputer.hpp:51-63 | an arrival adds its contribution to the round's sum; the last one publishes the sum that every arrival returns |
| ReductionBarrier.Barrier.WaitRound | multiThreadedPageRankComputer.hpp:38-48 | a round of plain waits by all threads flips the generation and leaves the barrier ready for the next round |
| ReductionBarrier.Barrier.WaitAndSumRound | multiThreadedPageRankComputer.hpp:51-63 | a round of `wait_and_sum` by all threads returns the sum of all contributions, flips the generation and leaves the barrier ready for the next round |
| SingleThreaded.BuildIndex | singleThreadedPageRankComputer.hpp:29-37 | the build loop leaves both generations uniform, the degree table and the index as `DegreesOf` and `EdgesOf` describe them |
| SingleThreaded.DanglingSum | singleThreadedPageRankComputer.hpp:40-44 | the dangling loop computes the network's dangling mass |
| SingleThreaded.UpdateRanks | singleThreadedPageRankComputer.hpp:48-61 | the update loop computes `Updated` |
| SingleThreaded.CopyRanks | singleThreadedPageRankComputer.hpp:71-74 | the copy loop computes `Copied` |
| SingleThreaded.Outcome | singleThreadedPageRankComputer.hpp:39-78 | a convergence failure iff every round's residual is at or above the tolerance; otherwise the previous generation at the first converged round, one entry per page, the size assertion failing only with repeated identifiers |
| SingleThreaded.Iterate | singleThreadedPageRankComputer.hpp:39-78 | the iteration loop, from the built maps, returns `Outcome` |
| SingleThreaded.ComputeForNetwork | singleThreadedPageRankComputer.hpp:16-79 | `computeForNetwork` returns `Outcome` |
| MultiThreaded.BuildRange | multiThreadedPageRankComputer.hpp:103-112 | a thread's build loop adds its range's ranks, degrees and reversed edges to the shared maps |
| MultiThreaded.DanglingRange | multiThreadedPageRankComputer.hpp:117-122 | a thread's dangling loop computes the dangling mass of its range |
| MultiThreaded.UpdateRange | multiThreadedPageRankComputer.hpp:129-138 | a thread's update loop updates exactly its range |
| MultiThreaded.CopyRange | multiThreadedPageRankComputer.hpp:145-148 | a thread's copy loop copies exactly its range |
| MultiThreaded.BuildPhase | multiThreadedPageRankComputer.hpp:103-114 | the threads' builds, in thread order over a tiling, leave the shared maps exactly as the single-threaded build does |
| MultiThreaded.DanglingPhase | multiThreadedPageRankComputer.hpp:117-123 | one partial sum per thread, adding up to the network's dangling mass |
| MultiThreaded.UpdatePhase | multiThreadedPageRankComputer.hpp:129-140 | the threads' update loops together update every page, as the single-threaded loop does |
| MultiThreaded.CopyPhase | multiThreadedPageRankComputer.hpp:141-150 | the threads' copy loops together copy every page, as the single-threaded loop does |
| MultiThreaded.Outcome | multiThreadedPageRankComputer.hpp:93-174 | a result has one entry per page; with at least one thread the size assertion fails only with repeated identifiers |
| MultiThreaded.InitialisedOutcome | multiThreadedPageRankComputer.hpp:140-174 | with `success` starting false, a convergence failure iff there are no threads or no round's total is below the tolerance |
| MultiThreaded.FirstConvergedRound | multiThreadedPageRankComputer.hpp:140-171 | with at least one thread, when round `k` is the first to converge, the result is the current generation after `k + 1` rounds |
| MultiThreaded.ComputeForNetworkAsWritten | multiThreadedPageRankComputer.hpp:80-175 | the lockstep run (partition, barrier rounds, phases, `success` as it happens to start; no thread and no round with zero threads) returns `Outcome` |
| MultiThreaded.ComputeForNetwork | multiThreadedPageRankComputer.hpp:93-174 | with `success` initialised to false, the run fails to converge iff there are no threads or no round's total is below the tolerance |
| MultiThreaded.UninitialisedOutcome | multiThreadedPageRankComputer.hpp:93-174 | with `success` starting true, the run never reports a convergence failure; with at least one thread and no converged round it returns the ranks after the last round instead |
| MultiThreaded.NoThreadsOutcome | multiThreadedPageRankComputer.hpp:154-174 | with zero threads no round runs: a convergence failure when `success` starts false; when it starts true, the empty `curr_p_ranks`, which fails the size assertion for every non-empty network |
| MultiThreaded.UninitialisedSuccessCounterexample | multiThreadedPageRankComputer.hpp:93-93 | a one-page network whose only round does not converge is reported as a result when `success` happens to start true |

## Left out

- Threads, mutexes, condition variables and `join`: the multi-threaded run is modelled in lockstep. Each phase runs the threads' loops one after the other in thread order, and each barrier round is all threads arriving once. Blocking and wake-up are not modelled.
- MultiThreaded.BuildPhase: builds in thread order only. Other interleavings of the build under `map_mutex` push identifiers into the reversed-edge lists in a different order and, with a repeated identifier, change which page's link count `numLinks` keeps.
- Page identifier generation (`generateId`, the identifier generator and the SHA-256 generator): identifiers are given as input. The barrier round that follows identifier generation is modelled.
- Floating-point arithmetic: the rank recurrence (alpha, the dangling share, the contributions along reversed edges) is a parameter `formula`, and the residuals `|new - old|` are parameters. Nothing is said about their values or about convergence.
- `getName` and the constructors of the computers are not modelled.
- Integer widths (`uint32_t` iterations and counters, `size_t` sizes) are unbounded integers. The barrier's counter never goes below one between arrivals, so it never wraps.
- The conversion of the rank map into a vector of `PageIdAndRank` is not modelled. A result is the rank map itself, and the vector has one element per map entry.
- Zero threads is modelled: the partition loop does not run (so nothing is divided), no thread starts, no barrier round happens, and the result is decided by `success` alone (`MultiThreaded.NoThreadsOutcome`). The barrier is built but never waited on, so its round methods are only modelled with at least one thread.
- SingleThreaded.DanglingSum: requires every page to already have a previous rank, which the build loop guarantees. The insertion that `operator[]` performs on a missing key is not modelled.
- SingleThreaded.CopyRanks: requires every page to already have a current rank, for the same reason.
- MultiThreaded.DanglingRange: requires its pages to already have previous ranks, for the same reason.
- MultiThreaded.CopyRange: requires its pages to already have current ranks, for the same reason.
- No claim is made that the two computers compute the same ranks. For the same residuals, the multi-threaded computer returns the generation one round later than the single-threaded one.

## Findings

| source | as written | input that shows it | evidently intended | confidence | as-written member | corrected member |
|---|---|---|---|---|---|---|
| multiThreadedPageRankComputer.hpp:93 | `bool success;` is never initialised. It is only ever set to true (line 142) and decides the result at line 167. | One page with no links, one thread, one iteration, tolerance 0 and a residual of 1 in that round, with `success` happening to hold true: a result is returned. | `success` starts false, so a run in which no round converges fails the "Not able to find result" assertion. | not executed | MultiThreaded.UninitialisedSuccessCounterexample | MultiThreaded.ComputeForNetwork |
