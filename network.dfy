/** The data both rank computers share: pages, their identifiers and the
    maps keyed by identifier that a computation builds. */
module Network {

  /** A page identifier: the digest the identifier generator assigns to a
      page's content. The model treats it as an opaque string. */
  type PageId = string

  /** A page of the network: its identifier and the identifiers of the
      pages it links to, in order and with repetitions. */
  datatype Page = Page(id: PageId, links: seq<PageId>)

  /** Rank of each page (one generation: previous or current). */
  type Ranks = map<PageId, real>

  /** Reversed-edge index: for a page, the pages that link to it. */
  type Index = map<PageId, seq<PageId>>

  /** Out-degree table: for a page, the number of links it has. */
  type Degrees = map<PageId, nat>

  datatype Option<T> = None | Some(value: T)

  /** The two ways a computation fails: no round converged within the
      iteration budget, or the result does not hold one entry per page. */
  datatype ComputeError = NotConverged | InvalidResultSize

  datatype Result<T> = Ok(value: T) | Err(error: ComputeError)

  /** The set of identifiers of the pages. */
  function IdSet(pages: seq<Page>): set<PageId>
  {
    set i | 0 <= i < |pages| :: pages[i].id
  }

  /** No two pages share an identifier. */
  predicate DistinctIds(pages: seq<Page>)
  {
    forall i, j :: 0 <= i < j < |pages| ==> pages[i].id != pages[j].id
  }

  /** All links of all pages, in page order. */
  function AllLinks(pages: seq<Page>): seq<PageId>
  {
    if pages == [] then [] else AllLinks(pages[..|pages| - 1]) + pages[|pages| - 1].links
  }

  lemma IdSetSnoc(pages: seq<Page>)
    requires pages != []
    ensures IdSet(pages) == IdSet(pages[..|pages| - 1]) + {pages[|pages| - 1].id}
  {
    var front := pages[..|pages| - 1];
    forall x | x in IdSet(pages) ensures x in IdSet(front) + {pages[|pages| - 1].id} {
      var i :| 0 <= i < |pages| && pages[i].id == x;
      if i < |pages| - 1 { assert front[i].id == x; }
    }
    forall x | x in IdSet(front) ensures x in IdSet(pages) {
      var i :| 0 <= i < |front| && front[i].id == x;
      assert pages[i].id == x;
    }
  }

  /** A page slice's identifiers are the union of its two halves'. */
  lemma IdSetSplit(pages: seq<Page>, k: nat)
    requires k <= |pages|
    ensures IdSet(pages) == IdSet(pages[..k]) + IdSet(pages[k..])
  {
    forall x | x in IdSet(pages) ensures x in IdSet(pages[..k]) + IdSet(pages[k..]) {
      var i :| 0 <= i < |pages| && pages[i].id == x;
      if i < k { assert pages[..k][i].id == x; } else { assert pages[k..][i - k].id == x; }
    }
    forall x | x in IdSet(pages[..k]) ensures x in IdSet(pages) {
      var i :| 0 <= i < k && pages[..k][i].id == x;
      assert pages[i].id == x;
    }
    forall x | x in IdSet(pages[k..]) ensures x in IdSet(pages) {
      var i :| 0 <= i < |pages| - k && pages[k..][i].id == x;
      assert pages[k + i].id == x;
    }
  }

  /** Two adjacent slices joined are the slice spanning both. */
  lemma SliceJoin(pages: seq<Page>, a: nat, b: nat, c: nat)
    requires a <= b <= c <= |pages|
    ensures pages[a..b] + pages[b..c] == pages[a..c]
  {
  }

  /** A slice's identifiers are identifiers of the whole sequence. */
  lemma IdSetSlice(pages: seq<Page>, a: nat, b: nat)
    requires a <= b <= |pages|
    ensures IdSet(pages[a..b]) <= IdSet(pages)
  {
    forall x | x in IdSet(pages[a..b]) ensures x in IdSet(pages) {
      var i :| 0 <= i < b - a && pages[a..b][i].id == x;
      assert pages[a + i].id == x;
    }
  }

  lemma IdSetConcat(a: seq<Page>, b: seq<Page>)
    ensures IdSet(a + b) == IdSet(a) + IdSet(b)
  {
    IdSetSplit(a + b, |a|);
    assert (a + b)[..|a|] == a && (a + b)[|a|..] == b;
  }

  /** There are never more identifiers than pages, and there are exactly as
      many precisely when the identifiers are distinct. This is what the
      result-size assertion of both computers checks. */
  lemma {:induction false} DistinctIdsIffFullCount(pages: seq<Page>)
    ensures |IdSet(pages)| <= |pages|
    ensures DistinctIds(pages) <==> |IdSet(pages)| == |pages|
  {
    if pages == [] {
      assert IdSet(pages) == {};
    } else {
      var front, last := pages[..|pages| - 1], pages[|pages| - 1];
      IdSetSnoc(pages);
      DistinctIdsIffFullCount(front);
      if last.id in IdSet(front) {
        var i :| 0 <= i < |front| && front[i].id == last.id;
        assert pages[i].id == pages[|pages| - 1].id;
        assert !DistinctIds(pages);
      } else {
        assert DistinctIds(pages) <==> DistinctIds(front) by {
          if DistinctIds(front) {
            forall i, j | 0 <= i < j < |pages| ensures pages[i].id != pages[j].id {
              if j < |pages| - 1 {
                assert front[i].id != front[j].id;
              } else {
                assert front[i].id in IdSet(front);
              }
            }
          }
          if DistinctIds(pages) {
            forall i, j | 0 <= i < j < |front| ensures front[i].id != front[j].id {
              assert pages[i].id != pages[j].id;
            }
          }
        }
      }
    }
  }
}
