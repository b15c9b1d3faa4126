/** The reversed-edge index and the out-degree table, as the build loops of
    both computers fill them: page by page, in page order, and for each page
    link by link. Each loop is specified by a left fold over the pages; the
    lemmas say what the folded maps contain. */
module ReversedIndex {
  import opened Network

  /** The list stored under `t`, or the empty list that
      `std::unordered_map::operator[]` creates for a missing key. */
  function Lookup(edges: Index, t: PageId): seq<PageId>
  {
    if t in edges then edges[t] else []
  }

  /** `edges[t].push_back(id)`. */
  function PushBack(edges: Index, t: PageId, id: PageId): Index
  {
    edges[t := Lookup(edges, t) + [id]]
  }

  /** The set of targets a list of links mentions. */
  function Targets(links: seq<PageId>): set<PageId>
  {
    set t | t in links
  }

  /** The inner build loop: `id` is pushed under each of its links in turn. */
  function AddLinks(edges: Index, id: PageId, links: seq<PageId>): (r: Index)
    ensures r.Keys == edges.Keys + Targets(links)
  {
    if links == [] then edges
    else
      var front := links[..|links| - 1];
      assert Targets(links) == Targets(front) + {links[|links| - 1]} by {
        assert links == front + [links[|links| - 1]];
      }
      PushBack(AddLinks(edges, id, front), links[|links| - 1], id)
  }

  /** The inner build loop of both computers: `edges[nei].push_back(id)`
      for each link `nei` of a page, in order. */
  method PushLinks(edges: Index, id: PageId, links: seq<PageId>) returns (r: Index)
    ensures r == AddLinks(edges, id, links)
  {
    r := edges;
    var j := 0;
    while j < |links|
      invariant j <= |links|
      invariant r == AddLinks(edges, id, links[..j])
    {
      assert links[..j + 1][..j] == links[..j];
      r := PushBack(r, links[j], id);
      j := j + 1;
    }
    assert links[..j] == links;
  }

  /** The outer build loop: each page pushes its identifier under its links. */
  function AddPages(edges: Index, pages: seq<Page>): (r: Index)
    ensures r.Keys == edges.Keys + Targets(AllLinks(pages))
  {
    if pages == [] then edges
    else
      var front, last := pages[..|pages| - 1], pages[|pages| - 1];
      assert Targets(AllLinks(pages)) == Targets(AllLinks(front)) + Targets(last.links);
      AddLinks(AddPages(edges, front), last.id, last.links)
  }

  /** The out-degree part of the build loop: `numLinks[id] = |links|`. */
  function AddDegrees(numLinks: Degrees, pages: seq<Page>): (r: Degrees)
    ensures r.Keys == numLinks.Keys + IdSet(pages)
    ensures forall id :: id in numLinks && id !in IdSet(pages) ==> r[id] == numLinks[id]
  {
    if pages == [] then numLinks
    else
      var front, last := pages[..|pages| - 1], pages[|pages| - 1];
      IdSetSnoc(pages);
      AddDegrees(numLinks, front)[last.id := |last.links|]
  }

  /** The index and the degree table a whole network's build produces. */
  function EdgesOf(pages: seq<Page>): Index
  {
    AddPages(map[], pages)
  }

  function DegreesOf(pages: seq<Page>): Degrees
  {
    AddDegrees(map[], pages)
  }

  /** `k` copies of `id`. */
  function Repeat(id: PageId, k: nat): (r: seq<PageId>)
    ensures |r| == k && forall i :: 0 <= i < k ==> r[i] == id
  {
    seq(k, _ => id)
  }

  /** Independent description of a reversed-index entry: the pages that
      link to `t`, in page order, once per link. */
  function Linkers(pages: seq<Page>, t: PageId): seq<PageId>
  {
    if pages == [] then []
    else
      var last := pages[|pages| - 1];
      Linkers(pages[..|pages| - 1], t) + Repeat(last.id, multiset(last.links)[t])
  }

  /** One page's links add `multiset(links)[t]` copies of its identifier
      under `t`. */
  lemma {:induction false} AddLinksLookup(edges: Index, id: PageId, links: seq<PageId>, t: PageId)
    ensures Lookup(AddLinks(edges, id, links), t) == Lookup(edges, t) + Repeat(id, multiset(links)[t])
  {
    if links == [] {
      assert Lookup(edges, t) + Repeat(id, 0) == Lookup(edges, t);
    } else {
      var front, l := links[..|links| - 1], links[|links| - 1];
      var m := multiset(front)[t];
      var before := Lookup(AddLinks(edges, id, front), t);
      assert before == Lookup(edges, t) + Repeat(id, m) by {
        AddLinksLookup(edges, id, front, t);
      }
      assert multiset(links)[t] == m + (if l == t then 1 else 0) by {
        assert links == front + [l];
      }
      assert Lookup(AddLinks(edges, id, links), t) == if l == t then before + [id] else before;
      if l == t {
        assert Repeat(id, m) + [id] == Repeat(id, m + 1);
      }
    }
  }

  /** Each reversed-index entry grows by exactly the linkers of the added pages. */
  lemma {:induction false} AddPagesLookup(edges: Index, pages: seq<Page>, t: PageId)
    ensures Lookup(AddPages(edges, pages), t) == Lookup(edges, t) + Linkers(pages, t)
  {
    if pages != [] {
      var front, last := pages[..|pages| - 1], pages[|pages| - 1];
      var a, b, c := Lookup(edges, t), Linkers(front, t), Repeat(last.id, multiset(last.links)[t]);
      AddPagesLookup(edges, front, t);
      AddLinksLookup(AddPages(edges, front), last.id, last.links, t);
      assert AddPages(edges, pages) == AddLinks(AddPages(edges, front), last.id, last.links);
      assert Linkers(pages, t) == b + c;
      assert (a + b) + c == a + (b + c);
    }
  }

  /** Every link of every page is recorded: the page appears under the target. */
  lemma {:induction false} LinkersComplete(pages: seq<Page>, i: nat, t: PageId)
    requires i < |pages| && t in pages[i].links
    ensures pages[i].id in Linkers(pages, t)
  {
    var front, last := pages[..|pages| - 1], pages[|pages| - 1];
    if i < |pages| - 1 {
      LinkersComplete(front, i, t);
    } else {
      assert multiset(last.links)[t] > 0;
      assert Repeat(last.id, multiset(last.links)[t])[0] == last.id;
    }
  }

  /** Nothing else is recorded: whoever appears under `t` links to `t`. */
  lemma {:induction false} LinkersSound(pages: seq<Page>, t: PageId, x: PageId)
    requires x in Linkers(pages, t)
    ensures exists i :: 0 <= i < |pages| && pages[i].id == x && t in pages[i].links
  {
    var front, last := pages[..|pages| - 1], pages[|pages| - 1];
    if x in Linkers(front, t) {
      LinkersSound(front, t, x);
      var i :| 0 <= i < |front| && front[i].id == x && t in front[i].links;
      assert pages[i] == front[i];
    } else {
      assert multiset(last.links)[t] > 0;
      assert pages[|pages| - 1].id == x && t in pages[|pages| - 1].links;
    }
  }

  /** The entry under `t` is as long as the number of links to `t`. */
  lemma {:induction false} LinkersCount(pages: seq<Page>, t: PageId)
    ensures |Linkers(pages, t)| == multiset(AllLinks(pages))[t]
  {
    if pages != [] {
      LinkersCount(pages[..|pages| - 1], t);
    }
  }

  /** The reversed-edge index of a network, as promised by the build loop:
      a target has an entry exactly when some page links to it; a page is
      listed under a target exactly when it links there; and the entry under
      a target holds one element per link to that target. */
  lemma EdgesOfNetwork(pages: seq<Page>, t: PageId)
    ensures t in EdgesOf(pages) <==> t in AllLinks(pages)
    ensures forall i :: 0 <= i < |pages| && t in pages[i].links ==>
              t in EdgesOf(pages) && pages[i].id in EdgesOf(pages)[t]
    ensures forall x :: x in Lookup(EdgesOf(pages), t) ==>
              exists i :: 0 <= i < |pages| && pages[i].id == x && t in pages[i].links
    ensures |Lookup(EdgesOf(pages), t)| == multiset(AllLinks(pages))[t]
  {
    AddPagesLookup(map[], pages, t);
    LinkersCount(pages, t);
    forall i | 0 <= i < |pages| && t in pages[i].links
      ensures t in EdgesOf(pages) && pages[i].id in EdgesOf(pages)[t]
    {
      LinkersComplete(pages, i, t);
    }
    forall x | x in Lookup(EdgesOf(pages), t)
      ensures exists i :: 0 <= i < |pages| && pages[i].id == x && t in pages[i].links
    {
      LinkersSound(pages, t, x);
    }
  }

  /** What a build over a slice of pages records, whatever the maps held
      before: with distinct identifiers in the slice, each page's out-degree
      is its link count, and the page is listed under each of its links. */
  lemma BuildRecordsPage(edges: Index, numLinks: Degrees, pages: seq<Page>, i: nat)
    requires DistinctIds(pages) && i < |pages|
    ensures pages[i].id in AddDegrees(numLinks, pages)
    ensures AddDegrees(numLinks, pages)[pages[i].id] == |pages[i].links|
    ensures forall t :: t in pages[i].links ==>
              t in AddPages(edges, pages) && pages[i].id in AddPages(edges, pages)[t]
  {
    DegreeOfPage(numLinks, pages, i);
    forall t | t in pages[i].links
      ensures t in AddPages(edges, pages) && pages[i].id in AddPages(edges, pages)[t]
    {
      AddPagesLookup(edges, pages, t);
      LinkersComplete(pages, i, t);
    }
  }

  /** With distinct identifiers, the out-degree of each page is its link count. */
  lemma {:induction false} DegreeOfPage(numLinks: Degrees, pages: seq<Page>, i: nat)
    requires DistinctIds(pages) && i < |pages|
    ensures pages[i].id in AddDegrees(numLinks, pages)
    ensures AddDegrees(numLinks, pages)[pages[i].id] == |pages[i].links|
  {
    var front := pages[..|pages| - 1];
    if i < |pages| - 1 {
      assert DistinctIds(front) by {
        forall a, b | 0 <= a < b < |front| ensures front[a].id != front[b].id {
          assert pages[a].id != pages[b].id;
        }
      }
      DegreeOfPage(numLinks, front, i);
      assert pages[i].id != pages[|pages| - 1].id;
    }
  }

  /** Building two consecutive slices one after the other builds their
      concatenation: the per-thread builds, run in thread order, compose. */
  lemma {:induction false} AddPagesConcat(edges: Index, a: seq<Page>, b: seq<Page>)
    ensures AddPages(AddPages(edges, a), b) == AddPages(edges, a + b)
  {
    if b != [] {
      var front := b[..|b| - 1];
      AddPagesConcat(edges, a, front);
      assert (a + b)[..|a + b| - 1] == a + front;
    } else {
      assert a + b == a;
    }
  }

  lemma {:induction false} AddDegreesConcat(numLinks: Degrees, a: seq<Page>, b: seq<Page>)
    ensures AddDegrees(AddDegrees(numLinks, a), b) == AddDegrees(numLinks, a + b)
  {
    if b != [] {
      var front := b[..|b| - 1];
      AddDegreesConcat(numLinks, a, front);
      assert (a + b)[..|a + b| - 1] == a + front;
    } else {
      assert a + b == a;
    }
  }
}
