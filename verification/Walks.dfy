/**
 Page-by-page readers over a sorted set of keys: the keyset reader, which remembers the last
 key it showed, and the offset reader, which counts rows. A walk fetches page after page while
 the table may change between any two fetches.
 */
module Walks {
  import opened Wrappers
  import opened Keys
  import opened FiniteSets

  datatype Page = Page(items: seq<Key>, more: bool)

  predicate Beyond(d: Dir, cursor: Option<Key>, k: Key) {
    cursor.None? || Before(d, cursor.value, k)
  }

  function Remaining(d: Dir, s: set<Key>, cursor: Option<Key>): set<Key> {
    set k | k in s && Beyond(d, cursor, k)
  }

  function Slice<T>(q: seq<T>, offset: nat, limit: nat): seq<T> {
    if offset >= |q| then []
    else if offset + limit >= |q| then q[offset..]
    else q[offset..offset + limit]
  }

  /** One keyset query: `limit + 1` rows are read, the extra one only tells whether more follow. */
  function Fetch(d: Dir, s: set<Key>, cursor: Option<Key>, limit: nat): Page {
    var records := Slice(Sort(d, Remaining(d, s, cursor)), 0, limit + 1);
    Page(Slice(records, 0, limit), |records| > limit)
  }

  function Last(p: Page): Key
    requires p.items != []
  {
    p.items[|p.items| - 1]
  }

  /** The page is the first `limit` keys beyond the cursor, and `more` says truthfully whether keys are left. */
  lemma FetchIsPrefix(d: Dir, s: set<Key>, cursor: Option<Key>, limit: nat)
    requires limit >= 1
    ensures var p := Fetch(d, s, cursor, limit); var q := Sort(d, Remaining(d, s, cursor));
            && p.items == Slice(q, 0, limit)
            && (p.more <==> |q| > limit)
            && (p.more ==> |p.items| == limit)
            && (!p.more ==> p.items == q)
  {
  }

  /**
   What a page tells the client: its keys are stored, in order and beyond the cursor, and every
   stored key beyond the cursor that it leaves out comes after its last key.
   */
  ghost predicate Fair(d: Dir, s: set<Key>, cursor: Option<Key>, p: Page) {
    && Ordered(d, p.items)
    && (p.more ==> p.items != [])
    && (forall k :: k in p.items ==> k in s && Beyond(d, cursor, k))
    && (forall k :: k in s && Beyond(d, cursor, k) && k !in p.items ==> p.more && Before(d, Last(p), k))
  }

  lemma PrefixIsFair(d: Dir, s: set<Key>, cursor: Option<Key>, limit: nat, q: seq<Key>, p: Page)
    requires limit >= 1
    requires Ordered(d, q) && SameKeys(q, Remaining(d, s, cursor))
    requires p.items == Slice(q, 0, limit)
    requires p.more <==> |q| > limit
    ensures Fair(d, s, cursor, p)
  {
    assert forall i :: 0 <= i < |p.items| ==> p.items[i] == q[i] && q[i] in q && q[i] in p.items;
    forall k | k in s && Beyond(d, cursor, k) && k !in p.items
      ensures p.more && Before(d, Last(p), k)
    {
      assert k in q;
      var i :| 0 <= i < |q| && q[i] == k;
      assert i >= |p.items|;
      assert Last(p) == q[limit - 1];
    }
  }

  lemma FetchIsFair(d: Dir, s: set<Key>, cursor: Option<Key>, limit: nat)
    requires limit >= 1
    ensures Fair(d, s, cursor, Fetch(d, s, cursor, limit))
  {
    var r := Remaining(d, s, cursor);
    SortSorts(d, r);
    FetchIsPrefix(d, s, cursor, limit);
    PrefixIsFair(d, s, cursor, limit, Sort(d, r), Fetch(d, s, cursor, limit));
  }

  /** The client loop: fetch, and follow the last key while the server says that more rows follow. */
  function Walk(d: Dir, views: seq<set<Key>>, cursor: Option<Key>, limit: nat): (pages: seq<Page>)
    requires limit >= 1
    ensures |pages| <= |views|
    ensures forall p :: p in pages && p.more ==> p.items != []
    decreases |views|
  {
    if views == [] then []
    else
      var p := Fetch(d, views[0], cursor, limit);
      FetchIsPrefix(d, views[0], cursor, limit);
      if !p.more then [p]
      else [p] + Walk(d, views[1..], Some(Last(p)), limit)
  }

  function Flat(pages: seq<Page>): seq<Key> {
    if pages == [] then [] else pages[0].items + Flat(pages[1..])
  }

  predicate Finished(pages: seq<Page>) {
    pages != [] && !pages[|pages| - 1].more
  }

  /** The keys shown on a page and on all later pages, in order if both parts are. */
  lemma PageThenRest(d: Dir, p: Page, rest: seq<Page>, cursor: Option<Key>)
    requires p.items != []
    requires Ordered(d, p.items) && Ordered(d, Flat(rest))
    requires forall k :: k in p.items ==> Beyond(d, cursor, k)
    requires forall k :: k in Flat(rest) ==> Before(d, Last(p), k)
    ensures Flat([p] + rest) == p.items + Flat(rest)
    ensures Ordered(d, Flat([p] + rest))
    ensures forall k :: k in Flat([p] + rest) ==> Beyond(d, cursor, k)
  {
    assert ([p] + rest)[1..] == rest;
    var tail := Flat(rest);
    assert forall j :: 0 <= j < |tail| ==> tail[j] in tail;
    var all := p.items + tail;
    assert Last(p) in p.items;
    forall i, j | 0 <= i < j < |all|
      ensures Before(d, all[i], all[j])
    {
      if i < |p.items| <= j {
        assert i < |p.items| - 1 ==> Before(d, p.items[i], p.items[|p.items| - 1]);
        assert Before(d, Last(p), tail[j - |p.items|]);
      }
    }
    forall k | k in tail
      ensures Beyond(d, cursor, k)
    {
      assert Before(d, Last(p), k);
    }
  }

  /** Whatever happens to the table between fetches, a walk lists keys in strict order. */
  lemma {:induction false} WalkIsOrdered(d: Dir, views: seq<set<Key>>, cursor: Option<Key>, limit: nat)
    requires limit >= 1
    ensures Ordered(d, Flat(Walk(d, views, cursor, limit)))
    ensures forall k :: k in Flat(Walk(d, views, cursor, limit)) ==> Beyond(d, cursor, k)
    decreases |views|
  {
    if views != [] {
      var p := Fetch(d, views[0], cursor, limit);
      FetchIsFair(d, views[0], cursor, limit);
      if p.more {
        WalkIsOrdered(d, views[1..], Some(Last(p)), limit);
        PageThenRest(d, p, Walk(d, views[1..], Some(Last(p)), limit), cursor);
      } else {
        assert Flat([p]) == p.items;
      }
    }
  }

  /** The fetch that decides whether `k` is shown: the first whose page reaches `k`. */
  function Decider(d: Dir, pages: seq<Page>, k: Key): (i: nat)
    requires pages != []
    requires forall p :: p in pages && p.more ==> p.items != []
    ensures i < |pages|
    ensures i < |pages| - 1 && pages[i].more ==> !Before(d, Last(pages[i]), k)
  {
    if |pages| == 1 || !pages[0].more || !Before(d, Last(pages[0]), k) then 0
    else 1 + Decider(d, pages[1..], k)
  }

  lemma DeciderStep(d: Dir, p: Page, rest: seq<Page>, k: Key)
    requires p.more && p.items != [] && rest != []
    requires forall r :: r in rest && r.more ==> r.items != []
    ensures Decider(d, [p] + rest, k) == if Before(d, Last(p), k) then 1 + Decider(d, rest, k) else 0
  {
    assert ([p] + rest)[1..] == rest;
  }

  lemma FirstPageDecides(d: Dir, s: set<Key>, cursor: Option<Key>, p: Page, later: seq<Key>, k: Key)
    requires Fair(d, s, cursor, p) && Beyond(d, cursor, k)
    requires p.more ==> forall l :: l in later ==> Before(d, Last(p), l)
    requires !p.more ==> later == []
    ensures p.more && Before(d, Last(p), k) ==> (k in p.items + later <==> k in later)
    ensures !p.more || !Before(d, Last(p), k) ==> (k in p.items + later <==> k in s)
  {
    if p.more && Before(d, Last(p), k) {
      NotBeforeItself(d, p, k);
    }
  }

  /** In a finished walk each key is shown exactly when it matched at the one fetch that decides it. */
  lemma {:induction false} WalkDecides(d: Dir, views: seq<set<Key>>, cursor: Option<Key>, limit: nat, k: Key)
    requires limit >= 1
    requires Finished(Walk(d, views, cursor, limit))
    requires Beyond(d, cursor, k)
    ensures var pages := Walk(d, views, cursor, limit);
            k in Flat(pages) <==> k in views[Decider(d, pages, k)]
    decreases |views|
  {
    var p := Fetch(d, views[0], cursor, limit);
    FetchIsFair(d, views[0], cursor, limit);
    if p.more {
      var rest := Walk(d, views[1..], Some(Last(p)), limit);
      WalkIsOrdered(d, views[1..], Some(Last(p)), limit);
      FinishedTail(p, rest);
      FirstPageDecides(d, views[0], cursor, p, Flat(rest), k);
      DeciderStep(d, p, rest, k);
      if Before(d, Last(p), k) {
        WalkDecides(d, views[1..], Some(Last(p)), limit, k);
      }
    } else {
      FirstPageDecides(d, views[0], cursor, p, [], k);
      assert Flat([p]) == p.items + [];
    }
  }

  lemma FinishedTail(p: Page, rest: seq<Page>)
    requires p.more
    requires Finished([p] + rest)
    ensures Finished(rest)
    ensures ([p] + rest)[1..] == rest
    ensures Flat([p] + rest) == p.items + Flat(rest)
  {
    assert ([p] + rest)[1..] == rest;
    var pages := [p] + rest;
    assert |rest| > 0 ==> pages[|pages| - 1] == rest[|rest| - 1];
  }

  lemma NotBeforeItself(d: Dir, p: Page, k: Key)
    requires Ordered(d, p.items) && p.items != []
    requires Before(d, Last(p), k)
    ensures k !in p.items
  {
    forall i | 0 <= i < |p.items|
      ensures p.items[i] != k
    {
      if i < |p.items| - 1 {
        assert Before(d, p.items[i], p.items[|p.items| - 1]);
      }
    }
  }

  /** A finished walk shows every key that matched at every fetch, and nothing that never matched. */
  lemma WalkIsComplete(d: Dir, views: seq<set<Key>>, cursor: Option<Key>, limit: nat)
    requires limit >= 1
    requires Finished(Walk(d, views, cursor, limit))
    ensures var pages := Walk(d, views, cursor, limit);
            && (forall k :: Beyond(d, cursor, k) && (forall i :: 0 <= i < |pages| ==> k in views[i]) ==> k in Flat(pages))
            && (forall k :: k in Flat(pages) ==> exists i :: 0 <= i < |pages| && k in views[i])
  {
    var pages := Walk(d, views, cursor, limit);
    WalkIsOrdered(d, views, cursor, limit);
    forall k | Beyond(d, cursor, k)
      ensures k in Flat(pages) <==> k in views[Decider(d, pages, k)]
    {
      WalkDecides(d, views, cursor, limit, k);
    }
  }

  /** Pages before the last one are full of keys of the table they were read from. */
  lemma {:induction false} EarlierPages(d: Dir, views: seq<set<Key>>, cursor: Option<Key>, limit: nat, i: nat)
    requires limit >= 1
    requires i < |Walk(d, views, cursor, limit)| - 1
    ensures Walk(d, views, cursor, limit)[i].more
    ensures Last(Walk(d, views, cursor, limit)[i]) in views[i]
    decreases i
  {
    var p := Fetch(d, views[0], cursor, limit);
    FetchIsFair(d, views[0], cursor, limit);
    if i == 0 {
      assert Last(p) in p.items;
    } else {
      EarlierPages(d, views[1..], Some(Last(p)), limit, i - 1);
    }
  }

  /** Keys are kept, and new keys are listed after all keys that were there. */
  ghost predicate OnlyBehind(d: Dir, a: set<Key>, b: set<Key>) {
    && a <= b
    && forall k, n :: k in a && n in b && n !in a ==> Before(d, k, n)
  }

  ghost predicate GrowsBehind(d: Dir, views: seq<set<Key>>) {
    forall i, j :: 0 <= i < j < |views| ==> OnlyBehind(d, views[i], views[j])
  }

  lemma ShownWhenGrowingBehind(d: Dir, views: seq<set<Key>>, limit: nat, pages: seq<Page>, k: Key)
    requires limit >= 1 && GrowsBehind(d, views)
    requires pages == Walk(d, views, None, limit) && Finished(pages)
    ensures k in Flat(pages) <==> k in views[|pages| - 1]
  {
    var i, last := Decider(d, pages, k), |pages| - 1;
    assert k in Flat(pages) <==> k in views[i] by {
      WalkDecides(d, views, None, limit, k);
    }
    if i < last {
      assert pages[i].more && Last(pages[i]) in views[i] by {
        EarlierPages(d, views, None, limit, i);
      }
      assert OnlyBehind(d, views[i], views[last]);
    }
  }

  lemma ShowsLastView(d: Dir, views: seq<set<Key>>, limit: nat, pages: seq<Page>)
    requires limit >= 1 && GrowsBehind(d, views)
    requires pages == Walk(d, views, None, limit) && Finished(pages)
    ensures SameKeys(Flat(pages), views[|pages| - 1])
  {
    forall k
      ensures k in Flat(pages) <==> k in views[|pages| - 1]
    {
      ShownWhenGrowingBehind(d, views, limit, pages, k);
    }
  }

  /** If keys are only ever added behind, a finished walk has shown the table of its last fetch, in order. */
  lemma WalkOfGrowingTable(d: Dir, views: seq<set<Key>>, limit: nat, pages: seq<Page>)
    requires limit >= 1 && GrowsBehind(d, views)
    requires pages == Walk(d, views, None, limit) && Finished(pages)
    ensures Flat(pages) == Sort(d, views[|pages| - 1])
  {
    ShowsLastView(d, views, limit, pages);
    WalkIsOrdered(d, views, None, limit);
    SortedListIsUnique(d, Flat(pages), views[|pages| - 1]);
  }

  /** Every key of `b` that is not in `a` is listed before all keys of `a`. */
  ghost predicate OnlyInFront(d: Dir, a: set<Key>, b: set<Key>) {
    forall k, n :: k in a && n in b && n !in a ==> !Before(d, k, n)
  }

  /** Between two fetches no key is stored behind a key that was already stored. */
  ghost predicate GrowsInFront(d: Dir, stored: seq<set<Key>>) {
    |stored| < 2 || (OnlyInFront(d, stored[0], stored[1]) && GrowsInFront(d, stored[1..]))
  }

  /**
   If stored rows only ever appear in front of stored rows, the walk ends: the number of stored
   rows still beyond the cursor goes down with every page.
   */
  lemma {:induction false} WalkEnds(d: Dir, views: seq<set<Key>>, stored: seq<set<Key>>, cursor: Option<Key>, limit: nat)
    requires limit >= 1
    requires |views| == |stored|
    requires forall i :: 0 <= i < |views| ==> views[i] <= stored[i]
    requires GrowsInFront(d, stored)
    requires |views| > 0 && |views| > |Remaining(d, stored[0], cursor)|
    ensures Finished(Walk(d, views, cursor, limit))
    decreases |views|
  {
    var p := Fetch(d, views[0], cursor, limit);
    FetchIsFair(d, views[0], cursor, limit);
    if p.more {
      assert Last(p) in p.items;
      MeasureDecreases(d, stored, cursor, Last(p));
      var rest := Walk(d, views[1..], Some(Last(p)), limit);
      WalkEnds(d, views[1..], stored[1..], Some(Last(p)), limit);
      assert Walk(d, views, cursor, limit) == [p] + rest;
    }
  }

  lemma MeasureDecreases(d: Dir, stored: seq<set<Key>>, cursor: Option<Key>, last: Key)
    requires |stored| > 0 && |stored| > |Remaining(d, stored[0], cursor)|
    requires last in stored[0] && Beyond(d, cursor, last)
    requires GrowsInFront(d, stored)
    ensures |stored| > 1
    ensures |Remaining(d, stored[1], Some(last))| < |Remaining(d, stored[0], cursor)|
  {
    var before := Remaining(d, stored[0], cursor);
    assert last in before;
    assert |before - {last}| == |before| - 1;
    var after := Remaining(d, stored[1], Some(last));
    assert after <= before - {last};
    SubsetIsNoLarger(after, before - {last});
  }

  /** Past the last key of a full page lies exactly the rest of the sorted list. */
  lemma RestAfterPage(d: Dir, s: set<Key>, cursor: Option<Key>, limit: nat, q: seq<Key>)
    requires limit >= 1
    requires q == Sort(d, Remaining(d, s, cursor))
    requires |q| > limit
    ensures Sort(d, Remaining(d, s, Some(q[limit - 1]))) == q[limit..]
  {
    SortSorts(d, Remaining(d, s, cursor));
    TailKeys(d, s, cursor, limit, q);
    SortedListIsUnique(d, q[limit..], Remaining(d, s, Some(q[limit - 1])));
  }

  lemma TailKeys(d: Dir, s: set<Key>, cursor: Option<Key>, limit: nat, q: seq<Key>)
    requires limit >= 1
    requires Ordered(d, q) && SameKeys(q, Remaining(d, s, cursor))
    requires |q| > limit
    ensures Ordered(d, q[limit..]) && SameKeys(q[limit..], Remaining(d, s, Some(q[limit - 1])))
  {
    var last := q[limit - 1];
    var rest := Remaining(d, s, Some(last));
    assert last in q;
    forall i | 0 <= i < limit
      ensures !Before(d, last, q[i])
    {
      if i < limit - 1 {
        assert Before(d, q[i], q[limit - 1]);
      }
    }
    forall k ensures k in q[limit..] <==> k in rest {
      if k in q[limit..] {
        var i :| limit <= i < |q| && q[i] == k;
        assert Before(d, q[limit - 1], q[i]);
        assert k in q;
      }
      if k in rest {
        assert k in q;
        var i :| 0 <= i < |q| && q[i] == k;
        assert i >= limit;
        assert q[limit..][i - limit] == k;
      }
    }
  }

  /** The table is at rest: every fetch sees the same keys. */
  ghost predicate AtRest(views: seq<set<Key>>, s: set<Key>) {
    forall i :: 0 <= i < |views| ==> views[i] == s
  }

  /** `p` shows the `limit` keys of `q` from `offset` on, and says whether more follow. */
  ghost predicate ShowsFrom(q: seq<Key>, p: Page, offset: nat, limit: nat) {
    && p.items == Slice(q, offset, limit)
    && (p.more <==> |q| > offset + limit)
  }

  ghost predicate IsWalk(d: Dir, views: seq<set<Key>>, cursor: Option<Key>, limit: nat, q: seq<Key>, s: set<Key>, pages: seq<Page>) {
    && limit >= 1
    && AtRest(views, s)
    && q == Sort(d, Remaining(d, s, cursor))
    && pages == Walk(d, views, cursor, limit)
  }

  lemma WalkStep(d: Dir, views: seq<set<Key>>, cursor: Option<Key>, limit: nat, q: seq<Key>, s: set<Key>, pages: seq<Page>)
      returns (next: Option<Key>)
    requires IsWalk(d, views, cursor, limit, q, s, pages)
    requires |pages| > 1
    ensures |q| >= limit && |views| > 0
    ensures IsWalk(d, views[1..], next, limit, q[limit..], s, pages[1..])
  {
    var p := Fetch(d, s, cursor, limit);
    FetchIsPrefix(d, s, cursor, limit);
    next := Some(Last(p));
    RestAfterPage(d, s, cursor, limit, q);
  }

  lemma FirstPageAtRest(d: Dir, views: seq<set<Key>>, cursor: Option<Key>, limit: nat, q: seq<Key>, s: set<Key>, pages: seq<Page>)
    requires IsWalk(d, views, cursor, limit, q, s, pages)
    requires |pages| > 0
    ensures ShowsFrom(q, pages[0], 0, limit)
  {
    FetchIsPrefix(d, s, cursor, limit);
  }

  /** `i` pages of `limit` rows. */
  function PagesOf(i: nat, limit: nat): nat {
    if i == 0 then 0 else limit + PagesOf(i - 1, limit)
  }

  lemma {:induction false} PagesOfIsProduct(i: nat, limit: nat)
    ensures PagesOf(i, limit) == i * limit
  {
    if i > 0 {
      PagesOfIsProduct(i - 1, limit);
      assert i * limit == limit + (i - 1) * limit;
    }
  }

  lemma ShowsFromTail(q: seq<Key>, p: Page, offset: nat, limit: nat)
    requires offset >= limit && |q| >= limit
    requires ShowsFrom(q[limit..], p, offset - limit, limit)
    ensures ShowsFrom(q, p, offset, limit)
  {
  }

  lemma {:induction false} PagesAtRest(d: Dir, views: seq<set<Key>>, cursor: Option<Key>, limit: nat, q: seq<Key>, s: set<Key>,
                                       pages: seq<Page>, i: nat)
    requires IsWalk(d, views, cursor, limit, q, s, pages)
    requires i < |pages|
    ensures ShowsFrom(q, pages[i], PagesOf(i, limit), limit)
    decreases i
  {
    if i == 0 {
      FirstPageAtRest(d, views, cursor, limit, q, s, pages);
    } else {
      var next := WalkStep(d, views, cursor, limit, q, s, pages);
      PagesAtRest(d, views[1..], next, limit, q[limit..], s, pages[1..], i - 1);
      ShowsFromTail(q, pages[i], PagesOf(i, limit), limit);
    }
  }

  lemma PageIsNumbered(q: seq<Key>, p: Page, i: nat, limit: nat)
    requires ShowsFrom(q, p, PagesOf(i, limit), limit)
    ensures p.items == OffsetPage(q, limit, i + 1)
    ensures p.more <==> |q| > (i + 1) * limit
  {
    PagesOfIsProduct(i, limit);
    PagesOfIsProduct(i + 1, limit);
  }

  /** On a table at rest, page `i` of the keyset walk is offset page `i`, and `more` tells whether rows remain. */
  lemma KeysetPageIsOffsetPage(d: Dir, s: set<Key>, views: seq<set<Key>>, limit: nat, i: nat)
    requires limit >= 1 && AtRest(views, s)
    requires i < |Walk(d, views, None, limit)|
    ensures var p := Walk(d, views, None, limit)[i];
            && p.items == OffsetPage(Sort(d, s), limit, i + 1)
            && (p.more <==> |s| > (i + 1) * limit)
  {
    assert Remaining(d, s, None) == s;
    PagesAtRest(d, views, None, limit, Sort(d, s), s, Walk(d, views, None, limit), i);
    PageIsNumbered(Sort(d, s), Walk(d, views, None, limit)[i], i, limit);
  }

  lemma {:induction false} AtRestGrowsInFront(d: Dir, s: set<Key>, views: seq<set<Key>>)
    requires AtRest(views, s)
    ensures GrowsInFront(d, views)
    decreases |views|
  {
    if |views| >= 2 {
      AtRestGrowsInFront(d, s, views[1..]);
    }
  }

  /** On a table at rest the walk ends having shown the whole table in order. */
  lemma WalkAtRest(d: Dir, s: set<Key>, views: seq<set<Key>>, limit: nat)
    requires limit >= 1 && AtRest(views, s)
    requires |views| > |s|
    ensures Finished(Walk(d, views, None, limit))
    ensures Flat(Walk(d, views, None, limit)) == Sort(d, s)
  {
    assert Remaining(d, s, None) == s;
    AtRestGrowsInFront(d, s, views);
    WalkEnds(d, views, views, None, limit);
    WalkIsOrdered(d, views, None, limit);
    WalkIsComplete(d, views, None, limit);
    SortedListIsUnique(d, Flat(Walk(d, views, None, limit)), s);
  }

  /** `math.ceil(total / page_size)`, and 0 for an empty result. */
  function TotalPages(total: nat, size: nat): nat
    requires size >= 1
  {
    (total + size - 1) / size
  }

  /** Page `page`, numbered from 1. */
  function OffsetPage<T>(q: seq<T>, size: nat, page: nat): seq<T>
    requires page >= 1
  {
    Slice(q, (page - 1) * size, size)
  }

  /** Offset pages `first`, `first + 1`, ..., `last` put end to end. */
  function OffsetPages<T>(q: seq<T>, size: nat, first: nat, last: nat): seq<T>
    requires first >= 1
    decreases last + 1 - first
  {
    if first > last then [] else OffsetPage(q, size, first) + OffsetPages(q, size, first + 1, last)
  }

  lemma PageCount(total: nat, size: nat)
    requires size >= 1
    ensures TotalPages(total, size) * size >= total
    ensures total > 0 ==> TotalPages(total, size) >= 1 && (TotalPages(total, size) - 1) * size < total
    ensures total == 0 ==> TotalPages(total, size) == 0
  {
    var pages := TotalPages(total, size);
    assert pages * size <= total + size - 1 < pages * size + size;
    assert (pages - 1) * size == pages * size - size;
  }

  lemma Multiples(a: nat, b: nat, size: nat)
    requires a <= b
    ensures a * size <= b * size
  {
  }

  lemma ShiftPage<T>(q: seq<T>, size: nat, page: nat)
    requires page >= 1 && |q| >= size
    ensures OffsetPage(q, size, page + 1) == OffsetPage(q[size..], size, page)
  {
    var offset := (page - 1) * size;
    assert page * size == offset + size;
    assert Slice(q, offset + size, size) == Slice(q[size..], offset, size);
  }

  lemma {:induction false} ShiftPages<T>(q: seq<T>, size: nat, first: nat, last: nat)
    requires first >= 1 && |q| >= size
    ensures OffsetPages(q, size, first + 1, last + 1) == OffsetPages(q[size..], size, first, last)
    decreases last + 1 - first
  {
    if first <= last {
      ShiftPage(q, size, first);
      ShiftPages(q, size, first + 1, last);
    }
  }

  lemma {:induction false} PagesTile<T>(q: seq<T>, size: nat, pages: nat)
    requires size >= 1
    requires |q| <= PagesOf(pages, size)
    requires pages > 0 ==> PagesOf(pages - 1, size) < |q|
    ensures OffsetPages(q, size, 1, pages) == q
    decreases pages
  {
    if pages == 1 {
      assert OffsetPages(q, size, 2, 1) == [];
    } else if pages > 1 {
      PagesTile(q[size..], size, pages - 1);
      ShiftPages(q, size, 1, pages - 1);
      assert OffsetPage(q, size, 1) == q[..size];
    }
  }

  lemma InnerPageIsFull<T>(q: seq<T>, size: nat, page: nat, pages: nat)
    requires 1 <= page < pages
    requires (pages - 1) * size < |q|
    ensures |OffsetPage(q, size, page)| == size
  {
    Multiples(page, pages - 1, size);
    assert page * size == (page - 1) * size + size;
  }

  /** Offset pages 1 to the reported page count are the whole list; only the last may be short, none is empty. */
  lemma OffsetPagesTile<T>(q: seq<T>, size: nat)
    requires size >= 1
    ensures OffsetPages(q, size, 1, TotalPages(|q|, size)) == q
    ensures forall page :: 1 <= page < TotalPages(|q|, size) ==> |OffsetPage(q, size, page)| == size
    ensures |q| > 0 ==> TotalPages(|q|, size) >= 1 && OffsetPage(q, size, TotalPages(|q|, size)) != []
  {
    var pages := TotalPages(|q|, size);
    PageCount(|q|, size);
    if |q| > 0 {
      PagesOfIsProduct(pages - 1, size);
      PagesOfIsProduct(pages, size);
      PagesTile(q, size, pages);
    }
    forall page | 1 <= page < pages
      ensures |OffsetPage(q, size, page)| == size
    {
      InnerPageIsFull(q, size, page, pages);
    }
  }
}
