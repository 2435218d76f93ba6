/**
  Keyset pages: rows after a cursor in id order, one row more than the limit to see whether a page follows.
  The same lines serve transfers, inventory items, forecasts, purchase orders, suppliers, products and warehouses.
*/
module Paging {
  import opened Wrappers

  /** Ids are compared only; a cursor is the last id of the previous page. */
  type Key = nat

  datatype Page = Page(next: Option<Key>, hasMore: bool, totalCount: nat, data: seq<Key>)

  // ---- rows in id order ------------------------------------------------------------------------------

  ghost predicate Ascending(ids: seq<Key>) { forall i, j :: 0 <= i < j < |ids| ==> ids[i] < ids[j] }

  function Smallest(keys: set<Key>): (m: Key)
    requires keys != {}
    ensures m in keys && forall k :: k in keys ==> m <= k
  {
    assert exists m :: m in keys && forall k :: k in keys ==> m <= k by { var m := HasSmallest(keys); }
    var m :| m in keys && forall k :: k in keys ==> m <= k;
    m
  }

  lemma {:induction false} HasSmallest(keys: set<Key>) returns (m: Key)
    requires keys != {}
    ensures m in keys && forall k :: k in keys ==> m <= k
  {
    var k :| k in keys;
    m := k;
    if keys != {k} {
      var least := HasSmallest(keys - {k});
      if least < k { m := least; }
      assert forall q :: q in keys ==> q == k || q in keys - {k};
    }
  }

  /** ORDER BY id ASC. */
  function Sorted(keys: set<Key>): seq<Key> {
    if keys == {} then [] else [Smallest(keys)] + Sorted(keys - {Smallest(keys)})
  }

  lemma {:induction false} SortedFacts(keys: set<Key>)
    ensures Ascending(Sorted(keys)) && |Sorted(keys)| == |keys|
    ensures forall k :: k in Sorted(keys) <==> k in keys
  {
    if keys != {} {
      var m := Smallest(keys);
      var rest := Sorted(keys - {m});
      SortedFacts(keys - {m});
      JoinAscending([m], rest);
      assert Sorted(keys) == [m] + rest;
      assert forall k :: k in [m] + rest <==> k == m || k in rest;
    }
  }

  /** An ascending list is determined by its elements. */
  lemma {:induction false} AscendingUnique(a: seq<Key>, b: seq<Key>)
    requires Ascending(a) && Ascending(b) && (forall k :: k in a <==> k in b)
    ensures a == b
  {
    assert b != [] ==> b[0] in b;
    if a != [] {
      assert a[0] in b;
      assert b[0] in a;
      forall k ensures k in a[1..] <==> k in b[1..] {
        if k in a[1..] { assert k in b && k > a[0]; }
        if k in b[1..] { assert k in a && k > b[0]; }
      }
      AscendingUnique(a[1..], b[1..]);
    }
  }

  // ---- one page --------------------------------------------------------------------------------------

  /** The ids a page selects from; `keys` are the ids whose rows pass the filters when the page is read. */
  function After(keys: set<Key>, cursor: Option<Key>): set<Key> {
    set k | k in keys && (cursor.Some? ==> k > cursor.value)
  }

  function Cut<T>(rows: seq<T>, n: nat): seq<T> { if |rows| > n then rows[..n] else rows }

  function PageOf(keys: set<Key>, cursor: Option<Key>, limit: nat): Page {
    var rows := Cut(Sorted(After(keys, cursor)), limit + 1);
    var hasMore := |rows| > limit;
    var data := Cut(rows, limit);
    var next := if hasMore && data != [] then Some(data[|data| - 1]) else None;
    Page(next, hasMore, |After(keys, cursor)|, data)
  }

  /** A page is the first `limit` ids after the cursor; `hasMore` says whether any are left. */
  lemma {:induction false} PageMeaning(keys: set<Key>, cursor: Option<Key>, limit: nat)
    ensures var page, left := PageOf(keys, cursor, limit), After(keys, cursor);
            && (page.hasMore <==> |left| > limit)
            && page.data == Cut(Sorted(left), limit)
            && page.totalCount == |left|
            && page.next == (if |left| > limit >= 1 then Some(Sorted(left)[limit - 1]) else None)
  {
    SortedFacts(After(keys, cursor));
  }

  /** A cut of an ascending list: the ids left out are those beyond the last one kept. */
  lemma {:induction false} TailIsAfter(ids: seq<Key>, n: nat)
    requires Ascending(ids) && 1 <= n <= |ids|
    ensures forall k :: k in ids[n..] <==> k in ids && k > ids[n - 1]
    ensures Ascending(ids[n..])
  {
  }

  /** What lies beyond the n-th id after the cursor is the rest of the list. */
  lemma {:induction false} BeyondIsTail(keys: set<Key>, cursor: Option<Key>, left: seq<Key>, n: nat)
    requires Ascending(left) && (forall k :: k in left <==> k in After(keys, cursor))
    requires 1 <= n <= |left|
    ensures forall k :: k in After(keys, Some(left[n - 1])) <==> k in left[n..]
  {
    TailIsAfter(left, n);
    assert left[n - 1] in left;
    var last := left[n - 1];
    assert forall k :: k in After(keys, Some(last)) <==> k in keys && k > last;
    assert cursor.Some? ==> last > cursor.value;
  }

  /** The next page selects from what this page did not list. */
  lemma {:induction false} NextSelectsTheRest(keys: set<Key>, cursor: Option<Key>, n: nat)
    requires 1 <= n <= |After(keys, cursor)|
    ensures |Sorted(After(keys, cursor))| == |After(keys, cursor)|
    ensures var left := Sorted(After(keys, cursor)); var rest := After(keys, Some(left[n - 1]));
            left == left[..n] + Sorted(rest) && |rest| == |left| - n
  {
    SortedFacts(After(keys, cursor));
    var left := Sorted(After(keys, cursor));
    BeyondIsTail(keys, cursor, left, n);
    TailIsAfter(left, n);
    SortedIs(After(keys, Some(left[n - 1])), left[n..]);
  }

  /** Whatever lists a set's elements in ascending order is its sorted list. */
  lemma {:induction false} SortedIs(keys: set<Key>, ids: seq<Key>)
    requires Ascending(ids) && (forall k :: k in keys <==> k in ids)
    ensures Sorted(keys) == ids && |keys| == |ids|
  {
    SortedFacts(keys);
    AscendingUnique(Sorted(keys), ids);
  }

  // ---- the walk over a table that stands still -------------------------------------------------------

  /** All pages from a cursor on, each fetched with the `next_cursor` of the one before. */
  function Walk(keys: set<Key>, cursor: Option<Key>, limit: nat): seq<Page>
    decreases |After(keys, cursor)|
  {
    PageMeaning(keys, cursor, limit);
    var page := PageOf(keys, cursor, limit);
    if page.next.None? then [page]
    else
      NextSelectsTheRest(keys, cursor, limit);
      [page] + Walk(keys, page.next, limit)
  }

  function Listed(pages: seq<Page>): seq<Key> {
    if pages == [] then [] else pages[0].data + Listed(pages[1..])
  }

  lemma ListedOne(page: Page, rest: seq<Page>)
    ensures Listed([page] + rest) == page.data + Listed(rest)
  {
    assert ([page] + rest)[1..] == rest;
  }

  /** A walk lists every matching row once, in id order. */
  lemma {:induction false} WalkListsAll(keys: set<Key>, cursor: Option<Key>, limit: nat)
    requires limit >= 1
    ensures Listed(Walk(keys, cursor, limit)) == Sorted(After(keys, cursor))
    decreases |After(keys, cursor)|
  {
    var page := PageOf(keys, cursor, limit);
    PageMeaning(keys, cursor, limit);
    SortedFacts(After(keys, cursor));
    if page.next.Some? {
      NextSelectsTheRest(keys, cursor, limit);
      WalkListsAll(keys, page.next, limit);
      ListedOne(page, Walk(keys, page.next, limit));
    } else {
      ListedOne(page, []);
      assert [page] + [] == [page];
    }
  }

  /** It takes as few pages as the limit allows, and one when nothing matches. */
  lemma {:induction false} WalkIsShort(keys: set<Key>, cursor: Option<Key>, limit: nat)
    requires limit >= 1
    ensures var pages, n := |Walk(keys, cursor, limit)|, |After(keys, cursor)|;
            (pages - 1) * limit < (if n == 0 then 1 else n) <= pages * limit
    decreases |After(keys, cursor)|
  {
    PageMeaning(keys, cursor, limit);
    if |After(keys, cursor)| > limit {
      NextSelectsTheRest(keys, cursor, limit);
      var next := PageOf(keys, cursor, limit).next;
      WalkIsShort(keys, next, limit);
      OneMorePage(|Walk(keys, next, limit)|, |After(keys, cursor)|, limit);
      assert |Walk(keys, cursor, limit)| == |Walk(keys, next, limit)| + 1;
    } else {
      assert |Walk(keys, cursor, limit)| == 1;
    }
  }

  lemma OneMorePage(pages: nat, n: nat, limit: nat)
    requires limit < n && (pages - 1) * limit < n - limit <= pages * limit
    ensures (pages + 1 - 1) * limit < n <= (pages + 1) * limit
  {
    assert pages * limit == (pages - 1) * limit + limit && (pages + 1) * limit == pages * limit + limit;
  }

  /** With a limit of 0 the walk stops after one empty page, so it is complete only when nothing matches. */
  lemma {:induction false} WalkIsCompleteIff(keys: set<Key>, limit: nat)
    ensures Listed(Walk(keys, None, limit)) == Sorted(keys) <==> limit >= 1 || keys == {}
  {
    assert After(keys, None) == keys;
    if limit >= 1 {
      WalkListsAll(keys, None, limit);
    } else {
      var page := PageOf(keys, None, limit);
      PageMeaning(keys, None, limit);
      SortedFacts(keys);
      ListedOne(page, []);
      assert [page] + [] == [page] && Walk(keys, None, limit) == [page];
    }
  }

  /** `total_count` counts from the page's cursor on: what the rest of the walk lists, not the whole table. */
  lemma {:induction false} TotalCountsTheRest(keys: set<Key>, cursor: Option<Key>, limit: nat)
    requires limit >= 1
    ensures PageOf(keys, cursor, limit).totalCount == |Listed(Walk(keys, cursor, limit))|
    ensures PageOf(keys, cursor, limit).totalCount == |keys|
            <==> forall k :: k in keys && cursor.Some? ==> k > cursor.value
  {
    WalkListsAll(keys, cursor, limit);
    var left := After(keys, cursor);
    SortedFacts(left);
    if |left| == |keys| { SameSize(left, keys); }
    assert left == keys <==> forall k :: k in keys ==> k in left;
  }

  /** The second of two rows is counted alone. */
  lemma {:induction false} TotalIsNotTheWhole()
    ensures PageOf({1, 2}, Some(1), 1).totalCount == 1 && |({1, 2})| == 2
  {
    assert After({1, 2}, Some(1)) == {2};
  }

  lemma SameSize(part: set<Key>, whole: set<Key>)
    requires part <= whole && |part| == |whole|
    ensures part == whole
  {
    assert whole == part + (whole - part);
  }

  // ---- the walk over a table that changes between pages ----------------------------------------------

  /** The pages a client gets when page i finds the rows `tables[i]`; it may run out of tables first. */
  function Trail(tables: seq<set<Key>>, cursor: Option<Key>, limit: nat): (pages: seq<Page>)
    ensures |pages| <= |tables|
  {
    if tables == [] then []
    else
      var page := PageOf(tables[0], cursor, limit);
      if page.next.None? then [page] else [page] + Trail(tables[1..], page.next, limit)
  }

  /** The client reached a page without a next cursor. */
  predicate Ended(pages: seq<Page>) { pages != [] && pages[|pages| - 1].next.None? }

  /** What one page says, in the form both lemmas below need. */
  lemma {:induction false} PageFacts(keys: set<Key>, cursor: Option<Key>, limit: nat)
    ensures var page := PageOf(keys, cursor, limit);
            && Ascending(page.data)
            && (forall k :: k in page.data ==> k in keys && (cursor.Some? ==> k > cursor.value))
            && (page.next.Some? ==> page.data != [] && page.next.value == page.data[|page.data| - 1])
            && (limit >= 1 ==> forall k :: k in After(keys, cursor) && k !in page.data ==>
                                 page.next.Some? && k > page.next.value)
  {
    PageMeaning(keys, cursor, limit);
    SortedFacts(After(keys, cursor));
    CutFacts(Sorted(After(keys, cursor)), limit);
    assert PageOf(keys, cursor, limit).data == Cut(Sorted(After(keys, cursor)), limit);
  }

  lemma {:induction false} CutFacts(ids: seq<Key>, n: nat)
    requires Ascending(ids)
    ensures Ascending(Cut(ids, n))
    ensures forall k :: k in Cut(ids, n) ==> k in ids
    ensures |ids| > n >= 1 ==> Cut(ids, n)[n - 1] == ids[n - 1]
    ensures forall k :: k in ids && k !in Cut(ids, n) ==> n >= 1 ==> |ids| > n && k > ids[n - 1]
  {
    if 1 <= n < |ids| {
      TailIsAfter(ids, n);
      assert ids == ids[..n] + ids[n..];
    }
  }

  /** Whatever changed in between, no id is listed twice and ids keep rising. */
  lemma {:induction false} TrailNeverRepeats(tables: seq<set<Key>>, cursor: Option<Key>, limit: nat)
    ensures Ascending(Listed(Trail(tables, cursor, limit)))
    ensures forall k :: k in Listed(Trail(tables, cursor, limit)) ==> cursor.Some? ==> k > cursor.value
  {
    if tables != [] {
      var page := PageOf(tables[0], cursor, limit);
      PageFacts(tables[0], cursor, limit);
      var rest := if page.next.None? then [] else Trail(tables[1..], page.next, limit);
      ListedOne(page, rest);
      if page.next.Some? {
        TrailNeverRepeats(tables[1..], page.next, limit);
        JoinAscending(page.data, Listed(rest));
      } else {
        assert [page] + rest == [page];
      }
    }
  }

  /** Every id listed was there, and passed the filters, when its page was read. */
  lemma {:induction false} TrailListsWhatWasThere(tables: seq<set<Key>>, cursor: Option<Key>, limit: nat, i: nat)
    requires i < |Trail(tables, cursor, limit)|
    ensures forall k :: k in Trail(tables, cursor, limit)[i].data ==> k in tables[i]
  {
    var page := PageOf(tables[0], cursor, limit);
    PageFacts(tables[0], cursor, limit);
    if i > 0 {
      TrailListsWhatWasThere(tables[1..], page.next, limit, i - 1);
    }
  }

  lemma {:induction false} JoinAscending(a: seq<Key>, b: seq<Key>)
    requires Ascending(a) && Ascending(b) && a != []
    requires forall k :: k in b ==> k > a[|a| - 1]
    ensures Ascending(a + b)
    ensures forall k :: k in a + b ==> k >= a[0]
  {
    forall i, j | 0 <= i < j < |a + b| ensures (a + b)[i] < (a + b)[j] {
      if i < |a| <= j { assert b[j - |a|] in b; }
    }
  }

  /** A row that matches in every table the client reads is listed once the walk has ended. */
  lemma {:induction false} TrailMissesNothing(tables: seq<set<Key>>, cursor: Option<Key>, limit: nat, k: Key)
    requires limit >= 1 && Ended(Trail(tables, cursor, limit))
    requires cursor.Some? ==> k > cursor.value
    requires forall i :: 0 <= i < |Trail(tables, cursor, limit)| ==> k in tables[i]
    ensures k in Listed(Trail(tables, cursor, limit))
  {
    var page, pages := PageOf(tables[0], cursor, limit), Trail(tables, cursor, limit);
    PageFacts(tables[0], cursor, limit);
    assert pages[0] == page && k in After(tables[0], cursor);
    var rest := if page.next.None? then [] else Trail(tables[1..], page.next, limit);
    assert pages == [page] + rest;
    ListedOne(page, rest);
    if k !in page.data {
      LastOfRest(page, rest);
      TrailMissesNothing(tables[1..], page.next, limit, k);
    }
  }

  lemma LastOfRest(page: Page, rest: seq<Page>)
    requires page.next.Some? && Ended([page] + rest)
    ensures Ended(rest)
  {
  }

  /** On a table that stands still the trail is the walk, as far as it goes. */
  lemma {:induction false} StillTrailIsWalk(tables: seq<set<Key>>, cursor: Option<Key>, limit: nat)
    requires tables != [] && (forall i :: 0 <= i < |tables| ==> tables[i] == tables[0])
    ensures Trail(tables, cursor, limit) == Cut(Walk(tables[0], cursor, limit), |tables|)
  {
    var page, walk := PageOf(tables[0], cursor, limit), Walk(tables[0], cursor, limit);
    if page.next.Some? {
      var rest := Walk(tables[0], page.next, limit);
      assert walk == [page] + rest;
      if |tables| == 1 {
        assert tables[1..] == [];
      } else {
        StillTrailIsWalk(tables[1..], page.next, limit);
      }
    }
  }
}
