/**
 Keyset listings of incidents and improvements: the cursor names the last row of the page
 before rows of foreign origin are dropped from it.  The store may change between pages.
 */
module KeysetWalk {
  import opened Prelude

  /** A row's place in the listing, newest first, ties broken by identifier. */
  datatype Key = Key(at: int, id: int)

  datatype Row = Row(key: Key, origin: string)

  predicate Before(a: Key, b: Key) {
    a.at > b.at || (a.at == b.at && a.id > b.id)
  }

  /** Strictly ordered, as a store ordered by (timestamp, identifier) is. */
  ghost predicate Ordered(rows: seq<Row>) {
    forall i, j :: 0 <= i < j < |rows| ==> Before(rows[i].key, rows[j].key)
  }

  /** The store's condition for a row to come after the cursor. */
  predicate Past(cursor: Option<Key>, k: Key) {
    cursor.Some? ==> k.at < cursor.value.at || (k.at == cursor.value.at && k.id < cursor.value.id)
  }

  /** The store's rows strictly after the cursor, in listing order. */
  function After(store: seq<Row>, cursor: Option<Key>): seq<Row> {
    if store == [] then []
    else (if Past(cursor, store[0].key) then [store[0]] else []) + After(store[1..], cursor)
  }

  datatype Page = Page(rows: seq<Row>, next: Option<Key>)

  function Permitted(page: seq<Row>, origins: set<string>): seq<Row> {
    if page == [] then []
    else (if page[0].origin in origins then [page[0]] else []) + Permitted(page[1..], origins)
  }

  /** One page: fetch one row more than the limit, cut, take the cursor, then filter. */
  function ListPage(store: seq<Row>, origins: set<string>, cursor: Option<Key>, limit: nat): Page
    requires limit >= 1
  {
    var rest := After(store, cursor);
    var fetched := rest[..Min(limit + 1, |rest|)];
    var page := fetched[..Min(limit, |fetched|)];
    Page(Permitted(page, origins), if |fetched| > limit then Some(page[|page| - 1].key) else None)
  }

  datatype WalkResult = WalkResult(rows: seq<Row>, finished: bool)

  /** Follow next cursors, reading a possibly different store for each page. */
  function Walk(stores: seq<seq<Row>>, origins: set<string>, cursor: Option<Key>, limit: nat): WalkResult
    requires limit >= 1
  {
    if stores == [] then WalkResult([], false)
    else
      var page := ListPage(stores[0], origins, cursor, limit);
      if page.next == None then WalkResult(page.rows, true)
      else
        var more := Walk(stores[1..], origins, page.next, limit);
        WalkResult(page.rows + more.rows, more.finished)
  }

  // ---------------------------------------------------------------- facts about one page

  lemma {:induction false} AfterMembers(store: seq<Row>, cursor: Option<Key>)
    requires Ordered(store)
    ensures Ordered(After(store, cursor))
    ensures forall r :: r in After(store, cursor) <==> r in store && Past(cursor, r.key)
  {
    if store != [] {
      OrderedTail(store);
      AfterMembers(store[1..], cursor);
      var head := if Past(cursor, store[0].key) then [store[0]] else [];
      OrderedAppend(head, After(store[1..], cursor));
    }
  }

  lemma OrderedTail(rows: seq<Row>)
    requires rows != [] && Ordered(rows)
    ensures Ordered(rows[1..])
    ensures forall r | r in rows[1..] :: Before(rows[0].key, r.key)
    ensures rows == [rows[0]] + rows[1..]
  {
  }

  lemma OrderedAppend(a: seq<Row>, b: seq<Row>)
    requires Ordered(a) && Ordered(b)
    requires forall r, q | r in a && q in b :: Before(r.key, q.key)
    ensures Ordered(a + b)
  {
    forall i, j | 0 <= i < j < |a + b| ensures Before((a + b)[i].key, (a + b)[j].key) {
      if i < |a| && j >= |a| {
        assert (a + b)[i] == a[i] && a[i] in a && (a + b)[j] == b[j - |a|] && b[j - |a|] in b;
      }
    }
  }

  lemma {:induction false} PermittedMembers(page: seq<Row>, origins: set<string>)
    requires Ordered(page)
    ensures Ordered(Permitted(page, origins))
    ensures forall r :: r in Permitted(page, origins) <==> r in page && r.origin in origins
  {
    if page != [] {
      OrderedTail(page);
      PermittedMembers(page[1..], origins);
      var head := if page[0].origin in origins then [page[0]] else [];
      OrderedAppend(head, Permitted(page[1..], origins));
    }
  }

  lemma {:induction false} PermittedAppend(xs: seq<Row>, ys: seq<Row>, origins: set<string>)
    ensures Permitted(xs + ys, origins) == Permitted(xs, origins) + Permitted(ys, origins)
  {
    if xs == [] {
      assert xs + ys == ys;
    } else {
      var head := if xs[0].origin in origins then [xs[0]] else [];
      assert (xs + ys)[1..] == xs[1..] + ys;
      PermittedAppend(xs[1..], ys, origins);
      assert head + (Permitted(xs[1..], origins) + Permitted(ys, origins))
          == (head + Permitted(xs[1..], origins)) + Permitted(ys, origins);
    }
  }

  /** What a page returns, and that its cursor separates it from what is left. */
  lemma PageFacts(store: seq<Row>, origins: set<string>, cursor: Option<Key>, limit: nat)
    requires limit >= 1 && Ordered(store)
    ensures var page := ListPage(store, origins, cursor, limit);
            && Ordered(page.rows)
            && (forall r | r in page.rows :: r in store && r.origin in origins && Past(cursor, r.key))
            && (page.next.Some? ==>
                  && Past(cursor, page.next.value)
                  && (forall r | r in page.rows :: !Before(page.next.value, r.key))
                  && (forall r | r in store && r.origin in origins && Past(cursor, r.key) ::
                        r in page.rows || Before(page.next.value, r.key)))
            && (page.next.None? ==>
                  forall r | r in store && r.origin in origins && Past(cursor, r.key) :: r in page.rows)
  {
    AfterMembers(store, cursor);
    var rest := After(store, cursor);
    var n := Min(limit, |rest|);
    assert rest[..Min(limit + 1, |rest|)][..n] == rest[..n];
    CutFacts(rest, n);
    PermittedMembers(rest[..n], origins);
    if |rest| <= limit {
      assert rest[..n] == rest;
    }
  }

  /** A non-empty cut of an ordered listing is separated from the rest by its last key. */
  lemma CutFacts(rest: seq<Row>, n: nat)
    requires Ordered(rest) && n <= |rest|
    ensures Ordered(rest[..n])
    ensures forall r | r in rest[..n] :: r in rest
    ensures n > 0 ==> rest[n - 1] in rest && rest[..n][n - 1] == rest[n - 1]
    ensures n > 0 ==> forall r | r in rest[..n] :: !Before(rest[n - 1].key, r.key)
    ensures n > 0 ==> forall r | r in rest :: r in rest[..n] || Before(rest[n - 1].key, r.key)
  {
    if n > 0 {
      forall r | r in rest[..n] ensures !Before(rest[n - 1].key, r.key) {
        var i :| 0 <= i < n && rest[..n][i] == r;
        assert rest[i] == r && (i < n - 1 ==> Before(rest[i].key, rest[n - 1].key));
      }
      forall r | r in rest ensures r in rest[..n] || Before(rest[n - 1].key, r.key) {
        var i :| 0 <= i < |rest| && rest[i] == r;
        if i < n {
          assert rest[..n][i] == r;
        }
      }
    }
  }

  // ---------------------------------------------------------------- whole walks

  /**
   The rows of a whole walk come in strictly decreasing listing order, past the first cursor,
   each permitted and taken from one of the stores read; so no row is ever repeated.
   */
  lemma {:induction false} WalkIsOrdered(stores: seq<seq<Row>>, origins: set<string>, cursor: Option<Key>, limit: nat)
    requires limit >= 1 && forall s | s in stores :: Ordered(s)
    ensures var w := Walk(stores, origins, cursor, limit);
            && Ordered(w.rows)
            && forall r | r in w.rows ::
                 r.origin in origins && Past(cursor, r.key) && exists s :: s in stores && r in s
  {
    if stores != [] {
      PageFacts(stores[0], origins, cursor, limit);
      var page := ListPage(stores[0], origins, cursor, limit);
      if page.next.Some? {
        WalkIsOrdered(stores[1..], origins, page.next, limit);
        var more := Walk(stores[1..], origins, page.next, limit);
        forall r, q | r in page.rows && q in more.rows ensures Before(r.key, q.key) {
          assert !Before(page.next.value, r.key) && Before(page.next.value, q.key);
        }
        OrderedAppend(page.rows, more.rows);
      }
    }
  }

  /**
   A permitted row that is in every store read, with an unchanged key, is returned by a walk
   that finishes, whatever else is inserted, removed or moved between pages.
   */
  lemma {:induction false} StableRowIsReturned(stores: seq<seq<Row>>, origins: set<string>, cursor: Option<Key>,
                                               limit: nat, r: Row)
    requires limit >= 1 && forall s | s in stores :: Ordered(s) && r in s
    requires r.origin in origins && Past(cursor, r.key)
    requires Walk(stores, origins, cursor, limit).finished
    ensures r in Walk(stores, origins, cursor, limit).rows
  {
    PageFacts(stores[0], origins, cursor, limit);
    var page := ListPage(stores[0], origins, cursor, limit);
    if page.next.Some? && r !in page.rows {
      StableRowIsReturned(stores[1..], origins, page.next, limit, r);
    }
  }

  /** Exactly one position of the finished walk holds a stable permitted row. */
  lemma StableRowReturnedOnce(stores: seq<seq<Row>>, origins: set<string>, limit: nat, r: Row)
    requires limit >= 1 && forall s | s in stores :: Ordered(s) && r in s
    requires r.origin in origins && Walk(stores, origins, None, limit).finished
    ensures var rows := Walk(stores, origins, None, limit).rows;
            exists i :: 0 <= i < |rows| && rows[i] == r && forall j :: 0 <= j < |rows| && rows[j] == r ==> j == i
  {
    var rows := Walk(stores, origins, None, limit).rows;
    StableRowIsReturned(stores, origins, None, limit, r);
    WalkIsOrdered(stores, origins, None, limit);
    var i :| 0 <= i < |rows| && rows[i] == r;
    forall j | 0 <= j < |rows| && rows[j] == r ensures j == i {
      OrderedDistinct(rows, i, j);
    }
  }

  lemma OrderedDistinct(rows: seq<Row>, i: nat, j: nat)
    requires Ordered(rows) && i < |rows| && j < |rows| && rows[i] == rows[j]
    ensures i == j
  {
    assert !Before(rows[i].key, rows[i].key);
  }

  lemma {:induction false} AfterAll(store: seq<Row>, cursor: Option<Key>)
    requires forall r | r in store :: Past(cursor, r.key)
    ensures After(store, cursor) == store
  {
    if store != [] {
      AfterAll(store[1..], cursor);
      assert store == [store[0]] + store[1..];
    }
  }

  lemma {:induction false} AfterRow(store: seq<Row>, p: nat)
    requires Ordered(store) && p < |store|
    ensures After(store, Some(store[p].key)) == store[p + 1..]
  {
    OrderedTail(store);
    if p == 0 {
      AfterAll(store[1..], Some(store[0].key));
    } else {
      assert store[1..][p - 1] == store[p];
      assert Before(store[0].key, store[p].key);
      AfterRow(store[1..], p - 1);
      assert store[1..][p..] == store[p + 1..];
    }
  }

  /** The rows after a cursor are a suffix of the listing. */
  lemma {:induction false} AfterIsSuffix(store: seq<Row>, cursor: Option<Key>) returns (m: nat)
    requires Ordered(store)
    ensures m <= |store| && After(store, cursor) == store[m..]
  {
    if store == [] {
      m := 0;
    } else {
      OrderedTail(store);
      if Past(cursor, store[0].key) {
        AfterAll(store, cursor);
        m := 0;
      } else {
        m := AfterIsSuffix(store[1..], cursor);
        m := m + 1;
      }
    }
  }

  /** On a store that does not change, moving the cursor to a row leaves the rows after it. */
  lemma AfterCut(store: seq<Row>, cursor: Option<Key>, n: nat)
    requires Ordered(store) && 0 < n <= |After(store, cursor)|
    ensures After(store, Some(After(store, cursor)[n - 1].key)) == After(store, cursor)[n..]
  {
    var m := AfterIsSuffix(store, cursor);
    AfterRow(store, m + n - 1);
  }

  /**
   On a store that does not change, a walk finishes within one page for each row left and
   returns every permitted row in order, although pages may come back empty.
   */
  lemma {:induction false} FixedStoreWalk(stores: seq<seq<Row>>, store: seq<Row>, origins: set<string>,
                                          cursor: Option<Key>, limit: nat)
    requires limit >= 1 && Ordered(store) && forall i :: 0 <= i < |stores| ==> stores[i] == store
    requires |stores| > |After(store, cursor)|
    ensures Walk(stores, origins, cursor, limit).finished
    ensures Walk(stores, origins, cursor, limit).rows == Permitted(After(store, cursor), origins)
  {
    var rest := After(store, cursor);
    FixedPage(store, origins, cursor, limit);
    if |rest| > limit {
      var next := Some(rest[limit - 1].key);
      AfterCut(store, cursor, limit);
      FixedStoreWalk(stores[1..], store, origins, next, limit);
      PermittedSplits(rest, limit, origins);
    }
  }

  lemma PermittedSplits(rest: seq<Row>, limit: nat, origins: set<string>)
    requires limit <= |rest|
    ensures Permitted(rest, origins) == Permitted(rest[..limit], origins) + Permitted(rest[limit..], origins)
  {
    assert rest == rest[..limit] + rest[limit..];
    PermittedAppend(rest[..limit], rest[limit..], origins);
  }

  lemma FixedPage(store: seq<Row>, origins: set<string>, cursor: Option<Key>, limit: nat)
    requires limit >= 1
    ensures var rest := After(store, cursor);
            ListPage(store, origins, cursor, limit)
              == if |rest| > limit then Page(Permitted(rest[..limit], origins), Some(rest[limit - 1].key))
                 else Page(Permitted(rest, origins), None)
  {
    var rest := After(store, cursor);
    if |rest| > limit {
      assert rest[..limit + 1][..limit] == rest[..limit];
    } else {
      assert rest[..|rest|] == rest;
    }
  }
}
