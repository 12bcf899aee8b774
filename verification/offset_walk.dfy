/**
 Offset-cursor listings: a bounded fetch, an optional filter applied after the fetch, and
 a cursor that carries the next offset.  Whole walks are described, not single pages.
 */
module OffsetWalk {
  import opened Prelude

  const FETCH_CAP: nat := 1_001
  const MAX_OFFSET: nat := 1_000
  const MAX_SERVICE_OFFSET: nat := 100_000

  datatype CursorError = InvalidCursor

  datatype Page<T> = Page(rows: seq<T>, next: Option<int>)

  /** A missing cursor is offset 0; anything outside 0..maximum is refused. */
  function DecodeOffset(cursor: Option<int>, maximum: nat): Result<nat, CursorError> {
    match cursor
    case None => Ok(0)
    case Some(offset) => if offset < 0 || offset > maximum then Err(InvalidCursor) else Ok(offset)
  }

  /** `Array.prototype.slice` for non-negative bounds. */
  function Slice<T>(items: seq<T>, from: nat, to: nat): seq<T> {
    var hi := Min(to, |items|);
    if from >= hi then [] else items[from..hi]
  }

  function Paginate<T>(items: seq<T>, offset: nat, limit: nat): Page<T> {
    Page(Slice(items, offset, offset + limit),
         if |items| > offset + limit then Some(offset + limit) else None)
  }

  /** How many rows the store returns for one page request. */
  function Window<T>(rows: seq<T>, offset: nat, limit: nat): nat {
    Min(|rows|, Min(offset + limit + 1, FETCH_CAP))
  }

  function ListPage<T>(rows: seq<T>, keep: T -> bool, offset: nat, limit: nat): Page<T> {
    Paginate(Filter(keep, rows[..Window(rows, offset, limit)]), offset, limit)
  }

  function Remaining(cursor: Option<int>, maximum: nat): nat {
    match cursor
    case None => maximum + 1
    case Some(c) => Max(0, maximum + 1 - c)
  }

  /** Follow next cursors until there is none or one is refused. */
  function Walk<T>(rows: seq<T>, keep: T -> bool, cursor: Option<int>, limit: nat)
    : Result<seq<seq<T>>, CursorError>
    requires limit >= 1
    decreases Remaining(cursor, MAX_OFFSET)
  {
    match DecodeOffset(cursor, MAX_OFFSET)
    case Err(e) => Err(e)
    case Ok(offset) =>
      var page := ListPage(rows, keep, offset, limit);
      if page.next == None then Ok([page.rows])
      else
        match Walk(rows, keep, page.next, limit)
        case Err(e) => Err(e)
        case Ok(pages) => Ok([page.rows] + pages)
  }

  // ---------------------------------------------------------------- how far a walk reaches

  function Reachable<T>(rows: seq<T>): nat {
    Min(|rows|, FETCH_CAP)
  }

  /** Index of the first row the filter drops among those a walk can reach, or their number. */
  function FirstDrop<T>(rows: seq<T>, keep: T -> bool): (d: nat)
    ensures d <= Reachable(rows)
    ensures forall i :: 0 <= i < d ==> keep(rows[i])
    ensures d < Reachable(rows) ==> !keep(rows[d])
  {
    FirstDropFrom(rows, keep, 0)
  }

  function FirstDropFrom<T>(rows: seq<T>, keep: T -> bool, from: nat): (d: nat)
    requires from <= Reachable(rows)
    ensures from <= d <= Reachable(rows)
    ensures forall i :: from <= i < d ==> keep(rows[i])
    ensures d < Reachable(rows) ==> !keep(rows[d])
    decreases Reachable(rows) - from
  {
    if from == Reachable(rows) || !keep(rows[from]) then from else FirstDropFrom(rows, keep, from + 1)
  }

  /** Number of pages until the fetch window holds row `d`. */
  function PagesTo(d: nat, limit: nat): nat
    requires limit >= 1
  {
    if d == 0 then 1 else (d - 1) / limit + 1
  }

  /**
   The rows a walk looks at: all reachable ones when none is dropped, and otherwise those
   of the first fetch window that holds a dropped row.
   */
  function Reach<T>(rows: seq<T>, keep: T -> bool, limit: nat): nat
    requires limit >= 1
  {
    var d := FirstDrop(rows, keep);
    if d == Reachable(rows) then d else Min(Reachable(rows), PagesTo(d, limit) * limit + 1)
  }

  // ---------------------------------------------------------------- the walk theorem

  lemma {:induction false} FilterFull<T>(keep: T -> bool, xs: seq<T>)
    ensures |Filter(keep, xs)| == |xs| <==> forall i :: 0 <= i < |xs| ==> keep(xs[i])
    ensures |Filter(keep, xs)| == |xs| ==> Filter(keep, xs) == xs
  {
    if xs != [] {
      FilterFull(keep, xs[1..]);
      assert xs == [xs[0]] + xs[1..];
      if forall i :: 0 <= i < |xs| ==> keep(xs[i]) {
        forall i | 0 <= i < |xs[1..]| ensures keep(xs[1..][i]) {
          assert xs[1..][i] == xs[i + 1];
        }
      }
    }
  }

  lemma KeptPrefix<T>(rows: seq<T>, keep: T -> bool, n: nat, w: nat)
    requires n <= w <= |rows| && forall i :: 0 <= i < n ==> keep(rows[i])
    ensures Filter(keep, rows[..w]) == rows[..n] + Filter(keep, rows[n..w])
  {
    assert rows[..w] == rows[..n] + rows[n..w];
    FilterAppend(keep, rows[..n], rows[n..w]);
    FilterFull(keep, rows[..n]);
  }

  lemma MulMono(a: int, b: int, limit: nat)
    ensures a <= b ==> a * limit <= b * limit
    ensures (a + 1) * limit == a * limit + limit
  {
    if a <= b {
      assert b * limit - a * limit == (b - a) * limit;
    }
  }

  lemma PagesToBounds(d: nat, limit: nat, k: nat)
    requires limit >= 1
    requires k == 0 || d > k * limit
    ensures d <= (k + 1) * limit ==> PagesTo(d, limit) == k + 1
    ensures d > (k + 1) * limit ==> PagesTo(d, limit) > k + 1
  {
    if d > 0 {
      var q := (d - 1) / limit;
      Quotient(d - 1, limit);
      MulMono(q, q, limit);
      if q < k {
        MulMono(q + 1, k, limit);
      } else if q > k {
        MulMono(k + 1, q, limit);
      }
      MulMono(k, k, limit);
    }
  }

  lemma Quotient(n: nat, limit: nat)
    requires limit >= 1
    ensures n / limit * limit <= n < n / limit * limit + limit
  {
    assert n == n / limit * limit + n % limit;
  }

  /** At a page boundary everything before the offset was kept; then one of two things happens. */
  lemma PageAt<T>(rows: seq<T>, keep: T -> bool, limit: nat, offset: nat, d: nat)
    requires limit >= 1 && d == FirstDrop(rows, keep)
    requires offset == 0 || offset < d
    ensures var page, w := ListPage(rows, keep, offset, limit), Window(rows, offset, limit);
            && (page.next == None <==> d <= offset + limit)
            && (page.next != None ==>
                  page.next == Some(offset + limit) && offset + limit <= MAX_OFFSET
                  && page.rows == rows[offset..offset + limit])
            && (page.next == None ==> page.rows == Filter(keep, rows[offset..w]))
            && offset <= w
  {
    if d <= offset + limit {
      LastPageAt(rows, keep, limit, offset, d);
    } else {
      FullPageAt(rows, keep, limit, offset, d);
    }
  }

  lemma LastPageAt<T>(rows: seq<T>, keep: T -> bool, limit: nat, offset: nat, d: nat)
    requires limit >= 1 && d == FirstDrop(rows, keep) && d <= offset + limit
    requires offset == 0 || offset < d
    ensures var w := Window(rows, offset, limit);
            offset <= w && ListPage(rows, keep, offset, limit) == Page(Filter(keep, rows[offset..w]), None)
  {
    var w := Window(rows, offset, limit);
    var f := Filter(keep, rows[..w]);
    KeptPrefix(rows, keep, Min(d, w), w);
    if d < w {
      assert rows[d..w][0] == rows[d] && !keep(rows[d]);
      FilterFull(keep, rows[d..w]);
    }
    assert |f| <= offset + limit;
    KeptPrefix(rows, keep, offset, w);
    assert f[offset..] == Filter(keep, rows[offset..w]);
  }

  lemma FullPageAt<T>(rows: seq<T>, keep: T -> bool, limit: nat, offset: nat, d: nat)
    requires limit >= 1 && d == FirstDrop(rows, keep) && d > offset + limit
    ensures offset + limit <= MAX_OFFSET && offset <= Window(rows, offset, limit)
    ensures ListPage(rows, keep, offset, limit) == Page(rows[offset..offset + limit], Some(offset + limit))
  {
    var w := Window(rows, offset, limit);
    KeptPrefix(rows, keep, w, w);
    assert rows[w..w] == [];
    assert Filter(keep, rows[..w]) == rows[..w];
  }

  lemma {:induction false} WalkFrom<T>(rows: seq<T>, keep: T -> bool, limit: nat, k: nat, offset: nat,
                                       cursor: Option<int>)
    requires limit >= 1 && offset == k * limit
    requires cursor == (if offset == 0 then None else Some(offset))
    requires offset == 0 || offset < FirstDrop(rows, keep)
    ensures Walk(rows, keep, cursor, limit).Ok?
    ensures offset <= Reach(rows, keep, limit) <= |rows|
    ensures Concat(Walk(rows, keep, cursor, limit).value) == Filter(keep, rows[offset..Reach(rows, keep, limit)])
    decreases FirstDrop(rows, keep) - offset
  {
    PageAt(rows, keep, limit, offset, FirstDrop(rows, keep));
    var page := ListPage(rows, keep, offset, limit);
    if page.next == None {
      LastPageReach(rows, keep, limit, k, offset);
      ConcatOne(page.rows);
    } else {
      MulMono(k, k, limit);
      WalkFrom(rows, keep, limit, k + 1, offset + limit, page.next);
      ConcatMore(page.rows, Walk(rows, keep, page.next, limit).value);
      FullPage(rows, keep, offset, limit, Reach(rows, keep, limit));
    }
  }

  /** The last page of a walk ends where the walk's reach ends. */
  lemma LastPageReach<T>(rows: seq<T>, keep: T -> bool, limit: nat, k: nat, offset: nat)
    requires limit >= 1 && offset == k * limit && FirstDrop(rows, keep) <= offset + limit
    requires offset == 0 || offset < FirstDrop(rows, keep)
    ensures Reach(rows, keep, limit) == Window(rows, offset, limit)
  {
    MulMono(k, k, limit);
    if offset == 0 && k > 0 {
      MulMono(1, k, limit);
    }
    PagesToBounds(FirstDrop(rows, keep), limit, k);
  }

  lemma ConcatOne<T>(page: seq<T>)
    ensures Concat([page]) == page
  {
    assert [page][1..] == [];
  }

  lemma ConcatMore<T>(page: seq<T>, pages: seq<seq<T>>)
    ensures Concat([page] + pages) == page + Concat(pages)
  {
    assert ([page] + pages)[1..] == pages;
  }

  lemma FullPage<T>(rows: seq<T>, keep: T -> bool, offset: nat, limit: nat, reach: nat)
    requires offset + limit <= reach <= |rows| && offset + limit <= FirstDrop(rows, keep)
    ensures Filter(keep, rows[offset..reach])
         == rows[offset..offset + limit] + Filter(keep, rows[offset + limit..reach])
  {
    var page := rows[offset..offset + limit];
    assert rows[offset..reach] == page + rows[offset + limit..reach];
    FilterAppend(keep, page, rows[offset + limit..reach]);
    FilterFull(keep, page);
  }

  /**
   A walk from the start never has a cursor refused, ends, and returns in order exactly the
   kept rows among those it reaches.
   */
  lemma WalkReturnsReach<T>(rows: seq<T>, keep: T -> bool, limit: nat)
    requires limit >= 1
    ensures Walk(rows, keep, None, limit).Ok?
    ensures Reach(rows, keep, limit) <= |rows|
    ensures Concat(Walk(rows, keep, None, limit).value) == Filter(keep, rows[..Reach(rows, keep, limit)])
  {
    WalkFrom(rows, keep, limit, 0, 0, None);
    assert 0 * limit == 0;
    assert rows[0..Reach(rows, keep, limit)] == rows[..Reach(rows, keep, limit)];
  }

  /**
   Completeness of a filtered walk: it returns every kept row among the first 1001 exactly
   when no kept row lies beyond the fetch window in which the first row is dropped.
   */
  lemma WalkCompleteIff<T>(rows: seq<T>, keep: T -> bool, limit: nat)
    requires limit >= 1
    ensures Walk(rows, keep, None, limit).Ok?
    ensures Concat(Walk(rows, keep, None, limit).value) == Filter(keep, rows[..Reachable(rows)]) <==>
              forall i :: Reach(rows, keep, limit) <= i < Reachable(rows) ==> !keep(rows[i])
  {
    WalkReturnsReach(rows, keep, limit);
    var r, n := Reach(rows, keep, limit), Reachable(rows);
    RestDropped(rows, keep, r, n);
  }

  /** Cutting a filtered prefix short loses nothing exactly when nothing behind the cut is kept. */
  lemma RestDropped<T>(rows: seq<T>, keep: T -> bool, r: nat, n: nat)
    requires r <= n <= |rows|
    ensures Filter(keep, rows[..r]) == Filter(keep, rows[..n]) <==> forall i :: r <= i < n ==> !keep(rows[i])
  {
    assert rows[..n] == rows[..r] + rows[r..n];
    FilterAppend(keep, rows[..r], rows[r..n]);
    NoneKeptIn(rows, keep, r, n);
  }

  lemma NoneKeptIn<T>(rows: seq<T>, keep: T -> bool, r: nat, n: nat)
    requires r <= n <= |rows|
    ensures Filter(keep, rows[r..n]) == [] <==> forall i :: r <= i < n ==> !keep(rows[i])
  {
    var part := rows[r..n];
    NoneKept(keep, part);
    forall i | r <= i < n ensures rows[i] == part[i - r] {
    }
    forall j | 0 <= j < |part| ensures part[j] == rows[r + j] {
    }
  }

  lemma {:induction false} NoneKept<T>(keep: T -> bool, xs: seq<T>)
    ensures Filter(keep, xs) == [] <==> forall i :: 0 <= i < |xs| ==> !keep(xs[i])
  {
    if xs != [] {
      NoneKept(keep, xs[1..]);
      forall i | 1 <= i < |xs| ensures xs[i] == xs[1..][i - 1] {
      }
      assert forall i :: 0 <= i < |xs| - 1 ==> xs[1..][i] == xs[i + 1];
    }
  }

  /** A filter that keeps a prefix of the order, such as a time cutoff, loses nothing. */
  lemma PrefixFilterIsComplete<T>(rows: seq<T>, keep: T -> bool, limit: nat)
    requires limit >= 1
    requires forall i, j :: 0 <= i < j < |rows| && keep(rows[j]) ==> keep(rows[i])
    ensures Walk(rows, keep, None, limit).Ok?
    ensures Concat(Walk(rows, keep, None, limit).value) == Filter(keep, rows[..Reachable(rows)])
  {
    WalkCompleteIff(rows, keep, limit);
    var d := FirstDrop(rows, keep);
    if d < Reachable(rows) {
      PagesToReaches(d, limit);
      forall i | Reach(rows, keep, limit) <= i < Reachable(rows) ensures !keep(rows[i]) {
        assert d < i && !keep(rows[d]);
      }
    }
  }

  lemma PagesToReaches(d: nat, limit: nat)
    requires limit >= 1
    ensures PagesTo(d, limit) * limit >= d
  {
    if d > 0 {
      var q, r := (d - 1) / limit, (d - 1) % limit;
      assert d - 1 == q * limit + r && 0 <= r < limit;
      assert (q + 1) * limit == q * limit + limit;
    }
  }

  /** Whatever the rows and the filter, a walk is refused exactly when its first cursor is out of range. */
  lemma {:induction false} WalkRefusesIff<T>(rows: seq<T>, keep: T -> bool, cursor: int, limit: nat)
    requires limit >= 1
    ensures Walk(rows, keep, Some(cursor), limit).Err? <==> cursor < 0 || cursor > 1_000
    decreases Max(0, 1_001 - cursor)
  {
    if 0 <= cursor <= 1_000 && ListPage(rows, keep, cursor, limit).next != None {
      WalkRefusesIff(rows, keep, cursor + limit, limit);
    }
  }

  /** Without a filter a walk returns exactly the first 1001 rows, for every limit. */
  lemma UnfilteredWalk<T>(rows: seq<T>, limit: nat)
    requires limit >= 1
    ensures Walk(rows, (r: T) => true, None, limit).Ok?
    ensures Concat(Walk(rows, (r: T) => true, None, limit).value) == rows[..Min(|rows|, 1_001)]
  {
    var all := (r: T) => true;
    PrefixFilterIsComplete(rows, all, limit);
    FilterFull(all, rows[..Reachable(rows)]);
  }

  /** One dropped row near the start hides kept rows after the first window. */
  lemma DroppedRowHidesLater()
    ensures Walk([false, true, true], (r: bool) => r, None, 1).Ok?
    ensures Concat(Walk([false, true, true], (r: bool) => r, None, 1).value) == [true]
    ensures Filter((r: bool) => r, [false, true, true]) == [true, true]
  {
    var rows, keep := [false, true, true], (r: bool) => r;
    WalkReturnsReach(rows, keep, 1);
    assert FirstDrop(rows, keep) == 0;
    assert rows[..2] == [false, true];
    assert [false, true][1..] == [true] && [true][1..] == [];
    assert rows[1..] == [true, true] && [true, true][1..] == [true];
  }

  // ---------------------------------------------------------------- services: offset in the store

  /** The store applies the offset, so each fetch starts at the page. */
  function ServicePage<T>(rows: seq<T>, offset: nat, limit: nat): Page<T> {
    var services := Slice(rows, offset, offset + limit + 1);
    Page(Paginate(services, 0, limit).rows,
         if |services| > limit then Some(offset + limit) else None)
  }

  function ServiceWalk<T>(rows: seq<T>, cursor: Option<int>, limit: nat)
    : Result<seq<seq<T>>, CursorError>
    requires limit >= 1
    decreases Remaining(cursor, MAX_SERVICE_OFFSET)
  {
    match DecodeOffset(cursor, MAX_SERVICE_OFFSET)
    case Err(e) => Err(e)
    case Ok(offset) =>
      var page := ServicePage(rows, offset, limit);
      if page.next == None then Ok([page.rows])
      else
        match ServiceWalk(rows, page.next, limit)
        case Err(e) => Err(e)
        case Ok(pages) => Ok([page.rows] + pages)
  }

  /** The first multiple of the limit that the decoder refuses. */
  function FirstRefused(limit: nat): nat
    requires limit >= 1
  {
    (MAX_SERVICE_OFFSET / limit + 1) * limit
  }

  /** The same, found by walking from an accepted offset. */
  function RefusedFrom(offset: nat, limit: nat): nat
    requires limit >= 1
    decreases Max(0, MAX_SERVICE_OFFSET + 1 - offset)
  {
    if offset > MAX_SERVICE_OFFSET then offset else RefusedFrom(offset + limit, limit)
  }

  lemma {:induction false} RefusedFromMultiple(limit: nat, q: nat, k: nat)
    requires limit >= 1 && k <= q + 1 && q * limit <= MAX_SERVICE_OFFSET < q * limit + limit
    ensures RefusedFrom(k * limit, limit) == (q + 1) * limit
    decreases q + 1 - k
  {
    MulMono(q, q, limit);
    if k <= q {
      MulMono(k, q, limit);
      RefusedFromMultiple(limit, q, k + 1);
    }
  }

  lemma RefusedFromZero(limit: nat)
    requires limit >= 1
    ensures RefusedFrom(0, limit) == FirstRefused(limit)
  {
    Quotient(MAX_SERVICE_OFFSET, limit);
    assert 0 * limit == 0;
    RefusedFromMultiple(limit, MAX_SERVICE_OFFSET / limit, 0);
  }

  lemma {:induction false} RefusedLater(offset: nat, limit: nat)
    requires limit >= 1
    ensures RefusedFrom(offset, limit) >= offset && RefusedFrom(offset, limit) > MAX_SERVICE_OFFSET
    decreases Max(0, MAX_SERVICE_OFFSET + 1 - offset)
  {
    if offset <= MAX_SERVICE_OFFSET {
      RefusedLater(offset + limit, limit);
    }
  }

  ghost predicate ServiceOutcome<T>(rows: seq<T>, limit: nat, offset: nat, cursor: Option<int>)
    requires limit >= 1 && offset <= |rows|
  {
    match ServiceWalk(rows, cursor, limit)
    case Ok(pages) => |rows| <= RefusedFrom(offset, limit) && Concat(pages) == rows[offset..]
    case Err(_) => |rows| > RefusedFrom(offset, limit)
  }

  lemma {:induction false} ServiceWalkFrom<T>(rows: seq<T>, limit: nat, offset: nat, cursor: Option<int>)
    requires limit >= 1 && offset <= MAX_SERVICE_OFFSET && offset <= |rows|
    requires cursor == (if offset == 0 then None else Some(offset))
    ensures ServiceOutcome(rows, limit, offset, cursor)
    decreases MAX_SERVICE_OFFSET - offset
  {
    ServiceStep(rows, cursor, limit, offset);
    var next := offset + limit;
    if |rows| <= next {
      RefusedLater(next, limit);
      ConcatOne(rows[offset..]);
    } else if next <= MAX_SERVICE_OFFSET {
      ServiceWalkFrom(rows, limit, next, Some(next));
      var rest := ServiceWalk(rows, Some(next), limit);
      if rest.Ok? {
        JoinRest(rows, offset, next, rest.value);
      }
    }
  }

  lemma JoinRest<T>(rows: seq<T>, offset: nat, next: nat, pages: seq<seq<T>>)
    requires offset <= next <= |rows| && Concat(pages) == rows[next..]
    ensures Concat([rows[offset..next]] + pages) == rows[offset..]
  {
    ConcatMore(rows[offset..next], pages);
    assert rows[offset..] == rows[offset..next] + rows[next..];
  }

  lemma ServiceStep<T>(rows: seq<T>, cursor: Option<int>, limit: nat, offset: nat)
    requires limit >= 1 && offset <= |rows| && DecodeOffset(cursor, MAX_SERVICE_OFFSET) == Ok(offset)
    ensures |rows| <= offset + limit ==> ServiceWalk(rows, cursor, limit) == Ok([rows[offset..]])
    ensures |rows| > offset + limit ==>
              var rest := ServiceWalk(rows, Some(offset + limit), limit);
              ServiceWalk(rows, cursor, limit)
                == if rest.Ok? then Ok([rows[offset..offset + limit]] + rest.value) else rest
  {
    ServicePageAt(rows, offset, limit);
  }

  lemma ServicePageAt<T>(rows: seq<T>, offset: nat, limit: nat)
    requires limit >= 1 && offset <= |rows|
    ensures ServicePage(rows, offset, limit)
         == if |rows| <= offset + limit then Page(rows[offset..], None)
            else Page(rows[offset..offset + limit], Some(offset + limit))
  {
    var services := Slice(rows, offset, offset + limit + 1);
    if |rows| <= offset + limit {
      assert services == rows[offset..];
      assert Slice(services, 0, limit) == services;
    } else {
      assert services == rows[offset..offset + limit + 1];
      assert Slice(services, 0, limit) == rows[offset..offset + limit];
    }
  }

  lemma ServiceWalkUpTo<T>(rows: seq<T>, limit: nat, bound: nat)
    requires limit >= 1 && bound == RefusedFrom(0, limit)
    ensures match ServiceWalk(rows, None, limit)
            case Ok(pages) => |rows| <= bound && Concat(pages) == rows
            case Err(e) => |rows| > bound && e == InvalidCursor
  {
    ServiceWalkFrom(rows, limit, 0, None);
    assert rows[0..] == rows;
  }

  lemma ServicesCursorRefused<T>(rows: seq<T>, cursor: int, limit: nat)
    requires limit >= 1
    ensures cursor < 0 || cursor > 100_000 ==> ServiceWalk(rows, Some(cursor), limit) == Err(InvalidCursor)
    ensures 0 <= cursor <= 100_000 && |rows| <= cursor + limit ==> ServiceWalk(rows, Some(cursor), limit).Ok?
  {
  }

  /**
   A services walk returns every row exactly when the listing ends before the first offset
   the decoder refuses; otherwise it stops with an invalid-cursor error on a cursor the
   server issued itself.
   */
  lemma ServiceWalkIff<T>(rows: seq<T>, limit: nat)
    requires limit >= 1
    ensures ServiceWalk(rows, None, limit).Ok? <==> |rows| <= (100_000 / limit + 1) * limit
    ensures ServiceWalk(rows, None, limit).Err? ==> ServiceWalk(rows, None, limit) == Err(InvalidCursor)
    ensures ServiceWalk(rows, None, limit).Ok? ==> Concat(ServiceWalk(rows, None, limit).value) == rows
  {
    ServiceWalkUpTo(rows, limit, RefusedFrom(0, limit));
    RefusedFromZero(limit);
  }

  /** With a limit of one, a project with 100002 services cannot be walked to its end. */
  lemma ServiceWalkRefusesOwnCursor<T>(rows: seq<T>)
    requires |rows| == 100_002
    ensures ServiceWalk(rows, None, 1) == Err(InvalidCursor)
  {
    ServiceWalkIff(rows, 1);
  }

  // ---------------------------------------------------------------- the mock's pages

  function CeilDiv(n: nat, limit: nat): nat
    requires limit >= 1
  {
    (n + limit - 1) / limit
  }

  function TotalPages(n: nat, limit: nat): nat
    requires limit >= 1
  {
    Max(1, CeilDiv(n, limit))
  }

  /** The mock's listing has no bound on the cursor. */
  function MockWalk<T>(items: seq<T>, cursor: nat, limit: nat): seq<seq<T>>
    requires limit >= 1
    decreases Max(0, |items| - cursor)
  {
    var page := Paginate(items, cursor, limit);
    if page.next == None then [page.rows] else [page.rows] + MockWalk(items, cursor + limit, limit)
  }

  lemma DivUnique(n: nat, limit: nat, q: nat, r: nat)
    requires limit >= 1 && n == q * limit + r && r < limit
    ensures n / limit == q
  {
    var p, s := n / limit, n % limit;
    assert n == p * limit + s && 0 <= s < limit;
    MulMono(p + 1, q, limit);
    MulMono(q + 1, p, limit);
    MulMono(p, q, limit);
    MulMono(q, p, limit);
  }

  lemma CeilDivStep(n: nat, limit: nat)
    requires limit >= 1
    ensures n <= limit ==> TotalPages(n, limit) == 1
    ensures n > limit ==> TotalPages(n, limit) == 1 + TotalPages(n - limit, limit)
  {
    if n == 0 {
      DivUnique(limit - 1, limit, 0, limit - 1);
    } else if n <= limit {
      DivUnique(n + limit - 1, limit, 1, n - 1);
    } else {
      var m := n - limit + limit - 1;
      var q, r := m / limit, m % limit;
      assert m == q * limit + r && 0 <= r < limit;
      MulMono(q, 0, limit);
      DivUnique(n + limit - 1, limit, q + 1, r);
    }
  }

  lemma {:induction false} MockWalkFrom<T>(items: seq<T>, cursor: nat, limit: nat)
    requires limit >= 1 && cursor <= |items|
    ensures Concat(MockWalk(items, cursor, limit)) == items[cursor..]
    ensures |MockWalk(items, cursor, limit)| == TotalPages(|items| - cursor, limit)
    decreases |items| - cursor
  {
    CeilDivStep(|items| - cursor, limit);
    var page := Paginate(items, cursor, limit);
    if page.next == None {
      assert page.rows == items[cursor..];
      assert [page.rows][1..] == [];
      assert Concat([page.rows]) == page.rows;
    } else {
      MockWalkFrom(items, cursor + limit, limit);
      var rest := MockWalk(items, cursor + limit, limit);
      assert ([page.rows] + rest)[1..] == rest;
      assert items[cursor..] == items[cursor..cursor + limit] + items[cursor + limit..];
    }
  }

  /** The mock announces as many pages as its own walk visits, and the walk misses nothing. */
  lemma MockWalkVisitsTotalPages<T>(items: seq<T>, limit: nat)
    requires limit >= 1
    ensures |MockWalk(items, 0, limit)| == TotalPages(|items|, limit)
    ensures Concat(MockWalk(items, 0, limit)) == items
  {
    MockWalkFrom(items, 0, limit);
  }
}
