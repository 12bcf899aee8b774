/**
 The in-process admission gate: a bounded number of running requests, a bounded queue of
 waiting ones, and a hand-over loop run by every release.
 */
module AdmissionGate {
  import opened Prelude

  const MAX_WAITING: nat := 32
  const MAX_WAITING_PER_GRANT: nat := 8

  datatype Limits = Limits(concurrency: int, perGrant: int)

  datatype Waiter = Waiter(id: nat, grant: string)

  /**
   `live` holds the releases handed out and not yet called; `grants` is the running count
   for each grant, kept separately as the source keeps it.
   */
  datatype State = State(active: int, grants: map<string, int>, waiting: seq<Waiter>,
                         live: map<nat, string>, closed: bool, next: nat)

  function Running(s: State, grant: string): int {
    if grant in s.grants then s.grants[grant] else 0
  }

  predicate Available(s: State, lim: Limits, grant: string) {
    s.active < lim.concurrency && Running(s, grant) < lim.perGrant
  }

  function Reserve(s: State, id: nat, grant: string): State {
    s.(active := s.active + 1,
       grants := s.grants[grant := Running(s, grant) + 1],
       live := s.live[id := grant])
  }

  /** Index of the first waiter whose grant has room, or -1. */
  function FirstAvailable(s: State, lim: Limits, from: nat): (i: int)
    requires from <= |s.waiting|
    ensures i == -1 || (from <= i < |s.waiting| && Available(s, lim, s.waiting[i].grant))
    ensures forall j :: from <= j < (if i == -1 then |s.waiting| else i) ==>
              !Available(s, lim, s.waiting[j].grant)
    decreases |s.waiting| - from
  {
    if from == |s.waiting| then -1
    else if Available(s, lim, s.waiting[from].grant) then from
    else FirstAvailable(s, lim, from + 1)
  }

  function Drop(ws: seq<Waiter>, i: nat): seq<Waiter>
    requires i < |ws|
  {
    ws[..i] + ws[i + 1..]
  }

  function Admit(s: State, i: nat): State
    requires i < |s.waiting|
  {
    Reserve(s.(waiting := Drop(s.waiting, i)), s.waiting[i].id, s.waiting[i].grant)
  }

  /** The hand-over loop: admit first available waiters until none is left. */
  function HandOver(s: State, lim: Limits): State
    decreases |s.waiting|
  {
    var i := FirstAvailable(s, lim, 0);
    if s.closed || i == -1 then s else HandOver(Admit(s, i), lim)
  }

  function Freed(s: State, id: nat): State
    requires id in s.live
  {
    var grant := s.live[id];
    var remaining := (if grant in s.grants then s.grants[grant] else 1) - 1;
    s.(active := s.active - 1,
       grants := if remaining == 0 then s.grants - {grant} else s.grants[grant := remaining],
       live := s.live - {id})
  }

  /** A release acts once; calling it again does nothing. */
  function Release(s: State, lim: Limits, id: nat): State {
    if id in s.live then HandOver(Freed(s, id), lim) else s
  }

  datatype Acquired = Refused | Granted(id: nat) | Queued(id: nat)

  function WaitingFor(ws: seq<Waiter>, grant: string): nat {
    if ws == [] then 0 else (if ws[0].grant == grant then 1 else 0) + WaitingFor(ws[1..], grant)
  }

  function Acquire(s: State, lim: Limits, grant: string, aborted: bool): (State, Acquired) {
    if s.closed || aborted || lim.concurrency <= 0 || lim.perGrant <= 0 then (s, Refused)
    else if Available(s, lim, grant) then (Reserve(s, s.next, grant).(next := s.next + 1), Granted(s.next))
    else if |s.waiting| >= MAX_WAITING || WaitingFor(s.waiting, grant) >= MAX_WAITING_PER_GRANT then (s, Refused)
    else (s.(waiting := s.waiting + [Waiter(s.next, grant)], next := s.next + 1), Queued(s.next))
  }

  function Position(ws: seq<Waiter>, id: nat): (i: int)
    ensures i == -1 || (0 <= i < |ws| && ws[i].id == id)
    ensures i == -1 ==> forall j :: 0 <= j < |ws| ==> ws[j].id != id
  {
    if ws == [] then -1
    else if ws[0].id == id then 0
    else
      var i := Position(ws[1..], id);
      if i == -1 then -1 else i + 1
  }

  /** Timeout or abort of a waiter; a waiter already resolved is left alone. */
  function Cancel(s: State, id: nat): State {
    var i := Position(s.waiting, id);
    if i == -1 then s else s.(waiting := Drop(s.waiting, i))
  }

  function Close(s: State): State {
    s.(closed := true, waiting := [])
  }

  // ---------------------------------------------------------------- invariant

  function Holders(live: map<nat, string>, grant: string): set<nat> {
    set id | id in live && live[id] == grant
  }

  /** Counters agree with the releases outstanding, and stay inside both limits. */
  ghost predicate Counted(s: State, lim: Limits) {
    && s.active == |s.live|
    && s.active <= Max(0, lim.concurrency)
    && (forall g :: Running(s, g) == |Holders(s.live, g)| && Running(s, g) <= Max(0, lim.perGrant))
    && (forall g | g in s.grants :: s.grants[g] > 0)
  }

  /** Identifiers are used once, the queue is bounded and stands in order of arrival. */
  ghost predicate Queues(s: State) {
    && (forall id | id in s.live :: id < s.next)
    && (forall i | 0 <= i < |s.waiting| :: s.waiting[i].id < s.next && s.waiting[i].id !in s.live)
    && (forall i, j | 0 <= i < j < |s.waiting| :: s.waiting[i].id < s.waiting[j].id)
    && |s.waiting| <= MAX_WAITING
    && (forall g :: WaitingFor(s.waiting, g) <= MAX_WAITING_PER_GRANT)
    && (s.closed ==> s.waiting == [])
  }

  /** No request waits while it could run. */
  ghost predicate NoneStranded(s: State, lim: Limits) {
    forall i | 0 <= i < |s.waiting| :: !Available(s, lim, s.waiting[i].grant)
  }

  ghost predicate Valid(s: State, lim: Limits) {
    Counted(s, lim) && Queues(s) && NoneStranded(s, lim)
  }

  lemma ReserveCounted(s: State, lim: Limits, id: nat, grant: string)
    requires Counted(s, lim) && id !in s.live && Available(s, lim, grant)
    ensures Counted(Reserve(s, id, grant), lim)
  {
    var r := Reserve(s, id, grant);
    assert r.live.Keys == s.live.Keys + {id};
    assert |r.live| == |r.live.Keys| && |s.live| == |s.live.Keys|;
    forall g ensures Running(r, g) == |Holders(r.live, g)| && Running(r, g) <= Max(0, lim.perGrant) {
      assert Running(s, g) == |Holders(s.live, g)|;
      HoldersAdd(s.live, id, grant, g);
    }
  }

  lemma HoldersAdd(live: map<nat, string>, id: nat, grant: string, g: string)
    requires id !in live
    ensures |Holders(live[id := grant], g)| == |Holders(live, g)| + if g == grant then 1 else 0
  {
    var more := if g == grant then {id} else {};
    assert Holders(live[id := grant], g) == Holders(live, g) + more;
    DisjointCard(Holders(live, g), more);
  }

  lemma FreedCounted(s: State, lim: Limits, id: nat)
    requires Counted(s, lim) && id in s.live
    ensures Counted(Freed(s, id), lim)
    ensures forall g :: Running(Freed(s, id), g) == Running(s, g) - if g == s.live[id] then 1 else 0
  {
    var f, grant := Freed(s, id), s.live[id];
    assert Running(s, grant) == |Holders(s.live, grant)| && id in Holders(s.live, grant);
    assert s.live.Keys == f.live.Keys + {id};
    assert |f.live| == |f.live.Keys| && |s.live| == |s.live.Keys|;
    forall g
      ensures Running(f, g) == |Holders(f.live, g)|
      ensures Running(f, g) == Running(s, g) - if g == grant then 1 else 0
    {
      HoldersWithout(s.live, id, g);
      assert Running(s, g) == |Holders(s.live, g)|;
    }
  }

  lemma HoldersWithout(live: map<nat, string>, id: nat, g: string)
    requires id in live
    ensures Holders(live - {id}, g) == Holders(live, g) - {id}
    ensures |Holders(live - {id}, g)| == |Holders(live, g)| - if live[id] == g then 1 else 0
  {
    assert Holders(live - {id}, g) == Holders(live, g) - {id};
  }

  lemma {:induction false} WaitingForAppend(a: seq<Waiter>, b: seq<Waiter>, g: string)
    ensures WaitingFor(a + b, g) == WaitingFor(a, g) + WaitingFor(b, g)
  {
    if a == [] {
      assert a + b == b;
    } else {
      assert (a + b)[1..] == a[1..] + b;
      WaitingForAppend(a[1..], b, g);
    }
  }

  lemma DropQueues(s: State, i: nat)
    requires Queues(s) && i < |s.waiting|
    ensures Queues(s.(waiting := Drop(s.waiting, i)))
    ensures forall j | 0 <= j < |s.waiting| - 1 :: Drop(s.waiting, i)[j].id != s.waiting[i].id
  {
    var d := Drop(s.waiting, i);
    forall j | 0 <= j < |d| ensures d[j] == s.waiting[if j < i then j else j + 1] {
    }
    forall g ensures WaitingFor(d, g) <= MAX_WAITING_PER_GRANT {
      assert s.waiting == s.waiting[..i] + s.waiting[i..];
      assert s.waiting[i..] == [s.waiting[i]] + s.waiting[i + 1..];
      WaitingForAppend(s.waiting[..i], s.waiting[i..], g);
      WaitingForAppend([s.waiting[i]], s.waiting[i + 1..], g);
      WaitingForAppend(s.waiting[..i], s.waiting[i + 1..], g);
      assert WaitingFor(s.waiting, g) <= MAX_WAITING_PER_GRANT;
    }
  }

  lemma AdmitKeeps(s: State, lim: Limits, i: nat)
    requires Counted(s, lim) && Queues(s) && i < |s.waiting|
    requires Available(s, lim, s.waiting[i].grant)
    ensures Counted(Admit(s, i), lim) && Queues(Admit(s, i))
  {
    DropQueues(s, i);
    var d := s.(waiting := Drop(s.waiting, i));
    assert Counted(d, lim) by {
      assert forall g :: Running(d, g) == Running(s, g);
    }
    ReserveCounted(d, lim, s.waiting[i].id, s.waiting[i].grant);
  }

  lemma {:induction false} HandOverKeeps(s: State, lim: Limits)
    requires Counted(s, lim) && Queues(s)
    ensures Valid(HandOver(s, lim), lim)
    ensures HandOver(s, lim).closed == s.closed && HandOver(s, lim).next == s.next
    decreases |s.waiting|
  {
    var i := FirstAvailable(s, lim, 0);
    if !s.closed && i != -1 {
      AdmitKeeps(s, lim, i);
      HandOverKeeps(Admit(s, i), lim);
    }
  }

  lemma ReleaseKeepsValid(s: State, lim: Limits, id: nat)
    requires Valid(s, lim)
    ensures Valid(Release(s, lim, id), lim)
  {
    if id in s.live {
      FreedCounted(s, lim, id);
      HandOverKeeps(Freed(s, id), lim);
    }
  }

  /** Releasing twice is releasing once: an identifier is never handed out again. */
  lemma ReleaseIsIdempotent(s: State, lim: Limits, id: nat)
    requires Valid(s, lim) && id < s.next
    requires forall i | 0 <= i < |s.waiting| :: s.waiting[i].id != id
    ensures Release(Release(s, lim, id), lim, id) == Release(s, lim, id)
  {
    if id in s.live {
      FreedCounted(s, lim, id);
      HandOverNeverRevives(Freed(s, id), lim, id);
    }
  }

  lemma {:induction false} HandOverNeverRevives(s: State, lim: Limits, id: nat)
    requires id !in s.live && forall i | 0 <= i < |s.waiting| :: s.waiting[i].id != id
    ensures id !in HandOver(s, lim).live
    decreases |s.waiting|
  {
    var i := FirstAvailable(s, lim, 0);
    if !s.closed && i != -1 {
      var d := Drop(s.waiting, i);
      forall j | 0 <= j < |d| ensures d[j].id != id {
        assert d[j] == s.waiting[if j < i then j else j + 1];
      }
      HandOverNeverRevives(Admit(s, i), lim, id);
    }
  }

  /**
   One release hands over at most one slot: to the first waiter, in queue order, whose grant
   has room once the slot is free.
   */
  lemma ReleaseAdmitsOne(s: State, lim: Limits, id: nat)
    requires Valid(s, lim) && id in s.live && !s.closed
    ensures var i := FirstAvailable(Freed(s, id), lim, 0);
            Release(s, lim, id) == if i == -1 then Freed(s, id) else Admit(Freed(s, id), i)
  {
    var f := Freed(s, id);
    FreedCounted(s, lim, id);
    var i := FirstAvailable(f, lim, 0);
    if i != -1 {
      var a := Admit(f, i);
      var g, h := s.live[id], s.waiting[i].grant;
      assert !Available(s, lim, h);
      forall j | 0 <= j < |a.waiting| ensures !Available(a, lim, a.waiting[j].grant) {
        var w := a.waiting[j];
        assert w == s.waiting[if j < i then j else j + 1];
        assert !Available(s, lim, w.grant);
        assert Running(a, w.grant) == Running(f, w.grant) + if w.grant == h then 1 else 0;
        assert Running(f, w.grant) == Running(s, w.grant) - if w.grant == g then 1 else 0;
        assert Running(f, h) == Running(s, h) - if h == g then 1 else 0;
      }
      assert FirstAvailable(a, lim, 0) == -1;
      assert HandOver(a, lim) == a;
    }
  }

  lemma AcquireKeepsValid(s: State, lim: Limits, grant: string, aborted: bool)
    requires Valid(s, lim)
    ensures Valid(Acquire(s, lim, grant, aborted).0, lim)
  {
    var (s', r) := Acquire(s, lim, grant, aborted);
    match r
    case Refused =>
    case Granted(id) =>
      ReserveCounted(s, lim, s.next, grant);
      assert forall g :: Running(s', g) >= Running(s, g);
      assert Counted(s', lim) by {
        assert forall g :: Running(s', g) == Running(Reserve(s, s.next, grant), g);
      }
    case Queued(id) =>
      forall g ensures WaitingFor(s'.waiting, g) <= MAX_WAITING_PER_GRANT {
        WaitingForAppend(s.waiting, [Waiter(s.next, grant)], g);
        assert [Waiter(s.next, grant)][1..] == [];
        assert WaitingFor(s.waiting, g) <= MAX_WAITING_PER_GRANT;
      }
      assert forall g :: Running(s', g) == Running(s, g);
  }

  lemma CancelKeepsValid(s: State, lim: Limits, id: nat)
    requires Valid(s, lim)
    ensures Valid(Cancel(s, id), lim)
    ensures forall w | w in Cancel(s, id).waiting :: w.id != id
  {
    var i := Position(s.waiting, id);
    var c := Cancel(s, id);
    assert forall g :: Running(c, g) == Running(s, g);
    if i != -1 {
      DropQueues(s, i);
      forall j | 0 <= j < |c.waiting| ensures !Available(c, lim, c.waiting[j].grant) {
        assert c.waiting[j] == s.waiting[if j < i then j else j + 1];
      }
    }
  }

  function WaitersFor(ws: seq<Waiter>, grant: string): seq<Waiter> {
    Filter((w: Waiter) => w.grant == grant, ws)
  }

  function OtherWaiters(ws: seq<Waiter>, id: nat): seq<Waiter> {
    Filter((w: Waiter) => w.id != id, ws)
  }

  lemma {:induction false} DropIsOthers(ws: seq<Waiter>, i: nat)
    requires i < |ws| && forall j | 0 <= j < |ws| && j != i :: ws[j].id != ws[i].id
    ensures Drop(ws, i) == OtherWaiters(ws, ws[i].id)
  {
    if i == 0 {
      assert Drop(ws, 0) == ws[1..];
      forall w | w in ws[1..] ensures w.id != ws[0].id {
        var j :| 0 <= j < |ws| - 1 && ws[1..][j] == w;
        assert ws[j + 1] == w;
      }
      FilterFixed((w: Waiter) => w.id != ws[0].id, ws[1..]);
    } else {
      assert Drop(ws, i) == [ws[0]] + Drop(ws[1..], i - 1);
      DropIsOthers(ws[1..], i - 1);
    }
  }

  /**
   A timeout or abort takes out the waiter with that identifier and nothing else: every other waiter
   stays in its place, and a request that is not waiting any more is not affected.
   */
  lemma CancelSparesOthers(s: State, lim: Limits, id: nat)
    requires Valid(s, lim)
    ensures Cancel(s, id) == s.(waiting := OtherWaiters(s.waiting, id))
    ensures (forall w | w in s.waiting :: w.id != id) ==> Cancel(s, id) == s
  {
    var i := Position(s.waiting, id);
    if i == -1 {
      FilterFixed((w: Waiter) => w.id != id, s.waiting);
    } else {
      DropIsOthers(s.waiting, i);
    }
  }

  lemma {:induction false} WaitingForCounts(ws: seq<Waiter>, grant: string)
    ensures WaitingFor(ws, grant) == |WaitersFor(ws, grant)|
  {
    if ws != [] {
      WaitingForCounts(ws[1..], grant);
    }
  }

  /**
   A request gets a slot exactly when the gate is open to it and fewer than each limit's worth of slots are
   out; otherwise it is queued last exactly when fewer than 32 wait and fewer than 8 for its grant.
   */
  lemma AcquireVerdict(s: State, lim: Limits, grant: string, aborted: bool)
    requires Valid(s, lim)
    ensures var (s', r) := Acquire(s, lim, grant, aborted);
            var open := !s.closed && !aborted && lim.concurrency > 0 && lim.perGrant > 0;
            var room := |s.live| < lim.concurrency && |Holders(s.live, grant)| < lim.perGrant;
            && (r.Granted? <==> open && room)
            && (r.Queued? <==> open && !room && |s.waiting| < 32 && |WaitersFor(s.waiting, grant)| < 8)
            && s'.closed == s.closed
            && (r.Granted? ==> r.id == s.next && s'.live == s.live[s.next := grant] && s'.waiting == s.waiting)
            && (r.Queued? ==> r.id == s.next && s'.live == s.live && s'.waiting == s.waiting + [Waiter(s.next, grant)])
            && (r.Refused? ==> s' == s)
  {
    WaitingForCounts(s.waiting, grant);
    assert Running(s, grant) == |Holders(s.live, grant)|;
  }

  lemma CloseKeepsValid(s: State, lim: Limits)
    requires Valid(s, lim)
    ensures Valid(Close(s), lim)
    ensures Close(s).closed && Close(s).waiting == [] && Close(s).live == s.live
  {
    assert forall g :: Running(Close(s), g) == Running(s, g);
    assert forall g :: WaitingFor([], g) == 0;
  }

  // ---------------------------------------------------------------- who the gate knows

  /** The identifiers of the slots out and of the waiters. */
  function Known(s: State): set<nat> {
    s.live.Keys + set w | w in s.waiting :: w.id
  }

  lemma AdmitKnows(s: State, i: nat)
    requires i < |s.waiting|
    ensures Known(Admit(s, i)) <= Known(s)
  {
    var a := Admit(s, i);
    forall w | w in a.waiting ensures w in s.waiting {
      var j :| 0 <= j < |a.waiting| && a.waiting[j] == w;
      assert w == s.waiting[if j < i then j else j + 1];
    }
  }

  lemma {:induction false} HandOverKnows(s: State, lim: Limits)
    ensures Known(HandOver(s, lim)) <= Known(s)
    decreases |s.waiting|
  {
    var i := FirstAvailable(s, lim, 0);
    if !s.closed && i != -1 {
      AdmitKnows(s, i);
      HandOverKnows(Admit(s, i), lim);
    }
  }

  /** A released slot is gone for good, and nobody new comes to be known. */
  lemma ReleaseForgets(s: State, lim: Limits, id: nat)
    requires Valid(s, lim) && id in s.live
    ensures Known(Release(s, lim, id)) <= Known(s) - {id}
  {
    HandOverKnows(Freed(s, id), lim);
    assert forall w | w in s.waiting :: w.id != id;
  }

  lemma AcquireKnows(s: State, lim: Limits, grant: string, aborted: bool)
    ensures var (s', r) := Acquire(s, lim, grant, aborted);
            Known(s') <= Known(s) + if r.Refused? then {} else {r.id}
  {
    var w := Waiter(s.next, grant);
    forall x | x in s.waiting + [w] ensures x in s.waiting || x == w {
    }
  }

  lemma CancelKnows(s: State, lim: Limits, id: nat)
    requires Valid(s, lim)
    ensures Known(Cancel(s, id)) <= Known(s) && Known(Close(s)) <= Known(s)
  {
    CancelSparesOthers(s, lim, id);
    forall w | w in OtherWaiters(s.waiting, id) ensures w in s.waiting {
      FilterMember((x: Waiter) => x.id != id, s.waiting, w);
    }
  }

  // ---------------------------------------------------------------- every run

  function Fresh(): State {
    State(0, map[], [], map[], false, 0)
  }

  datatype Call = DoAcquire(grant: string, aborted: bool) | DoRelease(id: nat) | DoCancel(id: nat) | DoClose

  /** Any caller may do anything at any time, releases included; closures run to their end. */
  function Step(s: State, lim: Limits, call: Call): State {
    match call
    case DoAcquire(grant, aborted) => Acquire(s, lim, grant, aborted).0
    case DoRelease(id) => Release(s, lim, id)
    case DoCancel(id) => Cancel(s, id)
    case DoClose => Close(s)
  }

  function Run(lim: Limits, calls: seq<Call>): State {
    if calls == [] then Fresh()
    else Step(Run(lim, calls[..|calls| - 1]), lim, calls[|calls| - 1])
  }

  lemma FreshIsValid(lim: Limits)
    ensures Valid(Fresh(), lim)
  {
    assert forall g :: Holders(map[], g) == {};
  }

  lemma StepKeepsValid(s: State, lim: Limits, call: Call)
    requires Valid(s, lim)
    ensures Valid(Step(s, lim, call), lim)
  {
    match call
    case DoAcquire(grant, aborted) => AcquireKeepsValid(s, lim, grant, aborted);
    case DoRelease(id) => ReleaseKeepsValid(s, lim, id);
    case DoCancel(id) => CancelKeepsValid(s, lim, id);
    case DoClose => CloseKeepsValid(s, lim);
  }

  /**
   In every run the counters equal the slots outstanding and respect both limits, the queue is bounded,
   and no request waits while a slot is free for its grant.
   */
  lemma {:induction false} EveryRunIsValid(lim: Limits, calls: seq<Call>)
    ensures Valid(Run(lim, calls), lim)
  {
    if calls == [] {
      FreshIsValid(lim);
    } else {
      EveryRunIsValid(lim, calls[..|calls| - 1]);
      StepKeepsValid(Run(lim, calls[..|calls| - 1]), lim, calls[|calls| - 1]);
    }
  }

  // ---------------------------------------------------------------- the gate as an object

  class Gate {
    const limits: Limits
    var active: int
    var grants: map<string, int>
    var waiting: seq<Waiter>
    var live: map<nat, string>
    var closed: bool
    var next: nat

    function Value(): State
      reads this
    {
      State(active, grants, waiting, live, closed, next)
    }

    constructor (limits: Limits)
      ensures this.limits == limits
      ensures Value() == State(0, map[], [], map[], false, 0) && Valid(Value(), limits)
    {
      this.limits := limits;
      active, grants, waiting, live, closed, next := 0, map[], [], map[], false, 0;
      new;
      assert forall g :: Holders(map[], g) == {};
    }

    method TryAcquire(grant: string, aborted: bool) returns (r: Acquired)
      requires Valid(Value(), limits)
      modifies this
      ensures Valid(Value(), limits)
      ensures (Value(), r) == Acquire(old(Value()), limits, grant, aborted)
    {
      AcquireKeepsValid(Value(), limits, grant, aborted);
      r := Attempt(grant, aborted);
    }

    /** A slot now, a place in the queue, or a refusal. */
    method Attempt(grant: string, aborted: bool) returns (r: Acquired)
      modifies this`active, this`grants, this`live, this`waiting, this`next
      ensures (Value(), r) == Acquire(old(Value()), limits, grant, aborted)
    {
      if closed || aborted || limits.concurrency <= 0 || limits.perGrant <= 0 {
        return Refused;
      }
      var running := if grant in grants then grants[grant] else 0;
      if active < limits.concurrency && running < limits.perGrant {
        active := active + 1;
        grants := grants[grant := running + 1];
        live := live[next := grant];
        r := Granted(next);
      } else if |waiting| >= MAX_WAITING || WaitingFor(waiting, grant) >= MAX_WAITING_PER_GRANT {
        return Refused;
      } else {
        waiting := waiting + [Waiter(next, grant)];
        r := Queued(next);
      }
      next := next + 1;
    }

    /** Frees the slot once, then admits waiters until none could run. */
    method ReleaseSlot(id: nat)
      requires Valid(Value(), limits)
      modifies this
      ensures Valid(Value(), limits)
      ensures Value() == Release(old(Value()), limits, id)
    {
      ReleaseKeepsValid(Value(), limits, id);
      if id in live {
        FreeSlot(id);
        AdmitWaiters();
      }
    }

    method FreeSlot(id: nat)
      requires id in live
      modifies this`active, this`grants, this`live
      ensures Value() == Freed(old(Value()), id)
    {
      var grant := live[id];
      var remaining := (if grant in grants then grants[grant] else 1) - 1;
      active := active - 1;
      grants := if remaining == 0 then grants - {grant} else grants[grant := remaining];
      live := live - {id};
    }

    /** Takes one waiter out of the queue and gives it a slot. */
    method AdmitAt(i: nat)
      requires i < |waiting|
      modifies this`active, this`grants, this`live, this`waiting
      ensures Value() == Admit(old(Value()), i)
    {
      var w := waiting[i];
      waiting := waiting[..i] + waiting[i + 1..];
      active := active + 1;
      grants := grants[w.grant := (if w.grant in grants then grants[w.grant] else 0) + 1];
      live := live[w.id := w.grant];
    }

    method AdmitWaiters()
      modifies this`active, this`grants, this`live, this`waiting
      ensures Value() == HandOver(old(Value()), limits)
    {
      ghost var target := HandOver(Value(), limits);
      while !closed
        invariant HandOver(Value(), limits) == target
        decreases |waiting|
      {
        var i := FirstAvailable(Value(), limits, 0);
        if i == -1 {
          break;
        }
        AdmitAt(i);
      }
    }

    method CancelWaiter(id: nat)
      requires Valid(Value(), limits)
      modifies this`waiting
      ensures Valid(Value(), limits)
      ensures Value() == Cancel(old(Value()), id)
      ensures waiting == OtherWaiters(old(waiting), id)
    {
      CancelKeepsValid(Value(), limits, id);
      CancelSparesOthers(Value(), limits, id);
      TakeOut(id);
    }

    method TakeOut(id: nat)
      modifies this`waiting
      ensures Value() == Cancel(old(Value()), id)
    {
      var i := Position(waiting, id);
      if i != -1 {
        waiting := waiting[..i] + waiting[i + 1..];
      }
    }

    method Shut()
      requires Valid(Value(), limits)
      modifies this`closed, this`waiting
      ensures Valid(Value(), limits)
      ensures Value() == Close(old(Value()))
    {
      CloseKeepsValid(Value(), limits);
      closed, waiting := true, [];
    }
  }
}
