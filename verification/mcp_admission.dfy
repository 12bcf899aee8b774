/**
 MCP requests after admission, interleaved: the shared lease table with expiry, and for each
 request the handler's steps from the local gate to its last release.  Every coordinator
 call may succeed, refuse or fail, and a failed call may still have taken effect.  When a gate admits
 is left open here; `McpProcesses` gives every process its gate.
 */
module McpAdmission {
  import opened Prelude

  datatype Bucket = GlobalBucket | GrantBucket(grant: string)

  datatype Lease = Lease(bucket: Bucket, expiry: int)

  type Table = map<nat, Lease>

  datatype Config = Config(concurrency: int, perGrant: int, leaseMs: int)

  const MIN_LEASE_MS := 60_000
  const MAX_LEASE_MS := 600_000

  function LeaseMs(operationTimeoutMs: int): int {
    Max(MIN_LEASE_MS, operationTimeoutMs * 2)
  }

  function LimitOf(cfg: Config, b: Bucket): int {
    if b.GlobalBucket? then cfg.concurrency else cfg.perGrant
  }

  // ---------------------------------------------------------------- the lease table

  function InBucket(t: Table, b: Bucket): set<nat> {
    set l | l in t && t[l].bucket == b
  }

  function LiveAt(t: Table, b: Bucket, now: int): set<nat> {
    set l | l in t && t[l].bucket == b && t[l].expiry > now
  }

  /** Leases of the bucket that have expired are removed before counting; expiry is inclusive. */
  function Purge(t: Table, b: Bucket, now: int): Table {
    map l | l in t && !(t[l].bucket == b && t[l].expiry <= now) :: t[l]
  }

  datatype AcquireResult = Got(table: Table) | Full(table: Table) | Invalid

  function Acquire(t: Table, cfg: Config, b: Bucket, now: int, id: nat): AcquireResult {
    if LimitOf(cfg, b) < 1 || cfg.leaseMs < 1 || cfg.leaseMs > MAX_LEASE_MS then Invalid
    else
      var p := Purge(t, b, now);
      if |InBucket(p, b)| >= LimitOf(cfg, b) then Full(p)
      else Got(p[id := Lease(b, now + cfg.leaseMs)])
  }

  // ---------------------------------------------------------------- requests and steps

  datatype Phase =
    | AtGate
    | WantGlobal
    | WantGrant(global: nat, globalAt: int)
    | Refusing(global: nat)
    | Inside(global: nat, globalAt: int, own: nat, ownAt: int)
    | Leaving
    | Done

  /**
   `got` are the leases returned to the request, `held` those it still has to release,
   `tried` those it attempted to release; `passed` says the gate let it in.
   */
  datatype Request = Request(grant: string, phase: Phase, got: set<nat>, held: set<nat>, tried: set<nat>,
                             passed: bool, gateReleases: nat)

  /** `lost` are leases whose acquisition was reported as failed or whose release failed. */
  datatype State = State(now: int, table: Table, requests: map<nat, Request>, next: nat, lost: set<nat>)

  datatype Step =
    | Tick(ms: nat)
    | Arrive(r: nat, grant: string)
    | GateRefuses(r: nat)
    | GateAdmits(r: nat)
    | TryGlobal(r: nat)
    | GlobalFails(r: nat, landed: bool)
    | TryGrant(r: nat)
    | GrantFails(r: nat, landed: bool)
    | RefusalRelease(r: nat, ok: bool, removed: bool)
    | LeaveTransport(r: nat)
    | ReleaseOne(r: nat, lease: nat, ok: bool, removed: bool)
    | ReleaseGate(r: nat)

  predicate InPhase(s: State, step: Step)
    requires !step.Tick? && !step.Arrive?
    requires step.r in s.requests
  {
    var p := s.requests[step.r].phase;
    match step
    case GateRefuses(_) => p.AtGate?
    case GateAdmits(_) => p.AtGate?
    case TryGlobal(_) => p.WantGlobal?
    case GlobalFails(_, _) => p.WantGlobal?
    case TryGrant(_) => p.WantGrant?
    case GrantFails(_, _) => p.WantGrant?
    case RefusalRelease(_, _, _) => p.Refusing?
    case LeaveTransport(_) => p.Inside?
    case ReleaseOne(_, l, _, _) => p.Leaving? && l in s.requests[step.r].held
    case ReleaseGate(_) => p.Leaving? && s.requests[step.r].held == {}
  }

  predicate Enabled(s: State, step: Step) {
    match step
    case Tick(_) => true
    case Arrive(r, _) => r !in s.requests
    case _ => step.r in s.requests && InPhase(s, step)
  }

  function Put(s: State, r: nat, q: Request): State {
    s.(requests := s.requests[r := q])
  }

  /** The gate's release closure runs and the handler answers. */
  function Finished(q: Request): Request {
    q.(phase := Done, gateReleases := q.gateReleases + 1)
  }

  /** A coordinator error; the acquisition may have been recorded without being reported. */
  function Unreported(s: State, cfg: Config, b: Bucket, landed: bool): State {
    var a := Acquire(s.table, cfg, b, s.now, s.next);
    if landed && a.Got? then s.(table := a.table, next := s.next + 1, lost := s.lost + {s.next}) else s
  }

  function Removed(s: State, l: nat, ok: bool, removed: bool): State {
    if ok || removed then s.(table := s.table - {l}) else s.(lost := s.lost + {l})
  }

  function Next(s: State, cfg: Config, step: Step): State
    requires Enabled(s, step)
  {
    match step
    case Tick(ms) => s.(now := s.now + ms)
    case Arrive(r, grant) => Put(s, r, Request(grant, AtGate, {}, {}, {}, false, 0))
    case GateRefuses(r) => Put(s, r, s.requests[r].(phase := Done))
    case GateAdmits(r) => Put(s, r, s.requests[r].(phase := WantGlobal, passed := true))
    case TryGlobal(r) =>
      var q := s.requests[r];
      (match Acquire(s.table, cfg, GlobalBucket, s.now, s.next)
       case Got(t) =>
         Put(s.(table := t, next := s.next + 1), r,
             q.(phase := WantGrant(s.next, s.now), got := q.got + {s.next}, held := q.held + {s.next}))
       case Full(t) => Put(s.(table := t), r, Finished(q))
       case Invalid => Put(s, r, Finished(q)))
    case GlobalFails(r, landed) =>
      Put(Unreported(s, cfg, GlobalBucket, landed), r, Finished(s.requests[r]))
    case TryGrant(r) =>
      var q := s.requests[r];
      (match Acquire(s.table, cfg, GrantBucket(q.grant), s.now, s.next)
       case Got(t) =>
         Put(s.(table := t, next := s.next + 1), r,
             q.(phase := Inside(q.phase.global, q.phase.globalAt, s.next, s.now),
                got := q.got + {s.next}, held := q.held + {s.next}))
       case Full(t) => Put(s.(table := t), r, q.(phase := Refusing(q.phase.global)))
       case Invalid => Put(s, r, q.(phase := Leaving)))
    case GrantFails(r, landed) =>
      Put(Unreported(s, cfg, GrantBucket(s.requests[r].grant), landed), r, s.requests[r].(phase := Leaving))
    case RefusalRelease(r, ok, removed) =>
      var q := s.requests[r];
      var g := q.phase.global;
      if ok then Put(s.(table := s.table - {g}), r, Finished(q.(held := q.held - {g}, tried := q.tried + {g})))
      else Put(if removed then s.(table := s.table - {g}) else s, r,
               q.(phase := Leaving, tried := q.tried + {g}))
    case LeaveTransport(r) => Put(s, r, s.requests[r].(phase := Leaving))
    case ReleaseOne(r, l, ok, removed) =>
      var q := s.requests[r];
      Put(Removed(s, l, ok, removed), r, q.(held := q.held - {l}, tried := q.tried + {l}))
    case ReleaseGate(r) => Put(s, r, Finished(s.requests[r]))
  }

  // ---------------------------------------------------------------- the invariant

  /** A lease handed out at `at` is in the table, unchanged, until it expires. */
  ghost predicate Owns(s: State, cfg: Config, l: nat, b: Bucket, at: int) {
    && at <= s.now
    && (l in s.table ==> s.table[l] == Lease(b, at + cfg.leaseMs))
    && (s.now < at + cfg.leaseMs ==> l in s.table)
  }

  ghost predicate RequestOk(s: State, cfg: Config, q: Request) {
    && (forall l | l in q.got :: l < s.next)
    && q.held <= q.got && q.got <= q.held + q.tried
    && match q.phase
       case AtGate => q.got == {} && !q.passed && q.gateReleases == 0
       case WantGlobal => q.got == {} && q.passed && q.gateReleases == 0
       case WantGrant(g, at) =>
         q.held == q.got == {g} && q.passed && q.gateReleases == 0 && Owns(s, cfg, g, GlobalBucket, at)
       case Refusing(g) => q.held == q.got == {g} && q.passed && q.gateReleases == 0
       case Inside(g, gAt, l, lAt) =>
         && q.held == q.got == {g, l} && q.passed && q.gateReleases == 0
         && Owns(s, cfg, g, GlobalBucket, gAt) && Owns(s, cfg, l, GrantBucket(q.grant), lAt)
       case Leaving => q.passed && q.gateReleases == 0
       case Done => q.held == {} && q.gateReleases == if q.passed then 1 else 0
  }

  ghost predicate TableOk(s: State) {
    forall l | l in s.table ::
      l < s.next && (l in s.lost || exists r :: r in s.requests && l in s.requests[r].held)
  }

  ghost predicate Bounded(s: State, cfg: Config) {
    forall b :: |LiveAt(s.table, b, s.now)| <= Max(0, LimitOf(cfg, b))
  }

  ghost predicate Separate(s: State) {
    forall r, q | r in s.requests && q in s.requests && r != q :: s.requests[r].got !! s.requests[q].got
  }

  ghost predicate Inv(s: State, cfg: Config) {
    && (forall r | r in s.requests :: RequestOk(s, cfg, s.requests[r]))
    && TableOk(s) && Bounded(s, cfg) && Separate(s)
    && (forall l | l in s.lost :: l < s.next)
  }

  // ---------------------------------------------------------------- table lemmas

  /** What an acquisition attempt does to the table. */
  lemma AcquireFacts(t: Table, cfg: Config, b: Bucket, now: int, id: nat)
    requires id !in t && !Acquire(t, cfg, b, now, id).Invalid?
    ensures var a := Acquire(t, cfg, b, now, id);
            && (forall l | l in a.table && l != id :: l in t && a.table[l] == t[l])
            && (forall l | l in t && l !in a.table :: t[l].expiry <= now)
            && (a.Got? ==> id in a.table && a.table[id] == Lease(b, now + cfg.leaseMs))
            && (a.Full? ==> id !in a.table)
  {
  }

  /**
   A lease is granted exactly when the configured limit and the lease are acceptable and fewer leases of
   the bucket than the limit are alive; with the limit reached the caller is told it is full.
   */
  lemma AcquireVerdict(t: Table, cfg: Config, b: Bucket, now: int, id: nat)
    ensures var a := Acquire(t, cfg, b, now, id);
            var limit := match b case GlobalBucket => cfg.concurrency case GrantBucket(_) => cfg.perGrant;
            var alive := |LiveAt(t, b, now)|;
            && (a.Invalid? <==> limit < 1 || cfg.leaseMs < 1 || cfg.leaseMs > 600_000)
            && (a.Got? <==> limit >= 1 && 1 <= cfg.leaseMs <= 600_000 && alive < limit)
            && (a.Full? <==> limit >= 1 && 1 <= cfg.leaseMs <= 600_000 && alive >= limit)
  {
    assert InBucket(Purge(t, b, now), b) == LiveAt(t, b, now);
  }

  lemma LiveAtAdd(t: Table, id: nat, lease: Lease, b: Bucket, now: int)
    requires id !in t
    ensures |LiveAt(t[id := lease], b, now)|
         == |LiveAt(t, b, now)| + if lease.bucket == b && lease.expiry > now then 1 else 0
  {
    var one := if lease.bucket == b && lease.expiry > now then {id} else {};
    assert LiveAt(t[id := lease], b, now) == LiveAt(t, b, now) + one;
    DisjointCard(LiveAt(t, b, now), one);
  }

  lemma LivePurged(t: Table, b: Bucket, now: int, c: Bucket)
    ensures LiveAt(Purge(t, b, now), c, now) == LiveAt(t, c, now)
  {
  }

  lemma AcquireBounded(t: Table, cfg: Config, b: Bucket, now: int, id: nat, c: Bucket)
    requires id !in t && !Acquire(t, cfg, b, now, id).Invalid?
    requires |LiveAt(t, c, now)| <= Max(0, LimitOf(cfg, c))
    ensures |LiveAt(Acquire(t, cfg, b, now, id).table, c, now)| <= Max(0, LimitOf(cfg, c))
  {
    LivePurged(t, b, now, c);
    if Acquire(t, cfg, b, now, id).Got? {
      AcquireVerdict(t, cfg, b, now, id);
      LiveAtAdd(Purge(t, b, now), id, Lease(b, now + cfg.leaseMs), c, now);
    }
  }

  /** A request gets its global lease exactly when fewer than `concurrency` are alive; otherwise it is answered. */
  lemma FirstLeaseIff(s: State, cfg: Config, r: nat)
    requires Enabled(s, TryGlobal(r))
    ensures var p := Next(s, cfg, TryGlobal(r)).requests[r].phase;
            && (p.WantGrant? <==> cfg.concurrency >= 1 && 1 <= cfg.leaseMs <= 600_000
                                  && |LiveAt(s.table, GlobalBucket, s.now)| < cfg.concurrency)
            && (!p.WantGrant? ==> p.Done?)
  {
    AcquireVerdict(s.table, cfg, GlobalBucket, s.now, s.next);
  }

  /**
   It enters the transport exactly when fewer than `perGrant` leases of its grant are alive; with the limit
   reached it gives its global lease back, and a refused release is tried once more.
   */
  lemma SecondLeaseIff(s: State, cfg: Config, r: nat)
    requires Enabled(s, TryGrant(r))
    ensures var q := s.requests[r];
            var q' := Next(s, cfg, TryGrant(r)).requests[r];
            var alive := |LiveAt(s.table, GrantBucket(q.grant), s.now)|;
            var valid := cfg.perGrant >= 1 && 1 <= cfg.leaseMs <= 600_000;
            && (q'.phase.Inside? <==> valid && alive < cfg.perGrant)
            && (q'.phase == Refusing(q.phase.global) <==> valid && alive >= cfg.perGrant)
            && (!q'.phase.Inside? ==> q'.held == q.held)
  {
    AcquireVerdict(s.table, cfg, GrantBucket(s.requests[r].grant), s.now, s.next);
  }

  lemma RefusalGivesBack(s: State, cfg: Config, r: nat, ok: bool, removed: bool)
    requires Enabled(s, RefusalRelease(r, ok, removed)) && s.requests[r].phase.global in s.requests[r].held
    ensures var g := s.requests[r].phase.global;
            var s' := Next(s, cfg, RefusalRelease(r, ok, removed));
            && (ok ==> s'.requests[r].phase.Done? && g !in s'.table && g !in s'.requests[r].held)
            && (!ok ==> Enabled(s', ReleaseOne(r, g, true, true)))
            && forall l | l in s.table && l != g :: l in s'.table
  {
  }

  lemma ShrinkBounded(t: Table, u: Table, now: int, later: int, cfg: Config)
    requires now <= later
    requires forall l | l in u :: l in t && u[l] == t[l]
    requires forall b :: |LiveAt(t, b, now)| <= Max(0, LimitOf(cfg, b))
    ensures forall b :: |LiveAt(u, b, later)| <= Max(0, LimitOf(cfg, b))
  {
    forall b ensures |LiveAt(u, b, later)| <= Max(0, LimitOf(cfg, b)) {
      assert LiveAt(u, b, later) <= LiveAt(t, b, now);
      SubsetCard(LiveAt(u, b, later), LiveAt(t, b, now));
      assert |LiveAt(t, b, now)| <= Max(0, LimitOf(cfg, b));
    }
  }

  // ---------------------------------------------------------------- preservation

  /**
   The table of `s'` differs from that of `s` by one acquisition attempt or by removals that
   spare every lease of the other requests.
   */
  ghost predicate Benign(s: State, s': State, l: nat) {
    && (l in s'.table ==> l in s.table && s'.table[l] == s.table[l])
    && (l in s.table && l !in s'.table ==> s.table[l].expiry <= s.now)
  }

  lemma OthersKeep(s: State, s': State, cfg: Config, q: Request)
    requires RequestOk(s, cfg, q)
    requires s'.now == s.now && s'.next >= s.next
    requires forall l | l in q.got :: Benign(s, s', l)
    ensures RequestOk(s', cfg, q)
  {
  }

  lemma InvAfter(s: State, s': State, cfg: Config, r: nat)
    requires Inv(s, cfg) && r in s'.requests
    requires s'.now == s.now && s'.next >= s.next
    requires s'.requests.Keys == s.requests.Keys + {r}
    requires forall o | o in s.requests && o != r ::
               && s'.requests[o] == s.requests[o]
               && s'.requests[r].got !! s.requests[o].got
               && forall l | l in s.requests[o].got :: Benign(s, s', l)
    requires RequestOk(s', cfg, s'.requests[r])
    requires forall l | l in s'.table ::
               && l < s'.next
               && (|| l in s'.lost || l in s'.requests[r].held
                   || (l in s.table && l !in s.lost && (r in s.requests ==> l !in s.requests[r].held)))
    requires Bounded(s', cfg) && forall l | l in s'.lost :: l < s'.next
    ensures Inv(s', cfg)
  {
    forall o | o in s'.requests ensures RequestOk(s', cfg, s'.requests[o]) {
      if o != r {
        OthersKeep(s, s', cfg, s.requests[o]);
      }
    }
    forall l | l in s'.table
      ensures l < s'.next && (l in s'.lost || exists o :: o in s'.requests && l in s'.requests[o].held)
    {
      if l !in s'.lost && l !in s'.requests[r].held {
        var o :| o in s.requests && l in s.requests[o].held;
        assert o in s'.requests && l in s'.requests[o].held;
      }
    }
  }

  lemma TickKeepsInv(s: State, cfg: Config, ms: nat)
    requires Inv(s, cfg)
    ensures Inv(Next(s, cfg, Tick(ms)), cfg)
  {
    var s' := Next(s, cfg, Tick(ms));
    ShrinkBounded(s.table, s'.table, s.now, s'.now, cfg);
    forall r | r in s'.requests ensures RequestOk(s', cfg, s'.requests[r]) {
      assert RequestOk(s, cfg, s.requests[r]);
    }
  }

  lemma LocalKeepsInv(s: State, cfg: Config, step: Step)
    requires Inv(s, cfg) && Enabled(s, step)
    requires step.Arrive? || step.GateRefuses? || step.GateAdmits? || step.LeaveTransport? || step.ReleaseGate?
    ensures Inv(Next(s, cfg, step), cfg)
  {
    var s' := Next(s, cfg, step);
    if step.r in s.requests {
      assert RequestOk(s, cfg, s.requests[step.r]);
    }
    InvAfter(s, s', cfg, step.r);
  }

  lemma AttemptBounded(s: State, cfg: Config, b: Bucket)
    requires Inv(s, cfg) && !Acquire(s.table, cfg, b, s.now, s.next).Invalid?
    ensures s.next !in s.table
    ensures forall c :: |LiveAt(Acquire(s.table, cfg, b, s.now, s.next).table, c, s.now)|
                          <= Max(0, LimitOf(cfg, c))
  {
    forall c ensures |LiveAt(Acquire(s.table, cfg, b, s.now, s.next).table, c, s.now)|
                       <= Max(0, LimitOf(cfg, c)) {
      AcquireBounded(s.table, cfg, b, s.now, s.next, c);
    }
  }

  lemma UnreportedKeepsInv(s: State, cfg: Config, b: Bucket, landed: bool)
    requires Inv(s, cfg)
    ensures Inv(Unreported(s, cfg, b, landed), cfg)
  {
    var u := Unreported(s, cfg, b, landed);
    if landed && Acquire(s.table, cfg, b, s.now, s.next).Got? {
      AttemptBounded(s, cfg, b);
      AcquireFacts(s.table, cfg, b, s.now, s.next);
      forall o | o in u.requests ensures RequestOk(u, cfg, u.requests[o]) {
        OthersKeep(s, u, cfg, s.requests[o]);
      }
    }
  }

  lemma PurgeKeepsInv(s: State, cfg: Config, b: Bucket)
    requires Inv(s, cfg) && Acquire(s.table, cfg, b, s.now, s.next).Full?
    ensures Inv(s.(table := Acquire(s.table, cfg, b, s.now, s.next).table), cfg)
  {
    var u := s.(table := Acquire(s.table, cfg, b, s.now, s.next).table);
    AttemptBounded(s, cfg, b);
    AcquireFacts(s.table, cfg, b, s.now, s.next);
    forall o | o in u.requests ensures RequestOk(u, cfg, u.requests[o]) {
      OthersKeep(s, u, cfg, s.requests[o]);
    }
  }

  /** The state an acquisition attempt leaves before the request takes note of it. */
  function Attempted(s: State, cfg: Config, b: Bucket): State {
    match Acquire(s.table, cfg, b, s.now, s.next)
    case Got(_) => Unreported(s, cfg, b, true)
    case Full(t) => s.(table := t)
    case Invalid => s
  }

  lemma AttemptKeepsInv(s: State, cfg: Config, b: Bucket)
    requires Inv(s, cfg)
    ensures Inv(Attempted(s, cfg, b), cfg)
  {
    match Acquire(s.table, cfg, b, s.now, s.next)
    case Got(_) => UnreportedKeepsInv(s, cfg, b, true);
    case Full(_) => PurgeKeepsInv(s, cfg, b);
    case Invalid =>
  }

  lemma GotIsOwned(s: State, cfg: Config, b: Bucket)
    requires Inv(s, cfg) && Acquire(s.table, cfg, b, s.now, s.next).Got?
    ensures var u := Attempted(s, cfg, b);
            && Owns(u, cfg, s.next, b, s.now) && u.next == s.next + 1 && u.requests == s.requests
            && forall r | r in s.requests :: s.next !in s.requests[r].got
  {
    AttemptBounded(s, cfg, b);
    AcquireFacts(s.table, cfg, b, s.now, s.next);
    forall r | r in s.requests ensures s.next !in s.requests[r].got {
      assert RequestOk(s, cfg, s.requests[r]);
    }
  }

  function Taking(q: Request, l: nat, phase: Phase): Request {
    q.(phase := phase, got := q.got + {l}, held := q.held + {l})
  }

  /** The request records the lease that the attempt left as unclaimed. */
  lemma TakeLeaseKeepsInv(u: State, cfg: Config, r: nat, l: nat, phase: Phase)
    requires Inv(u, cfg) && r in u.requests && l < u.next
    requires forall o | o in u.requests :: l !in u.requests[o].got
    requires RequestOk(u, cfg, Taking(u.requests[r], l, phase))
    ensures Inv(Put(u.(lost := u.lost - {l}), r, Taking(u.requests[r], l, phase)), cfg)
  {
    var s' := Put(u.(lost := u.lost - {l}), r, Taking(u.requests[r], l, phase));
    assert RequestOk(s', cfg, s'.requests[r]);
    InvAfter(u, s', cfg, r);
  }

  /** A request changes phase and keeps its leases. */
  lemma PhaseKeepsInv(u: State, cfg: Config, r: nat, q: Request)
    requires Inv(u, cfg) && r in u.requests
    requires q.got == u.requests[r].got && q.held == u.requests[r].held
    requires RequestOk(u, cfg, q)
    ensures Inv(Put(u, r, q), cfg)
  {
    assert RequestOk(Put(u, r, q), cfg, q);
    InvAfter(u, Put(u, r, q), cfg, r);
  }

  lemma GlobalGotNext(s: State, cfg: Config, r: nat)
    requires Enabled(s, TryGlobal(r)) && s.next !in s.lost
    requires Acquire(s.table, cfg, GlobalBucket, s.now, s.next).Got?
    ensures var q, u := s.requests[r], Attempted(s, cfg, GlobalBucket);
            Next(s, cfg, TryGlobal(r)) ==
            Put(u.(lost := u.lost - {s.next}), r, Taking(q, s.next, WantGrant(s.next, s.now)))
  {
    assert s.lost + {s.next} - {s.next} == s.lost;
  }

  lemma GlobalTakenKeepsInv(s: State, cfg: Config, r: nat)
    requires Inv(s, cfg) && r in s.requests && s.requests[r].phase.WantGlobal?
    requires Acquire(s.table, cfg, GlobalBucket, s.now, s.next).Got?
    ensures var q, u := s.requests[r], Attempted(s, cfg, GlobalBucket);
            Inv(Put(u.(lost := u.lost - {s.next}), r, Taking(q, s.next, WantGrant(s.next, s.now))), cfg)
  {
    var u := Attempted(s, cfg, GlobalBucket);
    AttemptKeepsInv(s, cfg, GlobalBucket);
    GotIsOwned(s, cfg, GlobalBucket);
    assert RequestOk(u, cfg, u.requests[r]);
    assert u.requests[r].got + {s.next} == {s.next};
    TakeLeaseKeepsInv(u, cfg, r, s.next, WantGrant(s.next, s.now));
  }

  lemma GlobalGotKeepsInv(s: State, cfg: Config, r: nat)
    requires Inv(s, cfg) && Enabled(s, TryGlobal(r))
    requires Acquire(s.table, cfg, GlobalBucket, s.now, s.next).Got?
    ensures Inv(Next(s, cfg, TryGlobal(r)), cfg)
  {
    assert s.next !in s.lost;
    GlobalGotNext(s, cfg, r);
    GlobalTakenKeepsInv(s, cfg, r);
  }

  lemma TryGlobalKeepsInv(s: State, cfg: Config, r: nat)
    requires Inv(s, cfg) && Enabled(s, TryGlobal(r))
    ensures Inv(Next(s, cfg, TryGlobal(r)), cfg)
  {
    if Acquire(s.table, cfg, GlobalBucket, s.now, s.next).Got? {
      GlobalGotKeepsInv(s, cfg, r);
    } else {
      var u := Attempted(s, cfg, GlobalBucket);
      AttemptKeepsInv(s, cfg, GlobalBucket);
      assert RequestOk(u, cfg, u.requests[r]);
      PhaseKeepsInv(u, cfg, r, Finished(s.requests[r]));
      assert Next(s, cfg, TryGlobal(r)) == Put(u, r, Finished(s.requests[r]));
    }
  }

  function SecondLease(s: State, r: nat): Phase
    requires r in s.requests && s.requests[r].phase.WantGrant?
  {
    Inside(s.requests[r].phase.global, s.requests[r].phase.globalAt, s.next, s.now)
  }

  lemma GrantGotNext(s: State, cfg: Config, r: nat)
    requires Enabled(s, TryGrant(r)) && s.next !in s.lost
    requires Acquire(s.table, cfg, GrantBucket(s.requests[r].grant), s.now, s.next).Got?
    ensures var q, u := s.requests[r], Attempted(s, cfg, GrantBucket(s.requests[r].grant));
            Next(s, cfg, TryGrant(r)) ==
            Put(u.(lost := u.lost - {s.next}), r, Taking(q, s.next, SecondLease(s, r)))
  {
    assert s.lost + {s.next} - {s.next} == s.lost;
  }

  lemma SecondLeaseOk(u: State, cfg: Config, q: Request, l: nat, at: int)
    requires RequestOk(u, cfg, q) && q.phase.WantGrant? && l < u.next
    requires Owns(u, cfg, l, GrantBucket(q.grant), at)
    ensures RequestOk(u, cfg, Taking(q, l, Inside(q.phase.global, q.phase.globalAt, l, at)))
  {
    assert q.got + {l} == {q.phase.global, l};
  }

  lemma GrantTakenKeepsInv(s: State, cfg: Config, r: nat)
    requires Inv(s, cfg) && r in s.requests && s.requests[r].phase.WantGrant?
    requires Acquire(s.table, cfg, GrantBucket(s.requests[r].grant), s.now, s.next).Got?
    ensures var q, u := s.requests[r], Attempted(s, cfg, GrantBucket(s.requests[r].grant));
            Inv(Put(u.(lost := u.lost - {s.next}), r, Taking(q, s.next, SecondLease(s, r))), cfg)
  {
    var b := GrantBucket(s.requests[r].grant);
    var u := Attempted(s, cfg, b);
    AttemptKeepsInv(s, cfg, b);
    GotIsOwned(s, cfg, b);
    SecondLeaseOk(u, cfg, u.requests[r], s.next, s.now);
    TakeLeaseKeepsInv(u, cfg, r, s.next, SecondLease(s, r));
  }

  lemma GrantGotKeepsInv(s: State, cfg: Config, r: nat)
    requires Inv(s, cfg) && Enabled(s, TryGrant(r))
    requires Acquire(s.table, cfg, GrantBucket(s.requests[r].grant), s.now, s.next).Got?
    ensures Inv(Next(s, cfg, TryGrant(r)), cfg)
  {
    assert s.next !in s.lost;
    GrantGotNext(s, cfg, r);
    GrantTakenKeepsInv(s, cfg, r);
  }

  lemma TryGrantKeepsInv(s: State, cfg: Config, r: nat)
    requires Inv(s, cfg) && Enabled(s, TryGrant(r))
    ensures Inv(Next(s, cfg, TryGrant(r)), cfg)
  {
    var q := s.requests[r];
    var b := GrantBucket(q.grant);
    if Acquire(s.table, cfg, b, s.now, s.next).Got? {
      GrantGotKeepsInv(s, cfg, r);
    } else {
      var u := Attempted(s, cfg, b);
      AttemptKeepsInv(s, cfg, b);
      assert RequestOk(u, cfg, u.requests[r]);
      var q' := if Acquire(s.table, cfg, b, s.now, s.next).Full? then q.(phase := Refusing(q.phase.global))
                else q.(phase := Leaving);
      PhaseKeepsInv(u, cfg, r, q');
      assert Next(s, cfg, TryGrant(r)) == Put(u, r, q');
    }
  }

  lemma GlobalFailsKeepsInv(s: State, cfg: Config, r: nat, landed: bool)
    requires Inv(s, cfg) && Enabled(s, GlobalFails(r, landed))
    ensures Inv(Next(s, cfg, GlobalFails(r, landed)), cfg)
  {
    var u := Unreported(s, cfg, GlobalBucket, landed);
    UnreportedKeepsInv(s, cfg, GlobalBucket, landed);
    assert RequestOk(u, cfg, u.requests[r]);
    PhaseKeepsInv(u, cfg, r, Finished(s.requests[r]));
  }

  lemma GrantFailsKeepsInv(s: State, cfg: Config, r: nat, landed: bool)
    requires Inv(s, cfg) && Enabled(s, GrantFails(r, landed))
    ensures Inv(Next(s, cfg, GrantFails(r, landed)), cfg)
  {
    var b := GrantBucket(s.requests[r].grant);
    var u := Unreported(s, cfg, b, landed);
    UnreportedKeepsInv(s, cfg, b, landed);
    assert RequestOk(u, cfg, u.requests[r]);
    PhaseKeepsInv(u, cfg, r, s.requests[r].(phase := Leaving));
  }

  lemma RefusalReleaseKeepsInv(s: State, cfg: Config, step: Step)
    requires Inv(s, cfg) && Enabled(s, step) && step.RefusalRelease?
    ensures Inv(Next(s, cfg, step), cfg)
  {
    var s' := Next(s, cfg, step);
    assert RequestOk(s, cfg, s.requests[step.r]);
    ShrinkBounded(s.table, s'.table, s.now, s'.now, cfg);
    InvAfter(s, s', cfg, step.r);
  }

  lemma ReleaseOneKeepsInv(s: State, cfg: Config, step: Step)
    requires Inv(s, cfg) && Enabled(s, step) && step.ReleaseOne?
    ensures Inv(Next(s, cfg, step), cfg)
  {
    var s' := Next(s, cfg, step);
    assert RequestOk(s, cfg, s.requests[step.r]);
    ShrinkBounded(s.table, s'.table, s.now, s'.now, cfg);
    InvAfter(s, s', cfg, step.r);
  }

  lemma StepKeepsInv(s: State, cfg: Config, step: Step)
    requires Inv(s, cfg) && Enabled(s, step)
    ensures Inv(Next(s, cfg, step), cfg)
  {
    match step
    case Tick(ms) => TickKeepsInv(s, cfg, ms);
    case TryGlobal(r) => TryGlobalKeepsInv(s, cfg, r);
    case TryGrant(r) => TryGrantKeepsInv(s, cfg, r);
    case GlobalFails(r, landed) => GlobalFailsKeepsInv(s, cfg, r, landed);
    case GrantFails(r, landed) => GrantFailsKeepsInv(s, cfg, r, landed);
    case RefusalRelease(_, _, _) => RefusalReleaseKeepsInv(s, cfg, step);
    case ReleaseOne(_, _, _, _) => ReleaseOneKeepsInv(s, cfg, step);
    case _ => LocalKeepsInv(s, cfg, step);
  }

  function Init(now: int): State {
    State(now, map[], map[], 0, {})
  }

  ghost predicate Follows(s: State, step: Step, s': State, cfg: Config) {
    Enabled(s, step) && s' == Next(s, cfg, step)
  }

  /** A run records the state before each step and ends in the last state. */
  ghost predicate IsRun(states: seq<State>, steps: seq<Step>, cfg: Config) {
    && |states| == |steps| + 1
    && states[0] == Init(states[0].now)
    && forall i | 0 <= i < |steps| :: Follows(states[i], steps[i], states[i + 1], cfg)
  }

  lemma {:induction false} RunKeepsInv(states: seq<State>, steps: seq<Step>, cfg: Config, i: nat)
    requires IsRun(states, steps, cfg) && i < |states|
    ensures Inv(states[i], cfg)
  {
    if i == 0 {
      assert forall b :: LiveAt(map[], b, states[0].now) == {};
    } else {
      RunKeepsInv(states, steps, cfg, i - 1);
      assert Follows(states[i - 1], steps[i - 1], states[i], cfg);
      StepKeepsInv(states[i - 1], cfg, steps[i - 1]);
    }
  }

  lemma OthersUntouched(s: State, cfg: Config, step: Step)
    requires Enabled(s, step) && !step.Tick? && !step.Arrive?
    ensures Next(s, cfg, step).requests - {step.r} == s.requests - {step.r}
  {
  }

  // ---------------------------------------------------------------- transport concurrency

  function InsideAll(s: State): set<nat> {
    set r | r in s.requests && s.requests[r].phase.Inside?
  }

  function InsideGrant(s: State, grant: string): set<nat> {
    set r | r in s.requests && s.requests[r].phase.Inside? && s.requests[r].grant == grant
  }

  /** Every request in the transport still holds both leases unexpired. */
  ghost predicate Current(s: State, cfg: Config) {
    forall r | r in s.requests && s.requests[r].phase.Inside? ::
      var p := s.requests[r].phase;
      s.now < p.globalAt + cfg.leaseMs && s.now < p.ownAt + cfg.leaseMs
  }

  /** The second lease came within one timeout of the first; the transport lasts less than one. */
  ghost predicate Timely(s: State, timeoutMs: int) {
    forall r | r in s.requests && s.requests[r].phase.Inside? ::
      var p := s.requests[r].phase;
      p.ownAt - p.globalAt <= timeoutMs && s.now - p.ownAt < timeoutMs
  }

  /** The same with the last instant of the timeout allowed. */
  ghost predicate TimelyInclusive(s: State, timeoutMs: int) {
    forall r | r in s.requests && s.requests[r].phase.Inside? ::
      var p := s.requests[r].phase;
      p.ownAt - p.globalAt <= timeoutMs && s.now - p.ownAt <= timeoutMs
  }

  lemma {:induction false} InjectionCard(a: set<nat>, b: set<nat>, f: nat -> nat)
    requires forall r | r in a :: f(r) in b
    requires forall r, q | r in a && q in a && r != q :: f(r) != f(q)
    ensures |a| <= |b|
    decreases a
  {
    if a != {} {
      var r :| r in a;
      InjectionCard(a - {r}, b - {f(r)}, f);
      assert a == (a - {r}) + {r};
    }
  }

  function GlobalOf(s: State, r: nat): nat {
    if r in s.requests && s.requests[r].phase.Inside? then s.requests[r].phase.global else 0
  }

  function OwnOf(s: State, r: nat): nat {
    if r in s.requests && s.requests[r].phase.Inside? then s.requests[r].phase.own else 0
  }

  lemma InsideIsLive(s: State, cfg: Config, r: nat)
    requires Inv(s, cfg) && Current(s, cfg) && r in InsideAll(s)
    ensures GlobalOf(s, r) in LiveAt(s.table, GlobalBucket, s.now)
    ensures OwnOf(s, r) in LiveAt(s.table, GrantBucket(s.requests[r].grant), s.now)
    ensures GlobalOf(s, r) in s.requests[r].got && OwnOf(s, r) in s.requests[r].got
  {
    assert RequestOk(s, cfg, s.requests[r]);
  }

  lemma GlobalBound(s: State, cfg: Config)
    requires Inv(s, cfg) && Current(s, cfg)
    ensures |InsideAll(s)| <= Max(0, cfg.concurrency)
  {
    forall r | r in InsideAll(s)
      ensures GlobalOf(s, r) in LiveAt(s.table, GlobalBucket, s.now) && GlobalOf(s, r) in s.requests[r].got
    {
      InsideIsLive(s, cfg, r);
    }
    InjectionCard(InsideAll(s), LiveAt(s.table, GlobalBucket, s.now), r => GlobalOf(s, r));
    assert LimitOf(cfg, GlobalBucket) == cfg.concurrency;
  }

  lemma GrantBound(s: State, cfg: Config, grant: string)
    requires Inv(s, cfg) && Current(s, cfg)
    ensures |InsideGrant(s, grant)| <= Max(0, cfg.perGrant)
  {
    forall r | r in InsideGrant(s, grant)
      ensures OwnOf(s, r) in LiveAt(s.table, GrantBucket(grant), s.now) && OwnOf(s, r) in s.requests[r].got
    {
      assert r in InsideAll(s);
      InsideIsLive(s, cfg, r);
    }
    InjectionCard(InsideGrant(s, grant), LiveAt(s.table, GrantBucket(grant), s.now), r => OwnOf(s, r));
    assert LimitOf(cfg, GrantBucket(grant)) == cfg.perGrant;
  }

  /**
   In every interleaving, at every instant at which the requests in the transport are timely,
   there are at most `concurrency` of them, and at most `perGrant` for each grant.
   */
  lemma TransportIsBounded(states: seq<State>, steps: seq<Step>, cfg: Config, timeoutMs: int, i: nat, grant: string)
    requires IsRun(states, steps, cfg) && i < |states| && cfg.leaseMs == LeaseMs(timeoutMs)
    requires Timely(states[i], timeoutMs)
          || (TimelyInclusive(states[i], timeoutMs) && timeoutMs * 2 < MIN_LEASE_MS)
    ensures |InsideAll(states[i])| <= Max(0, cfg.concurrency)
    ensures |InsideGrant(states[i], grant)| <= Max(0, cfg.perGrant)
  {
    RunKeepsInv(states, steps, cfg, i);
    GlobalBound(states[i], cfg);
    GrantBound(states[i], cfg, grant);
  }

  // ---------------------------------------------------------------- free buckets

  lemma FreeBucket(t: Table, cfg: Config, b: Bucket, now: int, id: nat)
    requires forall l | l in t && t[l].bucket == b :: t[l].expiry <= now
    requires LimitOf(cfg, b) >= 1 && 1 <= cfg.leaseMs <= MAX_LEASE_MS
    ensures Acquire(t, cfg, b, now, id) == Got(Purge(t, b, now)[id := Lease(b, now + cfg.leaseMs)])
  {
    assert InBucket(Purge(t, b, now), b) == {};
  }

  lemma GetsGlobal(s: State, cfg: Config, r: nat, s': State)
    requires Enabled(s, TryGlobal(r)) && s.requests[r].got == s.requests[r].held == {}
    requires forall l | l in s.table && s.table[l].bucket == GlobalBucket :: s.table[l].expiry <= s.now
    requires cfg.concurrency >= 1 && 1 <= cfg.leaseMs <= MAX_LEASE_MS
    requires s' == State(s.now, Purge(s.table, GlobalBucket, s.now)[s.next := Lease(GlobalBucket, s.now + cfg.leaseMs)],
                         s.requests[r := s.requests[r].(phase := WantGrant(s.next, s.now), got := {s.next},
                                                        held := {s.next})],
                         s.next + 1, s.lost)
    ensures Follows(s, TryGlobal(r), s', cfg)
  {
    FreeBucket(s.table, cfg, GlobalBucket, s.now, s.next);
    assert s.requests[r].got + {s.next} == {s.next};
  }

  lemma GetsGrant(s: State, cfg: Config, r: nat, s': State)
    requires Enabled(s, TryGrant(r))
    requires s.requests[r].got == s.requests[r].held == {s.requests[r].phase.global}
    requires forall l | l in s.table :: s.table[l].bucket != GrantBucket(s.requests[r].grant)
    requires cfg.perGrant >= 1 && 1 <= cfg.leaseMs <= MAX_LEASE_MS
    requires var q := s.requests[r];
             s' == State(s.now, s.table[s.next := Lease(GrantBucket(q.grant), s.now + cfg.leaseMs)],
                         s.requests[r := q.(phase := Inside(q.phase.global, q.phase.globalAt, s.next, s.now),
                                            got := {q.phase.global, s.next}, held := {q.phase.global, s.next})],
                         s.next + 1, s.lost)
    ensures Follows(s, TryGrant(r), s', cfg)
  {
    var q := s.requests[r];
    FreeBucket(s.table, cfg, GrantBucket(q.grant), s.now, s.next);
    assert Purge(s.table, GrantBucket(q.grant), s.now) == s.table;
    assert q.got + {s.next} == {q.phase.global, s.next};
  }

  // ---------------------------------------------------------------- what being served takes

  predicate LeaseAccepted(cfg: Config) {
    1 <= cfg.leaseMs <= MAX_LEASE_MS
  }

  /** A request past a lease shows that the coordinator accepts the lease and the limit of that bucket. */
  predicate PhaseAllowed(p: Phase, cfg: Config) {
    && (p.WantGrant? || p.Inside? || p.Refusing? ==> cfg.concurrency >= 1 && LeaseAccepted(cfg))
    && (p.Inside? ==> cfg.perGrant >= 1)
  }

  predicate AllAllowed(s: State, cfg: Config) {
    forall r | r in s.requests :: PhaseAllowed(s.requests[r].phase, cfg)
  }

  lemma StepKeepsAllowed(s: State, cfg: Config, step: Step)
    requires AllAllowed(s, cfg) && Enabled(s, step)
    ensures AllAllowed(Next(s, cfg, step), cfg)
  {
    var s' := Next(s, cfg, step);
    if !step.Tick? {
      assert s'.requests - {step.r} == s.requests - {step.r};
      assert PhaseAllowed(s'.requests[step.r].phase, cfg);
    }
  }

  /**
   A timeout above five minutes asks for a lease longer than the coordinator accepts, so in every
   run every acquisition fails and no request ever reaches the transport.
   */
  lemma {:induction false} LongTimeoutServesNobody(
      states: seq<State>, steps: seq<Step>, cfg: Config, timeoutMs: int, i: nat)
    requires IsRun(states, steps, cfg) && i < |states|
    requires cfg.leaseMs == LeaseMs(timeoutMs) && timeoutMs * 2 > MAX_LEASE_MS
    ensures states[i].table == map[]
    ensures forall r | r in states[i].requests ::
              var p := states[i].requests[r].phase; p.AtGate? || p.WantGlobal? || p.Done?
  {
    if i > 0 {
      LongTimeoutServesNobody(states, steps, cfg, timeoutMs, i - 1);
      assert Follows(states[i - 1], steps[i - 1], states[i], cfg);
    }
  }
}
