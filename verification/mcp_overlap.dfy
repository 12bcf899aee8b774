/**
 When the handler keeps its two limits: which runs of several processes do, and which requests are
 served at all.
 */
module McpOverlap {
  import opened Prelude
  import G = AdmissionGate
  import M = McpAdmission
  import opened McpProcesses

  // ---------------------------------------------------------------- the shared state of a run

  function StepOf(a: Action): M.Step {
    match a
    case Enter(r, _, grant, _) => M.Arrive(r, grant)
    case Do(step) => step
    case _ => M.Tick(0)
  }

  function Cores(states: seq<Sys>): seq<M.State> {
    seq(|states|, i requires 0 <= i < |states| => states[i].core)
  }

  function Steps(actions: seq<Action>): seq<M.Step> {
    seq(|actions|, i requires 0 <= i < |actions| => StepOf(actions[i]))
  }

  /** Whatever the gates do, the leases and the requests go through a run of the admission alone. */
  lemma RunProjects(states: seq<Sys>, actions: seq<Action>, cfg: M.Config)
    requires IsRun(states, actions, cfg)
    ensures M.IsRun(Cores(states), Steps(actions), cfg)
  {
    forall i | 0 <= i < |actions|
      ensures M.Follows(Cores(states)[i], Steps(actions)[i], Cores(states)[i + 1], cfg)
    {
      assert Follows(states[i], actions[i], states[i + 1], cfg);
    }
  }

  // ---------------------------------------------------------------- timely runs

  /** The state has requests of the first `n` processes only, none of them past its timeout. */
  ghost predicate Proper(s: Sys, timeoutMs: int, n: nat) {
    && M.TimelyInclusive(s.core, timeoutMs)
    && forall r | r in s.places :: s.places[r].process < n
  }

  ghost predicate ProperRun(states: seq<Sys>, actions: seq<Action>, cfg: M.Config, timeoutMs: int, n: nat) {
    IsRun(states, actions, cfg) && forall i | 0 <= i < |states| :: Proper(states[i], timeoutMs, n)
  }

  ghost predicate Reaches(cfg: M.Config, timeoutMs: int, n: nat, s: Sys) {
    exists states, actions ::
      ProperRun(states, actions, cfg, timeoutMs, n) && states[|states| - 1] == s
  }

  lemma Extend(cfg: M.Config, timeoutMs: int, n: nat, s: Sys, a: Action, s': Sys)
    requires Reaches(cfg, timeoutMs, n, s) && Follows(s, a, s', cfg) && Proper(s', timeoutMs, n)
    ensures Reaches(cfg, timeoutMs, n, s')
  {
    var states, actions :|
      ProperRun(states, actions, cfg, timeoutMs, n) && states[|states| - 1] == s;
    var longer, more := states + [s'], actions + [a];
    forall i | 0 <= i < |more| ensures Follows(longer[i], more[i], longer[i + 1], cfg) {
      if i < |actions| {
        assert Follows(states[i], actions[i], states[i + 1], cfg);
      }
    }
    forall i | 0 <= i < |longer| ensures Proper(longer[i], timeoutMs, n) {
      if i < |states| {
        assert Proper(states[i], timeoutMs, n);
      }
    }
    assert ProperRun(longer, more, cfg, timeoutMs, n) && longer[|longer| - 1] == s';
  }

  lemma Starts(cfg: M.Config, timeoutMs: int, n: nat)
    ensures Reaches(cfg, timeoutMs, n, Init(0))
  {
    assert ProperRun([Init(0)], [], cfg, timeoutMs, n) && [Init(0)][0] == Init(0);
  }

  /** A step between the gate and the transport leaves the gates alone. */
  lemma Advance(cfg: M.Config, timeoutMs: int, n: nat, s: Sys, step: M.Step, core: M.State)
    requires Reaches(cfg, timeoutMs, n, s) && Proper(s.(core := core), timeoutMs, n)
    requires M.Follows(s.core, step, core, cfg) && !step.Arrive? && !step.GateRefuses?
    requires step.GateAdmits? ==> HasSlot(s, step.r)
    requires !ReleasesSlot(s, step, core)
    ensures Reaches(cfg, timeoutMs, n, s.(core := core))
  {
    Extend(cfg, timeoutMs, n, s, Do(step), s.(core := core));
  }

  // ---------------------------------------------------------------- a request passes its gate

  function AtGate(grant: string): M.Request {
    M.Request(grant, M.AtGate, {}, {}, {}, false, 0)
  }

  function Passed(grant: string): M.Request {
    M.Request(grant, M.WantGlobal, {}, {}, {}, true, 0)
  }

  ghost predicate CanEnter(cfg: M.Config, s: Sys, r: nat, process: nat, grant: string) {
    var g := GateOf(s, process);
    && r !in s.core.requests && cfg.concurrency >= 1 && cfg.perGrant >= 1
    && !g.closed && G.Available(g, GateLimits(cfg), grant)
  }

  function Entered(s: Sys, r: nat, process: nat, q: M.Request): Sys {
    var g := GateOf(s, process);
    Sys(M.Put(s.core, r, q), s.gates[process := G.Reserve(g, g.next, q.grant).(next := g.next + 1)],
        s.places[r := Place(process, Some(g.next))])
  }

  lemma Passes(cfg: M.Config, timeoutMs: int, n: nat, s: Sys, r: nat, process: nat, grant: string)
    requires Reaches(cfg, timeoutMs, n, s) && Proper(s, timeoutMs, n)
    requires CanEnter(cfg, s, r, process, grant) && process < n
    ensures Reaches(cfg, timeoutMs, n, Entered(s, r, process, Passed(grant)))
    ensures Proper(Entered(s, r, process, Passed(grant)), timeoutMs, n)
  {
    var came := Entered(s, r, process, AtGate(grant));
    Extend(cfg, timeoutMs, n, s, Enter(r, process, grant, false), came);
    var core := Entered(s, r, process, Passed(grant)).core;
    assert core.requests == came.core.requests[r := Passed(grant)];
    Advance(cfg, timeoutMs, n, came, M.GateAdmits(r), core);
    assert came.(core := core) == Entered(s, r, process, Passed(grant));
  }

  // ---------------------------------------------------------------- a full first process

  /** A grant of its own for every request. */
  function Name(r: nat): (name: string)
    ensures |name| == r
  {
    if r == 0 then "" else Name(r - 1) + "g"
  }

  predicate IsHolding(q: M.Request, r: nat) {
    |q.grant| == r && q == M.Request(q.grant, M.WantGrant(r, 0), {r}, {r}, {}, true, 0)
  }

  predicate IsServed(q: M.Request, r: nat, timeoutMs: int) {
    |q.grant| == r && q.phase.Inside? && q.phase.globalAt == 0 && q.phase.ownAt == timeoutMs
  }

  /** The first `k` requests hold their global leases at time zero. */
  ghost predicate Gathered(core: M.State, cfg: M.Config, k: nat) {
    && core.now == 0 && core.next == k && |core.table| <= k && |core.requests| == k
    && (forall l | l in core.table :: l < k && core.table[l] == M.Lease(M.GlobalBucket, cfg.leaseMs))
    && (forall r | r in core.requests :: r < k && IsHolding(core.requests[r], r))
    && (forall r: nat | r < k :: r in core.requests)
  }

  /** They all came in at the first process, which has no other requests; the second has none. */
  ghost predicate Seats(s: Sys, k: nat) {
    && (forall r | r in s.places :: s.places[r].process == 0)
    && GateOf(s, 0).active == k && !GateOf(s, 0).closed
    && (forall g | g in GateOf(s, 0).grants :: |g| < k)
    && GateOf(s, 1) == G.Fresh()
  }

  ghost predicate AtStart(s: Sys, cfg: M.Config, timeoutMs: int, k: nat) {
    Reaches(cfg, timeoutMs, 2, s) && Gathered(s.core, cfg, k) && Seats(s, k)
  }

  lemma SeatsGrow(s: Sys, k: nat, r: nat, q: M.Request)
    requires Seats(s, k) && |q.grant| == k
    ensures Seats(Entered(s, r, 0, q), k + 1)
  {
  }

  lemma RoomForOne(core: M.State, cfg: M.Config, k: nat)
    requires Gathered(core, cfg, k) && k < cfg.concurrency && M.LeaseAccepted(cfg)
    ensures M.Acquire(core.table, cfg, M.GlobalBucket, 0, k)
         == M.Got(core.table[k := M.Lease(M.GlobalBucket, cfg.leaseMs)])
  {
    assert M.Purge(core.table, M.GlobalBucket, 0) == core.table;
    SubsetCard(M.InBucket(core.table, M.GlobalBucket), core.table.Keys);
    assert |core.table.Keys| == |core.table|;
  }

  function WithGlobal(core: M.State, cfg: M.Config, k: nat, name: string): M.State {
    var q := Passed(name).(phase := M.WantGrant(k, 0), got := {k}, held := {k});
    M.State(0, core.table[k := M.Lease(M.GlobalBucket, cfg.leaseMs)], core.requests[k := q], k + 1, core.lost)
  }

  lemma TakesGlobal(core: M.State, cfg: M.Config, k: nat, name: string)
    requires Gathered(core, cfg, k) && k < cfg.concurrency && M.LeaseAccepted(cfg)
    ensures M.Follows(M.Put(core, k, Passed(name)), M.TryGlobal(k), WithGlobal(core, cfg, k, name), cfg)
  {
    var core' := WithGlobal(core, cfg, k, name);
    RoomForOne(core, cfg, k);
    assert M.Put(core, k, Passed(name)).requests[k := core'.requests[k]] == core'.requests;
    assert {} + {k} == {k};
  }

  lemma OneMoreGathered(core: M.State, cfg: M.Config, k: nat, name: string)
    requires Gathered(core, cfg, k) && |name| == k
    ensures Gathered(WithGlobal(core, cfg, k, name), cfg, k + 1)
  {
  }

  lemma GatheredIsProper(s: Sys, cfg: M.Config, timeoutMs: int, k: nat)
    requires Seats(s, k) && Gathered(s.core, cfg, k)
    ensures Proper(s, timeoutMs, 2)
  {
  }

  lemma GatherOne(s: Sys, cfg: M.Config, timeoutMs: int, k: nat) returns (s': Sys)
    requires AtStart(s, cfg, timeoutMs, k) && k < cfg.concurrency && cfg.perGrant >= 1 && M.LeaseAccepted(cfg)
    ensures AtStart(s', cfg, timeoutMs, k + 1)
  {
    var name, core := Name(k), WithGlobal(s.core, cfg, k, Name(k));
    GatheredIsProper(s, cfg, timeoutMs, k);
    Passes(cfg, timeoutMs, 2, s, k, 0, name);
    SeatsGrow(s, k, k, Passed(name));
    TakesGlobal(s.core, cfg, k, name);
    OneMoreGathered(s.core, cfg, k, name);
    var came := Entered(s, k, 0, Passed(name));
    s' := came.(core := core);
    GatheredIsProper(s', cfg, timeoutMs, k + 1);
    Advance(cfg, timeoutMs, 2, came, M.TryGlobal(k), core);
  }

  lemma {:induction false} Gather(cfg: M.Config, timeoutMs: int, k: nat) returns (s: Sys)
    requires k <= cfg.concurrency && cfg.perGrant >= 1 && M.LeaseAccepted(cfg)
    ensures AtStart(s, cfg, timeoutMs, k)
  {
    if k == 0 {
      Starts(cfg, timeoutMs, 2);
      s := Init(0);
    } else {
      var t := Gather(cfg, timeoutMs, k - 1);
      s := GatherOne(t, cfg, timeoutMs, k - 1);
    }
  }

  /** Of `c` requests with a global lease, `k` have taken their second lease one timeout later. */
  ghost predicate Paired(core: M.State, cfg: M.Config, timeoutMs: int, c: nat, k: nat) {
    && core.next == c + k && |core.requests| == c
    && (forall l | l in core.table ::
          && l < c + k
          && (if core.table[l].bucket.GlobalBucket? then core.table[l].expiry == cfg.leaseMs
              else |core.table[l].bucket.grant| < k))
    && (forall r | r in core.requests ::
          r < c && if r < k then IsServed(core.requests[r], r, timeoutMs) else IsHolding(core.requests[r], r))
    && (forall r: nat | r < c :: r in core.requests)
  }

  ghost predicate AtTimeout(s: Sys, cfg: M.Config, timeoutMs: int, c: nat, k: nat) {
    && Reaches(cfg, timeoutMs, 2, s) && Seats(s, c)
    && s.core.now == timeoutMs && Paired(s.core, cfg, timeoutMs, c, k)
  }

  lemma PairedIsProper(s: Sys, cfg: M.Config, timeoutMs: nat, c: nat, k: nat)
    requires Seats(s, c) && Paired(s.core, cfg, timeoutMs, c, k) && s.core.now <= timeoutMs * 2
    ensures Proper(s, timeoutMs, 2)
  {
  }

  lemma TakesOwn(core: M.State, cfg: M.Config, timeoutMs: int, c: nat, k: nat) returns (core': M.State)
    requires core.now == timeoutMs && Paired(core, cfg, timeoutMs, c, k) && k < c
    requires cfg.perGrant >= 1 && M.LeaseAccepted(cfg)
    ensures M.Follows(core, M.TryGrant(k), core', cfg)
    ensures core'.now == timeoutMs && Paired(core', cfg, timeoutMs, c, k + 1)
    ensures k in core'.requests && core'.requests[k].gateReleases == 0
  {
    var q := core.requests[k];
    assert IsHolding(q, k);
    var own := c + k;
    core' := M.State(timeoutMs, core.table[own := M.Lease(M.GrantBucket(q.grant), timeoutMs + cfg.leaseMs)],
                     core.requests[k := q.(phase := M.Inside(k, 0, own, timeoutMs), got := {k, own}, held := {k, own})],
                     own + 1, core.lost);
    M.GetsGrant(core, cfg, k, core');
  }

  lemma PairOne(s: Sys, cfg: M.Config, timeoutMs: nat, c: nat, k: nat) returns (s': Sys)
    requires k < c && AtTimeout(s, cfg, timeoutMs, c, k) && cfg.perGrant >= 1 && M.LeaseAccepted(cfg)
    ensures AtTimeout(s', cfg, timeoutMs, c, k + 1)
  {
    var core := TakesOwn(s.core, cfg, timeoutMs, c, k);
    s' := s.(core := core);
    PairedIsProper(s', cfg, timeoutMs, c, k + 1);
    Advance(cfg, timeoutMs, 2, s, M.TryGrant(k), core);
  }

  lemma {:induction false} Pair(cfg: M.Config, timeoutMs: nat, c: nat, k: nat) returns (s: Sys)
    requires k <= c <= cfg.concurrency && cfg.perGrant >= 1 && M.LeaseAccepted(cfg)
    ensures AtTimeout(s, cfg, timeoutMs, c, k)
  {
    if k == 0 {
      var t := Gather(cfg, timeoutMs, c);
      s := Wait(t, cfg, timeoutMs, c);
    } else {
      var t := Pair(cfg, timeoutMs, c, k - 1);
      s := PairOne(t, cfg, timeoutMs, c, k - 1);
    }
  }

  lemma Wait(t: Sys, cfg: M.Config, timeoutMs: nat, c: nat) returns (s: Sys)
    requires AtStart(t, cfg, timeoutMs, c)
    ensures AtTimeout(s, cfg, timeoutMs, c, 0)
  {
    s := t.(core := t.core.(now := timeoutMs));
    PairedIsProper(s, cfg, timeoutMs, c, 0);
    Advance(cfg, timeoutMs, 2, t, M.Tick(timeoutMs), s.core);
  }

  // ---------------------------------------------------------------- one request too many

  /** All global leases have expired and the grant has none. */
  ghost predicate NothingInTheWay(core: M.State, grant: string) {
    && core.next !in core.table
    && forall l | l in core.table ::
         if core.table[l].bucket.GlobalBucket? then core.table[l].expiry <= core.now
         else core.table[l].bucket.grant != grant
  }

  function FirstLease(core: M.State, cfg: M.Config, r: nat, grant: string): M.State {
    var g, at := core.next, core.now;
    M.State(at, M.Purge(core.table, M.GlobalBucket, at)[g := M.Lease(M.GlobalBucket, at + cfg.leaseMs)],
            core.requests[r := Passed(grant).(phase := M.WantGrant(g, at), got := {g}, held := {g})],
            g + 1, core.lost)
  }

  function BothLeases(core: M.State, cfg: M.Config, r: nat, grant: string): M.State {
    var g, at := core.next, core.now;
    var one := FirstLease(core, cfg, r, grant);
    var q := Passed(grant).(phase := M.Inside(g, at, g + 1, at), got := {g, g + 1}, held := {g, g + 1});
    M.State(at, one.table[g + 1 := M.Lease(M.GrantBucket(grant), at + cfg.leaseMs)],
            one.requests[r := q], g + 2, core.lost)
  }

  lemma GetsBoth(core: M.State, cfg: M.Config, r: nat, grant: string)
    requires r in core.requests && core.requests[r] == Passed(grant)
    requires NothingInTheWay(core, grant) && cfg.concurrency >= 1 && cfg.perGrant >= 1 && M.LeaseAccepted(cfg)
    ensures M.Follows(core, M.TryGlobal(r), FirstLease(core, cfg, r, grant), cfg)
    ensures M.Follows(FirstLease(core, cfg, r, grant), M.TryGrant(r), BothLeases(core, cfg, r, grant), cfg)
  {
    M.GetsGlobal(core, cfg, r, FirstLease(core, cfg, r, grant));
    M.GetsGrant(FirstLease(core, cfg, r, grant), cfg, r, BothLeases(core, cfg, r, grant));
  }

  lemma BothIsProper(s: Sys, cfg: M.Config, timeoutMs: nat, n: nat, r: nat, grant: string)
    requires Proper(s, timeoutMs, n)
    ensures Proper(s.(core := FirstLease(s.core, cfg, r, grant)), timeoutMs, n)
    ensures Proper(s.(core := BothLeases(s.core, cfg, r, grant)), timeoutMs, n)
  {
  }

  lemma ServedFrom(s: Sys, cfg: M.Config, timeoutMs: nat, n: nat, r: nat, grant: string) returns (s': Sys)
    requires Reaches(cfg, timeoutMs, n, s) && Proper(s, timeoutMs, n)
    requires r in s.core.requests && s.core.requests[r] == Passed(grant)
    requires NothingInTheWay(s.core, grant) && cfg.concurrency >= 1 && cfg.perGrant >= 1 && M.LeaseAccepted(cfg)
    ensures Reaches(cfg, timeoutMs, n, s') && M.InsideAll(s'.core) == M.InsideAll(s.core) + {r}
  {
    var one, two := FirstLease(s.core, cfg, r, grant), BothLeases(s.core, cfg, r, grant);
    GetsBoth(s.core, cfg, r, grant);
    BothIsProper(s, cfg, timeoutMs, n, r, grant);
    Advance(cfg, timeoutMs, n, s, M.TryGlobal(r), one);
    Advance(cfg, timeoutMs, n, s.(core := one), M.TryGrant(r), two);
    s' := s.(core := two);
  }

  /** A request that finds room at its gate and nothing in its way reaches the transport at once. */
  lemma ServeNext(s: Sys, cfg: M.Config, timeoutMs: nat, n: nat, r: nat, process: nat, grant: string)
    returns (s': Sys)
    requires Reaches(cfg, timeoutMs, n, s) && Proper(s, timeoutMs, n) && process < n
    requires CanEnter(cfg, s, r, process, grant) && NothingInTheWay(s.core, grant) && M.LeaseAccepted(cfg)
    ensures Reaches(cfg, timeoutMs, n, s') && M.InsideAll(s'.core) == M.InsideAll(s.core) + {r}
  {
    Passes(cfg, timeoutMs, n, s, r, process, grant);
    var came := Entered(s, r, process, Passed(grant));
    s' := ServedFrom(came, cfg, timeoutMs, n, r, grant);
    assert M.InsideAll(came.core) == M.InsideAll(s.core);
  }

  /**
   Two processes, and a timeout for which the lease is just twice as long: the first process fills up at
   time zero, its requests take their second lease one timeout later, and when they have been in the
   transport for one timeout the leases expire and the second process lets one more request in.
   */
  lemma LastInstantOverlap(cfg: M.Config, timeoutMs: int) returns (s: Sys)
    requires cfg.concurrency >= 1 && cfg.perGrant >= 1
    requires cfg.leaseMs == Max(60_000, timeoutMs * 2) && 60_000 <= timeoutMs * 2 <= 600_000
    ensures Reaches(cfg, timeoutMs, 2, s) && |M.InsideAll(s.core)| == cfg.concurrency + 1
  {
    var c: nat := cfg.concurrency;
    var t := Pair(cfg, timeoutMs, c, c);
    var u := t.(core := t.core.(now := timeoutMs * 2));
    PairedIsProper(u, cfg, timeoutMs, c, c);
    Advance(cfg, timeoutMs, 2, t, M.Tick(timeoutMs), u.core);
    FullAtTheEnd(u, cfg, timeoutMs, c);
    s := ServeNext(u, cfg, timeoutMs, 2, c, 1, Name(c));
  }

  lemma FullAtTheEnd(u: Sys, cfg: M.Config, timeoutMs: nat, c: nat)
    requires Seats(u, c) && Paired(u.core, cfg, timeoutMs, c, c) && u.core.now == cfg.leaseMs
    ensures NothingInTheWay(u.core, Name(c)) && |M.InsideAll(u.core)| == c && c !in M.InsideAll(u.core)
    ensures c !in u.core.requests
  {
    assert M.InsideAll(u.core) == u.core.requests.Keys;
  }

  // ---------------------------------------------------------------- exactly when

  /** Both limits hold at every instant of every run of at most `n` processes that respects the timeout. */
  ghost predicate LimitsHold(cfg: M.Config, timeoutMs: int, n: nat) {
    forall s | Reaches(cfg, timeoutMs, n, s) :: WithinLimits(s.core, cfg)
  }

  lemma {:induction false} RunIsAllowed(states: seq<M.State>, steps: seq<M.Step>, cfg: M.Config, i: nat)
    requires M.IsRun(states, steps, cfg) && i < |states|
    ensures M.AllAllowed(states[i], cfg)
  {
    if i > 0 {
      RunIsAllowed(states, steps, cfg, i - 1);
      assert M.Follows(states[i - 1], steps[i - 1], states[i], cfg);
      M.StepKeepsAllowed(states[i - 1], cfg, steps[i - 1]);
    }
  }

  ghost predicate EndsServed(states: seq<Sys>, actions: seq<Action>, cfg: M.Config) {
    IsRun(states, actions, cfg) && M.InsideAll(states[|states| - 1].core) != {}
  }

  /** Some run of any number of processes brings some request into the transport. */
  ghost predicate Serves(cfg: M.Config) {
    exists states, actions :: EndsServed(states, actions, cfg)
  }

  lemma ServingTakes(states: seq<Sys>, actions: seq<Action>, cfg: M.Config)
    requires EndsServed(states, actions, cfg)
    ensures cfg.concurrency >= 1 && cfg.perGrant >= 1 && M.LeaseAccepted(cfg)
  {
    var core := states[|states| - 1].core;
    RunProjects(states, actions, cfg);
    RunIsAllowed(Cores(states), Steps(actions), cfg, |states| - 1);
    var r :| r in M.InsideAll(core);
    assert M.PhaseAllowed(core.requests[r].phase, cfg);
  }

  /**
   Requests can be served exactly when both limits are positive and the coordinator accepts the lease.
   */
  lemma ServesIff(cfg: M.Config)
    ensures Serves(cfg) <==> cfg.concurrency >= 1 && cfg.perGrant >= 1 && 1 <= cfg.leaseMs <= 600_000
  {
    if Serves(cfg) {
      var states, actions :| EndsServed(states, actions, cfg);
      ServingTakes(states, actions, cfg);
    }
    if cfg.concurrency >= 1 && cfg.perGrant >= 1 && M.LeaseAccepted(cfg) {
      Starts(cfg, 0, 1);
      var s := ServeNext(Init(0), cfg, 0, 1, 0, 0, "");
      assert 0 in M.InsideAll(s.core);
      var states, actions :| ProperRun(states, actions, cfg, 0, 1) && states[|states| - 1] == s;
      assert EndsServed(states, actions, cfg);
    }
  }

  lemma OneProcessHolds(cfg: M.Config, timeoutMs: int, n: nat)
    requires n <= 1
    ensures LimitsHold(cfg, timeoutMs, n)
  {
    forall s | Reaches(cfg, timeoutMs, n, s) ensures WithinLimits(s.core, cfg) {
      var states, actions :| ProperRun(states, actions, cfg, timeoutMs, n) && states[|states| - 1] == s;
      assert Proper(states[|states| - 1], timeoutMs, n);
      SingleProcessKeepsLimits(states, actions, cfg, |states| - 1, 0);
    }
  }

  /**
   However many processes there are, the limits hold while no transport has used its timeout up, or while
   the lease is longer than two timeouts.
   */
  lemma StrictTimeoutHolds(states: seq<Sys>, actions: seq<Action>, cfg: M.Config, timeoutMs: int, i: nat)
    requires IsRun(states, actions, cfg) && i < |states| && cfg.leaseMs == Max(60_000, timeoutMs * 2)
    requires || M.Timely(states[i].core, timeoutMs)
             || (M.TimelyInclusive(states[i].core, timeoutMs) && timeoutMs * 2 < 60_000)
    ensures WithinLimits(states[i].core, cfg)
  {
    RunProjects(states, actions, cfg);
    assert Cores(states)[i] == states[i].core;
    forall grant
      ensures |M.InsideAll(states[i].core)| <= Max(0, cfg.concurrency)
      ensures |M.InsideGrant(states[i].core, grant)| <= Max(0, cfg.perGrant)
    {
      M.TransportIsBounded(Cores(states), Steps(actions), cfg, timeoutMs, i, grant);
    }
    M.TransportIsBounded(Cores(states), Steps(actions), cfg, timeoutMs, i, "");
  }

  lemma ShortTimeoutHolds(cfg: M.Config, timeoutMs: int, n: nat)
    requires cfg.leaseMs == Max(60_000, timeoutMs * 2) && timeoutMs * 2 < 60_000
    ensures LimitsHold(cfg, timeoutMs, n)
  {
    forall s | Reaches(cfg, timeoutMs, n, s) ensures WithinLimits(s.core, cfg) {
      var states, actions :| ProperRun(states, actions, cfg, timeoutMs, n) && states[|states| - 1] == s;
      assert Proper(states[|states| - 1], timeoutMs, n);
      StrictTimeoutHolds(states, actions, cfg, timeoutMs, |states| - 1);
    }
  }

  lemma UnservedHolds(cfg: M.Config, timeoutMs: int, n: nat)
    requires !Serves(cfg)
    ensures LimitsHold(cfg, timeoutMs, n)
  {
    forall s | Reaches(cfg, timeoutMs, n, s) ensures WithinLimits(s.core, cfg) {
      var states, actions :| ProperRun(states, actions, cfg, timeoutMs, n) && states[|states| - 1] == s;
      assert !EndsServed(states, actions, cfg);
      forall grant ensures M.InsideGrant(s.core, grant) == {} {
        assert M.InsideGrant(s.core, grant) <= M.InsideAll(s.core);
      }
    }
  }

  /**
   The two limits hold exactly when there is one process, nothing can be served, or twice the timeout
   is below the least lease.
   */
  lemma LimitsHoldIff(cfg: M.Config, timeoutMs: int, n: nat)
    requires cfg.leaseMs == Max(60_000, timeoutMs * 2)
    ensures LimitsHold(cfg, timeoutMs, n) <==>
            || n <= 1 || cfg.concurrency < 1 || cfg.perGrant < 1
            || timeoutMs * 2 < 60_000 || timeoutMs * 2 > 600_000
  {
    ServesIff(cfg);
    if n <= 1 {
      OneProcessHolds(cfg, timeoutMs, n);
    } else if !Serves(cfg) {
      UnservedHolds(cfg, timeoutMs, n);
    } else if timeoutMs * 2 < 60_000 {
      ShortTimeoutHolds(cfg, timeoutMs, n);
    } else {
      var s := LastInstantOverlap(cfg, timeoutMs);
      MoreProcesses(cfg, timeoutMs, n, s);
      assert !WithinLimits(s.core, cfg);
    }
  }

  lemma MoreProcesses(cfg: M.Config, timeoutMs: int, n: nat, s: Sys)
    requires n >= 2 && Reaches(cfg, timeoutMs, 2, s)
    ensures Reaches(cfg, timeoutMs, n, s)
  {
    var states, actions :| ProperRun(states, actions, cfg, timeoutMs, 2) && states[|states| - 1] == s;
    forall i | 0 <= i < |states| ensures Proper(states[i], timeoutMs, n) {
      assert Proper(states[i], timeoutMs, 2);
    }
    assert ProperRun(states, actions, cfg, timeoutMs, n);
  }

  // ---------------------------------------------------------------- a full house

  /** `k` requests of one grant are in the transport, all since time zero. */
  ghost predicate House(core: M.State, cfg: M.Config, k: nat) {
    core.now == 0 && core.next == 2 * k && Guests(core.requests, k) && Leases(core.table, cfg.leaseMs, k)
  }

  ghost predicate Guests(requests: map<nat, M.Request>, k: nat) {
    && |requests| == k
    && forall r | r in requests :: r < k && requests[r].grant == "" && IsInsideSince(requests[r], 0)
  }

  ghost predicate Leases(t: M.Table, expiry: int, k: nat) {
    && |M.LiveAt(t, M.GlobalBucket, 0)| <= k && |M.LiveAt(t, M.GrantBucket(""), 0)| <= k
    && forall l | l in t :: l < 2 * k && t[l].expiry == expiry
  }

  predicate IsInsideSince(q: M.Request, at: int) {
    q.phase.Inside? && q.phase.globalAt == at && q.phase.ownAt == at
  }

  ghost predicate OneGate(s: Sys, k: nat) {
    && (forall r | r in s.places :: s.places[r].process == 0)
    && GateOf(s, 0).active == k && !GateOf(s, 0).closed && G.Running(GateOf(s, 0), "") == k
  }

  lemma HouseIsProper(s: Sys, cfg: M.Config, k: nat)
    requires OneGate(s, k) && House(s.core, cfg, k)
    ensures Proper(s, 0, 1)
  {
  }

  function HouseGlobal(core: M.State, cfg: M.Config, k: nat): M.State {
    var q := Passed("").(phase := M.WantGrant(2 * k, 0), got := {2 * k}, held := {2 * k});
    M.State(0, core.table[2 * k := M.Lease(M.GlobalBucket, cfg.leaseMs)], core.requests[k := q], 2 * k + 1, core.lost)
  }

  function HouseBoth(core: M.State, cfg: M.Config, k: nat): M.State {
    var g, own := 2 * k, 2 * k + 1;
    var q := Passed("").(phase := M.Inside(g, 0, own, 0), got := {g, own}, held := {g, own});
    M.State(0, HouseGlobal(core, cfg, k).table[own := M.Lease(M.GrantBucket(""), cfg.leaseMs)],
            core.requests[k := q], 2 * k + 2, core.lost)
  }

  lemma HouseTakesGlobal(core: M.State, cfg: M.Config, k: nat)
    requires House(core, cfg, k) && k < cfg.concurrency && M.LeaseAccepted(cfg)
    ensures M.Follows(M.Put(core, k, Passed("")), M.TryGlobal(k), HouseGlobal(core, cfg, k), cfg)
  {
    assert M.Purge(core.table, M.GlobalBucket, 0) == core.table;
    M.AcquireVerdict(core.table, cfg, M.GlobalBucket, 0, 2 * k);
    assert M.Put(core, k, Passed("")).requests[k := HouseGlobal(core, cfg, k).requests[k]]
        == HouseGlobal(core, cfg, k).requests;
    assert {} + {2 * k} == {2 * k};
  }

  lemma HouseTakesOwn(core: M.State, cfg: M.Config, k: nat)
    requires House(core, cfg, k) && k < cfg.perGrant && M.LeaseAccepted(cfg)
    ensures M.Follows(HouseGlobal(core, cfg, k), M.TryGrant(k), HouseBoth(core, cfg, k), cfg)
  {
    var one := HouseGlobal(core, cfg, k);
    assert M.Purge(one.table, M.GrantBucket(""), 0) == one.table;
    assert M.LiveAt(one.table, M.GrantBucket(""), 0) == M.LiveAt(core.table, M.GrantBucket(""), 0);
    M.AcquireVerdict(one.table, cfg, M.GrantBucket(""), 0, 2 * k + 1);
    assert one.requests[k := HouseBoth(core, cfg, k).requests[k]] == HouseBoth(core, cfg, k).requests;
    assert {2 * k} + {2 * k + 1} == {2 * k, 2 * k + 1};
  }

  lemma OneLeaseEach(t: M.Table, g: nat, expiry: int, b: M.Bucket)
    requires g !in t && g + 1 !in t && expiry > 0 && (b == M.GlobalBucket || b == M.GrantBucket(""))
    ensures var u := t[g := M.Lease(M.GlobalBucket, expiry)][g + 1 := M.Lease(M.GrantBucket(""), expiry)];
            |M.LiveAt(u, b, 0)| == |M.LiveAt(t, b, 0)| + 1
  {
    var first, second := M.Lease(M.GlobalBucket, expiry), M.Lease(M.GrantBucket(""), expiry);
    M.LiveAtAdd(t, g, first, b, 0);
    M.LiveAtAdd(t[g := first], g + 1, second, b, 0);
  }

  lemma LeasesGrow(t: M.Table, expiry: int, k: nat)
    requires Leases(t, expiry, k) && expiry > 0
    ensures var g := 2 * k;
            Leases(t[g := M.Lease(M.GlobalBucket, expiry)][g + 1 := M.Lease(M.GrantBucket(""), expiry)], expiry, k + 1)
  {
    OneLeaseEach(t, 2 * k, expiry, M.GlobalBucket);
    OneLeaseEach(t, 2 * k, expiry, M.GrantBucket(""));
  }

  lemma HouseGrows(core: M.State, cfg: M.Config, k: nat)
    requires House(core, cfg, k) && M.LeaseAccepted(cfg)
    ensures House(HouseBoth(core, cfg, k), cfg, k + 1)
  {
    LeasesGrow(core.table, cfg.leaseMs, k);
  }

  lemma HouseOne(s: Sys, cfg: M.Config, k: nat) returns (s': Sys)
    requires Reaches(cfg, 0, 1, s) && OneGate(s, k) && House(s.core, cfg, k)
    requires k < cfg.concurrency && k < cfg.perGrant && M.LeaseAccepted(cfg)
    ensures Reaches(cfg, 0, 1, s') && OneGate(s', k + 1) && House(s'.core, cfg, k + 1)
  {
    HouseIsProper(s, cfg, k);
    Passes(cfg, 0, 1, s, k, 0, "");
    var came := Entered(s, k, 0, Passed(""));
    var one, two := HouseGlobal(s.core, cfg, k), HouseBoth(s.core, cfg, k);
    HouseTakesGlobal(s.core, cfg, k);
    HouseTakesOwn(s.core, cfg, k);
    HouseGrows(s.core, cfg, k);
    Advance(cfg, 0, 1, came, M.TryGlobal(k), one);
    Advance(cfg, 0, 1, came.(core := one), M.TryGrant(k), two);
    s' := came.(core := two);
  }

  lemma {:induction false} FillHouse(cfg: M.Config, k: nat) returns (s: Sys)
    requires k <= cfg.concurrency && k <= cfg.perGrant && M.LeaseAccepted(cfg)
    ensures Reaches(cfg, 0, 1, s) && OneGate(s, k) && House(s.core, cfg, k)
  {
    if k == 0 {
      Starts(cfg, 0, 1);
      s := Init(0);
      assert M.LiveAt(map[], M.GlobalBucket, 0) == {} && M.LiveAt(map[], M.GrantBucket(""), 0) == {};
    } else {
      var t := FillHouse(cfg, k - 1);
      s := HouseOne(t, cfg, k - 1);
    }
  }

  /**
   Both limits are reached, even within one process and by one grant: some run has as many requests of
   one grant in the transport at once as the smaller limit allows.
   */
  lemma LimitIsReached(cfg: M.Config) returns (s: Sys)
    requires cfg.concurrency >= 1 && cfg.perGrant >= 1 && 1 <= cfg.leaseMs <= 600_000
    ensures Reaches(cfg, 0, 1, s)
    ensures |M.InsideGrant(s.core, "")| == if cfg.perGrant < cfg.concurrency then cfg.perGrant else cfg.concurrency
  {
    var k: nat := if cfg.perGrant < cfg.concurrency then cfg.perGrant else cfg.concurrency;
    s := FillHouse(cfg, k);
    assert M.InsideGrant(s.core, "") == s.core.requests.Keys;
  }
}
