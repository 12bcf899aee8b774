/**
 The MCP handler in several processes.  Each process admits its requests through its own gate, with
 the same two limits as the shared leases, and a request keeps its slot at the gate until it answers.
 */
module McpProcesses {
  import opened Prelude
  import G = AdmissionGate
  import M = McpAdmission

  /** The process a request came in at, and its identifier at that gate unless the gate turned it away. */
  datatype Place = Place(process: nat, slot: Option<nat>)

  datatype Sys = Sys(core: M.State, gates: map<nat, G.State>, places: map<nat, Place>)

  /** `Cancel` is the gate's timer or an abort; `Shut` closes one process; the rest are the handler's steps. */
  datatype Action =
    | Enter(r: nat, process: nat, grant: string, aborted: bool)
    | Cancel(r: nat)
    | Shut(process: nat)
    | Do(step: M.Step)

  function GateLimits(cfg: M.Config): G.Limits {
    G.Limits(cfg.concurrency, cfg.perGrant)
  }

  function GateOf(s: Sys, process: nat): G.State {
    if process in s.gates then s.gates[process] else G.Fresh()
  }

  predicate Placed(s: Sys, r: nat) {
    r in s.places && s.places[r].slot.Some?
  }

  /** The gate has handed the request a slot. */
  predicate HasSlot(s: Sys, r: nat) {
    Placed(s, r) && s.places[r].slot.value in GateOf(s, s.places[r].process).live
  }

  predicate Waits(s: Sys, r: nat) {
    && Placed(s, r)
    && G.Position(GateOf(s, s.places[r].process).waiting, s.places[r].slot.value) != -1
  }

  predicate Enabled(s: Sys, a: Action) {
    match a
    case Enter(r, _, _, _) => r !in s.core.requests
    case Cancel(r) => Placed(s, r)
    case Shut(_) => true
    case Do(step) =>
      && !step.Arrive? && M.Enabled(s.core, step)
      && (step.GateAdmits? ==> HasSlot(s, step.r))
      && (step.GateRefuses? ==> !HasSlot(s, step.r) && !Waits(s, step.r))
  }

  function SlotOf(outcome: G.Acquired): Option<nat> {
    match outcome
    case Refused => None
    case Granted(id) => Some(id)
    case Queued(id) => Some(id)
  }

  /** The step runs the release that the gate gave the request. */
  predicate ReleasesSlot(s: Sys, step: M.Step, core: M.State) {
    && !step.Tick? && Placed(s, step.r) && step.r in s.core.requests && step.r in core.requests
    && core.requests[step.r].gateReleases > s.core.requests[step.r].gateReleases
  }

  function WithGate(s: Sys, process: nat, gate: G.State): Sys {
    s.(gates := s.gates[process := gate])
  }

  function Next(s: Sys, cfg: M.Config, a: Action): Sys
    requires Enabled(s, a)
  {
    match a
    case Enter(r, process, grant, aborted) =>
      var (gate, outcome) := G.Acquire(GateOf(s, process), GateLimits(cfg), grant, aborted);
      Sys(M.Next(s.core, cfg, M.Arrive(r, grant)), s.gates[process := gate],
          s.places[r := Place(process, SlotOf(outcome))])
    case Cancel(r) =>
      var place := s.places[r];
      WithGate(s, place.process, G.Cancel(GateOf(s, place.process), place.slot.value))
    case Shut(process) => WithGate(s, process, G.Close(GateOf(s, process)))
    case Do(step) =>
      var core := M.Next(s.core, cfg, step);
      if ReleasesSlot(s, step, core) then
        var place := s.places[step.r];
        var gate := G.Release(GateOf(s, place.process), GateLimits(cfg), place.slot.value);
        WithGate(s, place.process, gate).(core := core)
      else s.(core := core)
  }

  ghost predicate Follows(s: Sys, a: Action, s': Sys, cfg: M.Config) {
    Enabled(s, a) && s' == Next(s, cfg, a)
  }

  function Init(now: int): Sys {
    Sys(M.Init(now), map[], map[])
  }

  ghost predicate IsRun(states: seq<Sys>, actions: seq<Action>, cfg: M.Config) {
    && |states| == |actions| + 1 && states[0] == Init(states[0].core.now)
    && forall i | 0 <= i < |actions| :: Follows(states[i], actions[i], states[i + 1], cfg)
  }

  // ---------------------------------------------------------------- what the gate does to a slot

  /** If the gate knows the identifier, as holder or waiter, it is for this grant. */
  ghost predicate IsFor(g: G.State, id: nat, grant: string) {
    && (id in g.live ==> g.live[id] == grant)
    && (forall i | 0 <= i < |g.waiting| :: g.waiting[i].id == id ==> g.waiting[i].grant == grant)
  }

  lemma {:induction false} HandOverKeepsSlot(g: G.State, lim: G.Limits, id: nat, grant: string)
    requires IsFor(g, id, grant)
    ensures IsFor(G.HandOver(g, lim), id, grant)
    ensures id in g.live ==> id in G.HandOver(g, lim).live
    ensures G.HandOver(g, lim).next == g.next
    decreases |g.waiting|
  {
    var i := G.FirstAvailable(g, lim, 0);
    if !g.closed && i != -1 {
      var a := G.Admit(g, i);
      forall k | 0 <= k < |a.waiting| && a.waiting[k].id == id ensures a.waiting[k].grant == grant {
        assert a.waiting[k] == g.waiting[if k < i then k else k + 1];
      }
      HandOverKeepsSlot(a, lim, id, grant);
    }
  }

  /** A release gives away no slot but its own. */
  lemma ReleaseKeepsSlot(g: G.State, lim: G.Limits, id: nat, other: nat, grant: string)
    requires IsFor(g, other, grant)
    ensures IsFor(G.Release(g, lim, id), other, grant)
    ensures other != id && other in g.live ==> other in G.Release(g, lim, id).live
    ensures G.Release(g, lim, id).next == g.next
  {
    if id in g.live {
      HandOverKeepsSlot(G.Freed(g, id), lim, other, grant);
    }
  }

  lemma AcquireKeepsSlot(g: G.State, lim: G.Limits, asked: string, aborted: bool, id: nat, grant: string)
    requires IsFor(g, id, grant) && id < g.next
    ensures var g' := G.Acquire(g, lim, asked, aborted).0;
            IsFor(g', id, grant) && (id in g.live ==> id in g'.live) && g'.next >= g.next
  {
  }

  lemma AcquireGivesSlot(g: G.State, lim: G.Limits, grant: string, aborted: bool)
    requires G.Valid(g, lim)
    ensures var (g', outcome) := G.Acquire(g, lim, grant, aborted);
            SlotOf(outcome).Some? ==> SlotOf(outcome).value == g.next < g'.next && IsFor(g', g.next, grant)
  {
  }

  lemma CancelKeepsSlot(g: G.State, cancelled: nat, id: nat, grant: string)
    requires IsFor(g, id, grant)
    ensures IsFor(G.Cancel(g, cancelled), id, grant)
    ensures G.Cancel(g, cancelled).live == g.live && G.Cancel(g, cancelled).next == g.next
  {
  }

  // ---------------------------------------------------------------- the invariant

  predicate HoldsGate(q: M.Request) {
    q.passed && q.gateReleases == 0
  }

  ghost predicate PlaceOk(s: Sys, r: nat) {
    && r in s.places && r in s.core.requests
    && (s.places[r].slot.Some? ==>
          var gate := GateOf(s, s.places[r].process);
          && s.places[r].process in s.gates && s.places[r].slot.value < gate.next
          && IsFor(gate, s.places[r].slot.value, s.core.requests[r].grant))
    && (HoldsGate(s.core.requests[r]) ==> HasSlot(s, r))
  }

  predicate SlotsDiffer(s: Sys, r: nat, q: nat) {
    Placed(s, r) && Placed(s, q) && s.places[r].process == s.places[q].process ==>
      s.places[r].slot != s.places[q].slot
  }

  ghost predicate Seated(s: Sys, lim: G.Limits) {
    && (forall p | p in s.gates :: G.Valid(s.gates[p], lim))
    && s.core.requests.Keys == s.places.Keys
    && (forall r | r in s.core.requests :: PlaceOk(s, r))
    && (forall r, q | r in s.places && q in s.places && r != q :: SlotsDiffer(s, r, q))
  }

  ghost predicate Inv(s: Sys, cfg: M.Config) {
    M.Inv(s.core, cfg) && Seated(s, GateLimits(cfg))
  }

  /** A gate changes, and keeps every slot of its requests except possibly that of `spare`. */
  ghost predicate GateMoves(s: Sys, process: nat, gate: G.State, spare: Option<nat>) {
    forall r | Placed(s, r) && s.places[r].process == process && r in s.core.requests ::
      var id := s.places[r].slot.value;
      && IsFor(gate, id, s.core.requests[r].grant) && id < gate.next
      && (spare != Some(r) && id in GateOf(s, process).live ==> id in gate.live)
  }

  lemma MovedGateKeepsSeated(s: Sys, lim: G.Limits, process: nat, gate: G.State, spare: Option<nat>)
    requires Seated(s, lim) && G.Valid(gate, lim) && GateMoves(s, process, gate, spare)
    requires spare.Some? && spare.value in s.core.requests ==> !HoldsGate(s.core.requests[spare.value])
    ensures Seated(WithGate(s, process, gate), lim)
  {
    var s' := WithGate(s, process, gate);
    forall r | r in s'.core.requests ensures PlaceOk(s', r) {
      assert PlaceOk(s, r);
    }
    forall r, q | r in s'.places && q in s'.places && r != q ensures SlotsDiffer(s', r, q) {
      assert SlotsDiffer(s, r, q);
    }
  }

  lemma GateIsValid(s: Sys, lim: G.Limits, process: nat)
    requires Seated(s, lim)
    ensures G.Valid(GateOf(s, process), lim)
  {
    G.FreshIsValid(lim);
  }

  lemma CancelKeepsSeated(s: Sys, lim: G.Limits, r: nat)
    requires Seated(s, lim) && Placed(s, r)
    ensures var place := s.places[r];
            Seated(WithGate(s, place.process, G.Cancel(GateOf(s, place.process), place.slot.value)), lim)
  {
    var p, id := s.places[r].process, s.places[r].slot.value;
    GateIsValid(s, lim, p);
    G.CancelKeepsValid(GateOf(s, p), lim, id);
    forall o | Placed(s, o) && s.places[o].process == p && o in s.core.requests
      ensures IsFor(G.Cancel(GateOf(s, p), id), s.places[o].slot.value, s.core.requests[o].grant)
      ensures s.places[o].slot.value < G.Cancel(GateOf(s, p), id).next
    {
      assert PlaceOk(s, o);
      CancelKeepsSlot(GateOf(s, p), id, s.places[o].slot.value, s.core.requests[o].grant);
    }
    MovedGateKeepsSeated(s, lim, p, G.Cancel(GateOf(s, p), id), None);
  }

  lemma ShutKeepsSeated(s: Sys, lim: G.Limits, process: nat)
    requires Seated(s, lim)
    ensures Seated(WithGate(s, process, G.Close(GateOf(s, process))), lim)
  {
    GateIsValid(s, lim, process);
    G.CloseKeepsValid(GateOf(s, process), lim);
    forall r | Placed(s, r) && s.places[r].process == process && r in s.core.requests ensures PlaceOk(s, r) {
    }
    MovedGateKeepsSeated(s, lim, process, G.Close(GateOf(s, process)), None);
  }

  lemma EnterGateMoves(s: Sys, lim: G.Limits, process: nat, grant: string, aborted: bool)
    requires Seated(s, lim)
    ensures GateMoves(s, process, G.Acquire(GateOf(s, process), lim, grant, aborted).0, None)
  {
    var g := GateOf(s, process);
    forall r | Placed(s, r) && s.places[r].process == process && r in s.core.requests
      ensures var g' := G.Acquire(g, lim, grant, aborted).0;
              var id := s.places[r].slot.value;
              IsFor(g', id, s.core.requests[r].grant) && id < g'.next && (id in g.live ==> id in g'.live)
    {
      assert PlaceOk(s, r);
      AcquireKeepsSlot(g, lim, grant, aborted, s.places[r].slot.value, s.core.requests[r].grant);
    }
  }

  /** A newcomer that has passed no gate yet takes a new identifier, or none. */
  lemma JoinKeepsSeated(s: Sys, lim: G.Limits, core: M.State, r: nat, place: Place, slot: nat)
    requires Seated(s, lim) && r !in s.core.requests && r in core.requests
    requires core.requests == s.core.requests[r := core.requests[r]] && !HoldsGate(core.requests[r])
    requires place.slot.Some? ==>
               && place.slot == Some(slot) && place.process in s.gates
               && slot < s.gates[place.process].next
               && IsFor(s.gates[place.process], slot, core.requests[r].grant)
    requires forall o | Placed(s, o) && s.places[o].process == place.process :: s.places[o].slot.value < slot
    ensures Seated(Sys(core, s.gates, s.places[r := place]), lim)
  {
    var s' := Sys(core, s.gates, s.places[r := place]);
    forall o | o in s'.core.requests ensures PlaceOk(s', o) {
      if o != r {
        assert PlaceOk(s, o);
      }
    }
    forall o, q | o in s'.places && q in s'.places && o != q ensures SlotsDiffer(s', o, q) {
      if o != r && q != r {
        assert SlotsDiffer(s, o, q);
      }
    }
  }

  lemma EnterKeepsSeated(s: Sys, lim: G.Limits, core: M.State, r: nat, process: nat, aborted: bool)
    requires Seated(s, lim) && r !in s.core.requests && r in core.requests
    requires core.requests == s.core.requests[r := core.requests[r]] && !HoldsGate(core.requests[r])
    ensures var (gate, outcome) := G.Acquire(GateOf(s, process), lim, core.requests[r].grant, aborted);
            Seated(Sys(core, s.gates[process := gate], s.places[r := Place(process, SlotOf(outcome))]), lim)
  {
    var g, grant := GateOf(s, process), core.requests[r].grant;
    var (gate, outcome) := G.Acquire(g, lim, grant, aborted);
    GateIsValid(s, lim, process);
    G.AcquireKeepsValid(g, lim, grant, aborted);
    EnterGateMoves(s, lim, process, grant, aborted);
    MovedGateKeepsSeated(s, lim, process, gate, None);
    AcquireGivesSlot(g, lim, grant, aborted);
    forall q | Placed(s, q) && s.places[q].process == process ensures s.places[q].slot.value < g.next {
      assert PlaceOk(s, q);
    }
    JoinKeepsSeated(WithGate(s, process, gate), lim, core, r, Place(process, SlotOf(outcome)), g.next);
  }

  /** The requests keep their grants, and only the admitted one may come to hold its gate. */
  ghost predicate CoreMoves(core: M.State, core': M.State, admitted: Option<nat>) {
    && core'.requests.Keys == core.requests.Keys
    && forall r | r in core.requests ::
         && core'.requests[r].grant == core.requests[r].grant
         && (HoldsGate(core'.requests[r]) ==> HoldsGate(core.requests[r]) || admitted == Some(r))
  }

  function Admitted(step: M.Step): Option<nat> {
    if step.GateAdmits? then Some(step.r) else None
  }

  lemma OneMoves(core: M.State, cfg: M.Config, step: M.Step)
    requires M.Enabled(core, step) && !step.Tick? && !step.Arrive?
    ensures var (q, q') := (core.requests[step.r], M.Next(core, cfg, step).requests[step.r]);
            && q'.grant == q.grant && q'.gateReleases >= q.gateReleases
            && (q'.passed ==> q.passed || step.GateAdmits?)
  {
  }

  lemma StepMovesCore(core: M.State, cfg: M.Config, step: M.Step)
    requires M.Enabled(core, step) && !step.Arrive?
    ensures CoreMoves(core, M.Next(core, cfg, step), Admitted(step))
  {
    if !step.Tick? {
      OneMoves(core, cfg, step);
      M.OthersUntouched(core, cfg, step);
      OthersSame(core, M.Next(core, cfg, step), step.r);
    }
  }

  lemma OthersSame(core: M.State, core': M.State, r: nat)
    requires core'.requests - {r} == core.requests - {r}
    ensures forall o | o != r && o in core.requests ::
              o in core'.requests && core'.requests[o] == core.requests[o]
    ensures core'.requests.Keys - {r} == core.requests.Keys - {r}
  {
    forall o | o != r && o in core.requests
      ensures o in core'.requests && core'.requests[o] == core.requests[o]
    {
      assert o in core.requests - {r};
      assert (core'.requests - {r})[o] == core'.requests[o];
    }
    assert (core'.requests - {r}).Keys == (core.requests - {r}).Keys;
    assert (core'.requests - {r}).Keys == core'.requests.Keys - {r};
    assert (core.requests - {r}).Keys == core.requests.Keys - {r};
  }

  lemma CoreKeepsSeated(s: Sys, lim: G.Limits, core: M.State, admitted: Option<nat>)
    requires Seated(s, lim) && CoreMoves(s.core, core, admitted)
    requires admitted.Some? ==> HasSlot(s, admitted.value)
    ensures Seated(s.(core := core), lim)
  {
    var s' := s.(core := core);
    forall r | r in core.requests ensures PlaceOk(s', r) {
      assert PlaceOk(s, r);
    }
    forall r, q | r in s'.places && q in s'.places && r != q ensures SlotsDiffer(s', r, q) {
      assert SlotsDiffer(s, r, q);
    }
  }

  lemma ReleaseKeepsSeated(s: Sys, lim: G.Limits, r: nat)
    requires Seated(s, lim) && Placed(s, r) && r in s.core.requests && !HoldsGate(s.core.requests[r])
    ensures var place := s.places[r];
            Seated(WithGate(s, place.process, G.Release(GateOf(s, place.process), lim, place.slot.value)), lim)
  {
    var p, id := s.places[r].process, s.places[r].slot.value;
    var g := GateOf(s, p);
    GateIsValid(s, lim, p);
    G.ReleaseKeepsValid(g, lim, id);
    forall q | Placed(s, q) && s.places[q].process == p && q in s.core.requests
      ensures var g' := G.Release(g, lim, id);
              var other := s.places[q].slot.value;
              && IsFor(g', other, s.core.requests[q].grant) && other < g'.next
              && (q != r && other in g.live ==> other in g'.live)
    {
      assert PlaceOk(s, q);
      ReleaseKeepsSlot(g, lim, id, s.places[q].slot.value, s.core.requests[q].grant);
      if q != r {
        assert SlotsDiffer(s, q, r);
      }
    }
    MovedGateKeepsSeated(s, lim, p, G.Release(g, lim, id), Some(r));
  }

  lemma DoKeepsSeated(s: Sys, cfg: M.Config, step: M.Step)
    requires Seated(s, GateLimits(cfg)) && Enabled(s, Do(step))
    ensures Seated(Next(s, cfg, Do(step)), GateLimits(cfg))
  {
    var core := M.Next(s.core, cfg, step);
    StepMovesCore(s.core, cfg, step);
    CoreKeepsSeated(s, GateLimits(cfg), core, Admitted(step));
    if ReleasesSlot(s, step, core) {
      ReleaseKeepsSeated(s.(core := core), GateLimits(cfg), step.r);
    }
  }

  /** Every step keeps the gates consistent and every request behind its gate in possession of its slot. */
  lemma StepKeepsInv(s: Sys, cfg: M.Config, a: Action)
    requires Inv(s, cfg) && Enabled(s, a)
    ensures Inv(Next(s, cfg, a), cfg)
  {
    match a
    case Enter(r, process, grant, aborted) =>
      M.StepKeepsInv(s.core, cfg, M.Arrive(r, grant));
      EnterKeepsSeated(s, GateLimits(cfg), M.Next(s.core, cfg, M.Arrive(r, grant)), r, process, aborted);
    case Cancel(r) => CancelKeepsSeated(s, GateLimits(cfg), r);
    case Shut(process) => ShutKeepsSeated(s, GateLimits(cfg), process);
    case Do(step) =>
      M.StepKeepsInv(s.core, cfg, step);
      DoKeepsSeated(s, cfg, step);
  }

  lemma InitIsGood(now: int, cfg: M.Config)
    ensures Inv(Init(now), cfg)
  {
    M.RunKeepsInv([M.Init(now)], [], cfg, 0);
  }

  lemma {:induction false} RunKeepsInv(states: seq<Sys>, actions: seq<Action>, cfg: M.Config, i: nat)
    requires IsRun(states, actions, cfg) && i < |states|
    ensures Inv(states[i], cfg)
  {
    if i == 0 {
      InitIsGood(states[0].core.now, cfg);
    } else {
      RunKeepsInv(states, actions, cfg, i - 1);
      assert Follows(states[i - 1], actions[i - 1], states[i], cfg);
      StepKeepsInv(states[i - 1], cfg, actions[i - 1]);
    }
  }

  // ---------------------------------------------------------------- within one process

  function InsideAt(s: Sys, process: nat): set<nat> {
    set r | r in s.core.requests && s.core.requests[r].phase.Inside? && r in s.places && s.places[r].process == process
  }

  function InsideAtGrant(s: Sys, process: nat, grant: string): set<nat> {
    set r | r in InsideAt(s, process) && r in s.core.requests && s.core.requests[r].grant == grant
  }

  function SlotAt(s: Sys, r: nat): nat {
    if Placed(s, r) then s.places[r].slot.value else 0
  }

  lemma InsideHasSlot(s: Sys, cfg: M.Config, process: nat, r: nat)
    requires Inv(s, cfg) && r in InsideAt(s, process)
    ensures Placed(s, r) && process in s.gates && SlotAt(s, r) in s.gates[process].live
    ensures s.gates[process].live[SlotAt(s, r)] == s.core.requests[r].grant
  {
    assert M.RequestOk(s.core, cfg, s.core.requests[r]);
    assert PlaceOk(s, r);
  }

  lemma ProcessBound(s: Sys, cfg: M.Config, process: nat)
    requires Inv(s, cfg)
    ensures |InsideAt(s, process)| <= Max(0, cfg.concurrency)
  {
    if InsideAt(s, process) != {} {
      forall r | r in InsideAt(s, process) ensures SlotAt(s, r) in GateOf(s, process).live.Keys && Placed(s, r) {
        InsideHasSlot(s, cfg, process, r);
      }
      forall r, q | r in InsideAt(s, process) && q in InsideAt(s, process) && r != q
        ensures SlotAt(s, r) != SlotAt(s, q)
      {
        assert SlotsDiffer(s, r, q);
      }
      M.InjectionCard(InsideAt(s, process), GateOf(s, process).live.Keys, r => SlotAt(s, r));
      GateIsValid(s, GateLimits(cfg), process);
      assert |GateOf(s, process).live.Keys| == |GateOf(s, process).live|;
    }
  }

  lemma ProcessGrantBound(s: Sys, cfg: M.Config, process: nat, grant: string)
    requires Inv(s, cfg)
    ensures |InsideAtGrant(s, process, grant)| <= Max(0, cfg.perGrant)
  {
    var inside, holders := InsideAtGrant(s, process, grant), G.Holders(GateOf(s, process).live, grant);
    forall r | r in inside ensures SlotAt(s, r) in holders && Placed(s, r) {
      InsideHasSlot(s, cfg, process, r);
    }
    forall r, q | r in inside && q in inside && r != q ensures SlotAt(s, r) != SlotAt(s, q) {
      assert SlotsDiffer(s, r, q);
    }
    M.InjectionCard(inside, holders, r => SlotAt(s, r));
    GateIsValid(s, GateLimits(cfg), process);
    assert G.Running(GateOf(s, process), grant) == |holders|;
  }

  /**
   Within one process neither limit is ever exceeded, at any instant of any run and for any timeout:
   there the gate alone is enough.
   */
  lemma OneProcessIsBounded(
      states: seq<Sys>, actions: seq<Action>, cfg: M.Config, i: nat, process: nat, grant: string)
    requires IsRun(states, actions, cfg) && i < |states|
    ensures |InsideAt(states[i], process)| <= Max(0, cfg.concurrency)
    ensures |InsideAtGrant(states[i], process, grant)| <= Max(0, cfg.perGrant)
  {
    RunKeepsInv(states, actions, cfg, i);
    ProcessBound(states[i], cfg, process);
    ProcessGrantBound(states[i], cfg, process, grant);
  }

  /** When all requests come in at one process, that bounds all of them. */
  lemma SingleProcessKeepsLimits(states: seq<Sys>, actions: seq<Action>, cfg: M.Config, i: nat, process: nat)
    requires IsRun(states, actions, cfg) && i < |states|
    requires forall r | r in states[i].places :: states[i].places[r].process == process
    ensures WithinLimits(states[i].core, cfg)
  {
    var s := states[i];
    RunKeepsInv(states, actions, cfg, i);
    ProcessBound(s, cfg, process);
    assert M.InsideAll(s.core) == InsideAt(s, process);
    forall grant ensures |M.InsideGrant(s.core, grant)| <= Max(0, cfg.perGrant) {
      ProcessGrantBound(s, cfg, process, grant);
      assert M.InsideGrant(s.core, grant) == InsideAtGrant(s, process, grant);
    }
  }

  ghost predicate WithinLimits(core: M.State, cfg: M.Config) {
    && |M.InsideAll(core)| <= Max(0, cfg.concurrency)
    && forall grant :: |M.InsideGrant(core, grant)| <= Max(0, cfg.perGrant)
  }

  // ---------------------------------------------------------------- the gate decides

  /** The gate has the request in its queue. */
  predicate InQueue(s: Sys, r: nat) {
    && r in s.places && s.places[r].slot.Some?
    && exists w | w in GateOf(s, s.places[r].process).waiting :: w.id == s.places[r].slot.value
  }

  lemma QueueIsWaits(s: Sys, r: nat)
    ensures InQueue(s, r) <==> Waits(s, r)
  {
    if Placed(s, r) {
      var ws, id := GateOf(s, s.places[r].process).waiting, s.places[r].slot.value;
      var i := G.Position(ws, id);
      if i == -1 {
        assert forall w | w in ws :: w.id != id;
      } else {
        assert ws[i] in ws;
      }
    }
  }

  /**
   A request at its gate is in exactly one of three cases: it has been handed a slot and may go on, it is
   in the queue and neither goes on nor is refused, or it is neither and can only be refused.
   */
  lemma GateDecides(s: Sys, cfg: M.Config, r: nat)
    requires Inv(s, cfg) && r in s.core.requests && s.core.requests[r].phase.AtGate?
    ensures Enabled(s, Do(M.GateAdmits(r))) <==> HasSlot(s, r)
    ensures Enabled(s, Do(M.GateRefuses(r))) <==> !HasSlot(s, r) && !InQueue(s, r)
    ensures !(HasSlot(s, r) && InQueue(s, r))
  {
    GateSteps(s, r);
    NeverBoth(s, GateLimits(cfg), r);
  }

  lemma GateSteps(s: Sys, r: nat)
    requires r in s.core.requests && s.core.requests[r].phase.AtGate?
    ensures Enabled(s, Do(M.GateAdmits(r))) <==> HasSlot(s, r)
    ensures Enabled(s, Do(M.GateRefuses(r))) <==> !HasSlot(s, r) && !InQueue(s, r)
  {
    QueueIsWaits(s, r);
  }

  lemma NeverBoth(s: Sys, lim: G.Limits, r: nat)
    requires Seated(s, lim)
    ensures !(HasSlot(s, r) && InQueue(s, r))
  {
    if r in s.places {
      GateIsValid(s, lim, s.places[r].process);
      QueuedHoldsNothing(GateOf(s, s.places[r].process), lim);
    }
  }

  lemma QueuedHoldsNothing(gate: G.State, lim: G.Limits)
    requires G.Valid(gate, lim)
    ensures forall w | w in gate.waiting :: w.id !in gate.live
  {
  }

  /** A process that has shut its gate turns every later request away. */
  lemma ShutTurnsAway(s: Sys, cfg: M.Config, process: nat, r: nat, grant: string, aborted: bool)
    requires r !in s.core.requests
    ensures var s1 := Next(s, cfg, Shut(process));
            && Enabled(s, Shut(process)) && Enabled(s1, Enter(r, process, grant, aborted))
            && var s2 := Next(s1, cfg, Enter(r, process, grant, aborted));
               Enabled(s2, Do(M.GateRefuses(r))) && !Enabled(s2, Do(M.GateAdmits(r)))
  {
  }
}
