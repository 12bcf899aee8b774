/**
 No slot of any gate is ever lost: every slot out, and every place in a queue, belongs to a request that
 is at that gate or past it and not yet back.
 */
module McpSlots {
  import opened Prelude
  import G = AdmissionGate
  import M = McpAdmission
  import opened McpProcesses

  /** At its gate, or past it and not yet back. */
  predicate UsesGate(q: M.Request) {
    q.phase.AtGate? || HoldsGate(q)
  }

  predicate BackedBy(s: Sys, p: nat, id: nat, r: nat) {
    r in s.places && r in s.core.requests && s.places[r] == Place(p, Some(id)) && UsesGate(s.core.requests[r])
  }

  ghost predicate Backed(s: Sys, p: nat, id: nat) {
    exists r :: BackedBy(s, p, id, r)
  }

  ghost predicate AllBacked(s: Sys) {
    forall p, id | p in s.gates && id in G.Known(s.gates[p]) :: Backed(s, p, id)
  }

  ghost predicate AllBackedBut(s: Sys, place: Place) {
    forall p, id | p in s.gates && id in G.Known(s.gates[p]) && Place(p, Some(id)) != place :: Backed(s, p, id)
  }

  // ---------------------------------------------------------------- gates that forget

  /** A gate comes to know nobody new, and forgets the place that was not backed. */
  lemma ForgetfulKeepsBacked(s: Sys, p: nat, gate: G.State, place: Place)
    requires AllBackedBut(s, place) && place.process == p
    requires p in s.gates && G.Known(gate) <= G.Known(s.gates[p])
    requires place.slot.Some? ==> place.slot.value !in G.Known(gate)
    ensures AllBacked(WithGate(s, p, gate))
  {
    var s' := WithGate(s, p, gate);
    forall o, id | o in s'.gates && id in G.Known(s'.gates[o]) ensures Backed(s', o, id) {
      assert Backed(s, o, id);
      var r :| BackedBy(s, o, id, r);
      assert BackedBy(s', o, id, r);
    }
  }

  lemma UnusedGateIsEmpty()
    ensures G.Known(G.Fresh()) == {}
  {
  }

  lemma QueueKeepsBacked(s: Sys, p: nat, gate: G.State)
    requires AllBacked(s) && G.Known(gate) <= G.Known(GateOf(s, p))
    ensures AllBacked(WithGate(s, p, gate))
  {
    if p in s.gates {
      ForgetfulKeepsBacked(s, p, gate, Place(p, None));
    } else {
      UnusedGateIsEmpty();
      var s' := WithGate(s, p, gate);
      forall o, id | o in s'.gates && id in G.Known(s'.gates[o]) ensures Backed(s', o, id) {
        assert Backed(s, o, id);
        var r :| BackedBy(s, o, id, r);
        assert BackedBy(s', o, id, r);
      }
    }
  }

  // ---------------------------------------------------------------- a newcomer

  lemma JoinKeepsBacked(s: Sys, core: M.State, r: nat, p: nat, gate: G.State, slot: Option<nat>)
    requires AllBacked(s) && r !in s.places && r in core.requests && core.requests[r].phase.AtGate?
    requires core.requests == s.core.requests[r := core.requests[r]]
    requires G.Known(gate) <= G.Known(GateOf(s, p)) + if slot.Some? then {slot.value} else {}
    ensures AllBacked(Sys(core, s.gates[p := gate], s.places[r := Place(p, slot)]))
  {
    var s' := Sys(core, s.gates[p := gate], s.places[r := Place(p, slot)]);
    UnusedGateIsEmpty();
    forall o, id | o in s'.gates && id in G.Known(s'.gates[o]) ensures Backed(s', o, id) {
      if o == p && id !in G.Known(GateOf(s, p)) {
        assert BackedBy(s', o, id, r);
      } else {
        assert Backed(s, o, id);
        var q :| BackedBy(s, o, id, q);
        assert BackedBy(s', o, id, q);
      }
    }
  }

  lemma EnterKeepsBacked(s: Sys, cfg: M.Config, a: Action)
    requires AllBacked(s) && s.core.requests.Keys == s.places.Keys && Enabled(s, a) && a.Enter?
    ensures AllBacked(Next(s, cfg, a))
  {
    var g := GateOf(s, a.process);
    var (gate, outcome) := G.Acquire(g, GateLimits(cfg), a.grant, a.aborted);
    G.AcquireKnows(g, GateLimits(cfg), a.grant, a.aborted);
    JoinKeepsBacked(s, M.Next(s.core, cfg, M.Arrive(a.r, a.grant)), a.r, a.process, gate, SlotOf(outcome));
  }

  // ---------------------------------------------------------------- steps of the handler

  /** Who uses the gate before a step uses it after, gives it back, or was turned away. */
  lemma StepUse(core: M.State, cfg: M.Config, step: M.Step)
    requires M.Enabled(core, step) && !step.Tick? && !step.Arrive? && UsesGate(core.requests[step.r])
    requires core.requests[step.r].phase.AtGate? ==> core.requests[step.r].gateReleases == 0
    ensures var (q, q') := (core.requests[step.r], M.Next(core, cfg, step).requests[step.r]);
            UsesGate(q') || q'.gateReleases > q.gateReleases || step.GateRefuses?
  {
  }

  lemma OthersUse(core: M.State, cfg: M.Config, step: M.Step, r: nat)
    requires M.Enabled(core, step) && !step.Arrive? && r in core.requests && (step.Tick? || r != step.r)
    ensures r in M.Next(core, cfg, step).requests && M.Next(core, cfg, step).requests[r] == core.requests[r]
  {
    if !step.Tick? {
      M.OthersUntouched(core, cfg, step);
      OthersSame(core, M.Next(core, cfg, step), step.r);
    }
  }

  lemma UnknownIsUnused(s: Sys, r: nat, p: nat, id: nat)
    requires r in s.places && s.places[r] == Place(p, Some(id)) && !HasSlot(s, r) && !Waits(s, r)
    ensures id !in G.Known(GateOf(s, p))
  {
    QueueIsWaits(s, r);
  }

  /** Whoever still uses its place after the step backs it. */
  lemma CoreKeepsBacked(s: Sys, core: M.State, place: Place)
    requires AllBacked(s)
    requires forall p, id, r | p in s.gates && id in G.Known(s.gates[p]) && BackedBy(s, p, id, r) ::
               Place(p, Some(id)) == place || (r in core.requests && UsesGate(core.requests[r]))
    ensures AllBackedBut(s.(core := core), place)
  {
    var s' := s.(core := core);
    forall p, id | p in s'.gates && id in G.Known(s'.gates[p]) && Place(p, Some(id)) != place
      ensures Backed(s', p, id)
    {
      assert Backed(s, p, id);
      var r :| BackedBy(s, p, id, r);
      assert BackedBy(s', p, id, r);
    }
  }

  lemma StillUses(s: Sys, cfg: M.Config, step: M.Step, p: nat, id: nat, r: nat)
    requires M.Inv(s.core, cfg) && Enabled(s, Do(step)) && p in s.gates && id in G.Known(s.gates[p])
    requires BackedBy(s, p, id, r)
    ensures var core := M.Next(s.core, cfg, step);
            && r in core.requests
            && (UsesGate(core.requests[r]) || (ReleasesSlot(s, step, core) && r == step.r))
  {
    if !step.Tick? && r == step.r {
      assert M.RequestOk(s.core, cfg, s.core.requests[r]);
      StepUse(s.core, cfg, step);
      if step.GateRefuses? {
        UnknownIsUnused(s, r, p, id);
      }
    } else {
      OthersUse(s.core, cfg, step, r);
    }
  }

  lemma DoBacked(s: Sys, cfg: M.Config, step: M.Step)
    requires M.Inv(s.core, cfg) && AllBacked(s) && Enabled(s, Do(step))
    ensures var core := M.Next(s.core, cfg, step);
            AllBackedBut(s.(core := core), if ReleasesSlot(s, step, core) then s.places[step.r] else Place(0, None))
  {
    var core := M.Next(s.core, cfg, step);
    var place := if ReleasesSlot(s, step, core) then s.places[step.r] else Place(0, None);
    forall p, id, r | p in s.gates && id in G.Known(s.gates[p]) && BackedBy(s, p, id, r)
      ensures Place(p, Some(id)) == place || (r in core.requests && UsesGate(core.requests[r]))
    {
      StillUses(s, cfg, step, p, id, r);
    }
    CoreKeepsBacked(s, core, place);
  }

  lemma ReleasedHadSlot(s: Sys, cfg: M.Config, step: M.Step)
    requires Inv(s, cfg) && Enabled(s, Do(step)) && ReleasesSlot(s, step, M.Next(s.core, cfg, step))
    ensures HasSlot(s, step.r)
  {
    assert M.RequestOk(s.core, cfg, s.core.requests[step.r]);
    assert PlaceOk(s, step.r);
    OnlyHoldersRelease(s.core, cfg, step);
  }

  lemma OnlyHoldersRelease(core: M.State, cfg: M.Config, step: M.Step)
    requires M.Enabled(core, step) && !step.Tick? && !step.Arrive?
    requires M.Next(core, cfg, step).requests[step.r].gateReleases > core.requests[step.r].gateReleases
    ensures !core.requests[step.r].phase.AtGate? && !core.requests[step.r].phase.Done?
  {
  }

  lemma DoKeepsBacked(s: Sys, cfg: M.Config, step: M.Step)
    requires Inv(s, cfg) && AllBacked(s) && Enabled(s, Do(step))
    ensures AllBacked(Next(s, cfg, Do(step)))
  {
    var core := M.Next(s.core, cfg, step);
    DoBacked(s, cfg, step);
    if ReleasesSlot(s, step, core) {
      var p, id := s.places[step.r].process, s.places[step.r].slot.value;
      ReleasedHadSlot(s, cfg, step);
      GateIsValid(s, GateLimits(cfg), p);
      G.ReleaseForgets(GateOf(s, p), GateLimits(cfg), id);
      assert p in s.gates by {
        UnusedGateIsEmpty();
      }
      ForgetfulKeepsBacked(s.(core := core), p, G.Release(GateOf(s, p), GateLimits(cfg), id), s.places[step.r]);
    } else {
      assert AllBacked(s.(core := core));
    }
  }

  // ---------------------------------------------------------------- every run

  lemma StepKeepsBacked(s: Sys, cfg: M.Config, a: Action)
    requires Inv(s, cfg) && AllBacked(s) && Enabled(s, a)
    ensures AllBacked(Next(s, cfg, a))
  {
    match a
    case Enter(_, _, _, _) => EnterKeepsBacked(s, cfg, a);
    case Cancel(r) =>
      var p := s.places[r].process;
      GateIsValid(s, GateLimits(cfg), p);
      G.CancelKnows(GateOf(s, p), GateLimits(cfg), s.places[r].slot.value);
      QueueKeepsBacked(s, p, G.Cancel(GateOf(s, p), s.places[r].slot.value));
    case Shut(p) =>
      GateIsValid(s, GateLimits(cfg), p);
      G.CancelKnows(GateOf(s, p), GateLimits(cfg), 0);
      QueueKeepsBacked(s, p, G.Close(GateOf(s, p)));
    case Do(step) => DoKeepsBacked(s, cfg, step);
  }

  lemma {:induction false} RunIsBacked(states: seq<Sys>, actions: seq<Action>, cfg: M.Config, i: nat)
    requires IsRun(states, actions, cfg) && i < |states|
    ensures AllBacked(states[i])
  {
    if i == 0 {
      InitIsBacked(states[0].core.now);
    } else {
      RunIsBacked(states, actions, cfg, i - 1);
      RunKeepsInv(states, actions, cfg, i - 1);
      assert Follows(states[i - 1], actions[i - 1], states[i], cfg);
      FollowerIsBacked(states[i - 1], actions[i - 1], states[i], cfg);
    }
  }

  lemma InitIsBacked(now: int)
    ensures AllBacked(Init(now))
  {
  }

  lemma FollowerIsBacked(s: Sys, a: Action, s': Sys, cfg: M.Config)
    requires Inv(s, cfg) && AllBacked(s) && Follows(s, a, s', cfg)
    ensures AllBacked(s')
  {
    StepKeepsBacked(s, cfg, a);
  }

  lemma DoneUsesNothing(s: Sys, cfg: M.Config, p: nat, id: nat)
    requires M.Inv(s.core, cfg) && forall r | r in s.core.requests :: s.core.requests[r].phase.Done?
    ensures !Backed(s, p, id)
  {
    forall r ensures !BackedBy(s, p, id, r) {
      if r in s.core.requests {
        assert M.RequestOk(s.core, cfg, s.core.requests[r]);
      }
    }
  }

  /**
   No slot is ever lost: once every request has answered, in whatever way, every gate has all its slots back
   and an empty queue.
   */
  lemma QuiescentGatesAreEmpty(states: seq<Sys>, actions: seq<Action>, cfg: M.Config, i: nat, p: nat)
    requires IsRun(states, actions, cfg) && i < |states| && p in states[i].gates
    requires forall r | r in states[i].core.requests :: states[i].core.requests[r].phase.Done?
    ensures states[i].gates[p].live == map[] && states[i].gates[p].waiting == [] && states[i].gates[p].active == 0
  {
    var s := states[i];
    var gate := s.gates[p];
    RunIsBacked(states, actions, cfg, i);
    RunKeepsInv(states, actions, cfg, i);
    forall id ensures id !in G.Known(gate) {
      DoneUsesNothing(s, cfg, p, id);
    }
    EmptyGate(gate, GateLimits(cfg));
  }

  lemma WaiterIsKnown(gate: G.State)
    ensures gate.waiting != [] ==> gate.waiting[0].id in G.Known(gate)
  {
    if gate.waiting != [] {
      assert gate.waiting[0] in gate.waiting;
    }
  }

  lemma EmptyGate(gate: G.State, lim: G.Limits)
    requires G.Valid(gate, lim) && forall id :: id !in G.Known(gate)
    ensures gate.live == map[] && gate.waiting == [] && gate.active == 0
  {
    WaiterIsKnown(gate);
    forall id ensures id !in gate.live {
      assert id !in G.Known(gate);
    }
    assert gate.live == map[];
  }
}
