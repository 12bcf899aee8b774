/**
 What becomes of a request and its leases over a run: every path gives back what it took, what is lost
 all the same expires, and every request ends.
 */
module McpLeases {
  import opened Prelude
  import opened McpAdmission

  // ---------------------------------------------------------------- nothing leaks

  /**
   Whatever failed on the way, a request that has answered released the gate exactly once if the
   gate had let it in, and attempted to release every lease it was given.
   */
  lemma EveryPathReleases(states: seq<State>, steps: seq<Step>, cfg: Config, i: nat, r: nat)
    requires IsRun(states, steps, cfg) && i < |states| && r in states[i].requests
    ensures var q := states[i].requests[r];
            && q.gateReleases <= (if q.passed then 1 else 0)
            && (q.phase.Done? ==> q.gateReleases == (if q.passed then 1 else 0) && q.got <= q.tried)
            && (q.gateReleases == 1 ==> q.phase.Done?)
  {
    RunKeepsInv(states, steps, cfg, i);
    assert RequestOk(states[i], cfg, states[i].requests[r]);
  }

  /** The step is an attempt of `r` to release `l`, whatever comes of it. */
  predicate Attempts(s: State, step: Step, r: nat, l: nat) {
    || (step.ReleaseOne? && step.r == r && step.lease == l)
    || (step.RefusalRelease? && step.r == r && r in s.requests && s.requests[r].phase == Refusing(l))
  }

  /**
   What a release does, reported as successful or not: the lease leaves the table unless the call neither
   succeeded nor took effect, no other lease is touched, and the attempt is noted.
   */
  lemma ReleaseTells(s: State, cfg: Config, step: Step, l: nat)
    requires Enabled(s, step) && (step.ReleaseOne? || step.RefusalRelease?) && Attempts(s, step, step.r, l)
    ensures var s' := Next(s, cfg, step);
            var (q, q') := (s.requests[step.r], s'.requests[step.r]);
            && s'.table == (if step.ok || step.removed then s.table - {l} else s.table)
            && q'.tried == q.tried + {l} && q'.got == q.got
            && q'.held == (if step.ok || step.ReleaseOne? then q.held - {l} else q.held)
            && s'.lost == s.lost + if step.ReleaseOne? && !step.ok && !step.removed then {l} else {}
  {
  }

  /** Nothing is noted as released that the request did not attempt to release. */
  lemma {:induction false} TriedWasAttempted(
      states: seq<State>, steps: seq<Step>, cfg: Config, i: nat, r: nat, l: nat) returns (k: nat)
    requires IsRun(states, steps, cfg) && i < |states|
    requires r in states[i].requests && l in states[i].requests[r].tried
    ensures k < i && Attempts(states[k], steps[k], r, l)
  {
    assert i > 0;
    assert Follows(states[i - 1], steps[i - 1], states[i], cfg);
    if r in states[i - 1].requests && l in states[i - 1].requests[r].tried {
      k := TriedWasAttempted(states, steps, cfg, i - 1, r, l);
    } else {
      k := i - 1;
    }
  }

  /**
   A failed acquisition ends the request at the global lease and turns it to its releases at the second;
   the coordinator may have recorded a lease for it all the same, and then has one more.
   */
  lemma FailureTells(s: State, cfg: Config, r: nat, landed: bool)
    requires r in s.requests
    ensures Enabled(s, GlobalFails(r, landed)) ==>
              var s' := Next(s, cfg, GlobalFails(r, landed));
              && s'.requests[r].phase.Done?
              && (s'.table != s.table ==> landed)
              && (landed && cfg.concurrency >= 1 && 1 <= cfg.leaseMs <= 600_000
                  && |LiveAt(s.table, GlobalBucket, s.now)| < cfg.concurrency ==>
                    s.next in s'.table && s'.table[s.next] == Lease(GlobalBucket, s.now + cfg.leaseMs))
    ensures Enabled(s, GrantFails(r, landed)) ==>
              var s' := Next(s, cfg, GrantFails(r, landed));
              && s'.requests[r] == s.requests[r].(phase := Leaving)
              && (s'.table != s.table ==> landed)
  {
    AcquireVerdict(s.table, cfg, GlobalBucket, s.now, s.next);
  }

  /**
   No acquisition is recorded without being reported, and no final release fails.  A release that
   fails while the second lease is being refused is not excluded: it is tried again.
   */
  predicate Faultless(step: Step) {
    match step
    case GlobalFails(_, landed) => !landed
    case GrantFails(_, landed) => !landed
    case ReleaseOne(_, _, ok, removed) => ok || removed
    case _ => true
  }

  lemma {:induction false} FaultlessLosesNothing(states: seq<State>, steps: seq<Step>, cfg: Config, i: nat)
    requires IsRun(states, steps, cfg) && i < |states|
    requires forall k | 0 <= k < i :: Faultless(steps[k])
    ensures states[i].lost == {}
  {
    if i > 0 {
      FaultlessLosesNothing(states, steps, cfg, i - 1);
      assert Follows(states[i - 1], steps[i - 1], states[i], cfg);
    }
  }

  /** Once every request of a faultless run has answered, the coordinator holds no lease at all. */
  lemma QuiescentHoldsNothing(states: seq<State>, steps: seq<Step>, cfg: Config, i: nat)
    requires IsRun(states, steps, cfg) && i < |states|
    requires forall k | 0 <= k < i :: Faultless(steps[k])
    requires forall r | r in states[i].requests :: states[i].requests[r].phase.Done?
    ensures states[i].table == map[]
  {
    RunKeepsInv(states, steps, cfg, i);
    FaultlessLosesNothing(states, steps, cfg, i);
    var s := states[i];
    forall r | r in s.requests ensures s.requests[r].held == {} {
      assert RequestOk(s, cfg, s.requests[r]);
    }
    assert s.table.Keys == {};
  }

  lemma StepTable(s: State, cfg: Config, step: Step, l: nat)
    requires Enabled(s, step) && l in Next(s, cfg, step).table
    ensures || (l in s.table && Next(s, cfg, step).table[l] == s.table[l])
            || (l == s.next && Next(s, cfg, step).table[l].expiry == s.now + cfg.leaseMs)
  {
  }

  lemma StepAdvances(s: State, cfg: Config, step: Step)
    requires Enabled(s, step)
    ensures Next(s, cfg, step).now >= s.now && Next(s, cfg, step).next >= s.next
  {
  }

  lemma {:induction false} ExpiryIsNear(states: seq<State>, steps: seq<Step>, cfg: Config, i: nat, l: nat)
    requires IsRun(states, steps, cfg) && i < |states| && l in states[i].table
    ensures states[i].table[l].expiry <= states[i].now + cfg.leaseMs
  {
    if i > 0 {
      assert Follows(states[i - 1], steps[i - 1], states[i], cfg);
      StepTable(states[i - 1], cfg, steps[i - 1], l);
      StepAdvances(states[i - 1], cfg, steps[i - 1]);
      if l in states[i - 1].table {
        ExpiryIsNear(states, steps, cfg, i - 1, l);
      }
    }
  }

  /**
   A lease handed out before instant `i` of a run is never alive one lease period after it, however it
   came to be lost: a crashed release blocks capacity for one period at most.
   */
  lemma {:induction false} LostLeasesExpire(states: seq<State>, steps: seq<Step>, cfg: Config, i: nat, j: nat, l: nat)
    requires IsRun(states, steps, cfg) && i <= j < |states|
    requires l < states[i].next && l in states[j].table
    ensures states[j].table[l].expiry <= states[i].now + cfg.leaseMs
    decreases j
  {
    if i == j {
      ExpiryIsNear(states, steps, cfg, i, l);
    } else {
      assert Follows(states[j - 1], steps[j - 1], states[j], cfg);
      StepTable(states[j - 1], cfg, steps[j - 1], l);
      NextGrows(states, steps, cfg, i, j - 1);
      LostLeasesExpire(states, steps, cfg, i, j - 1, l);
    }
  }

  lemma {:induction false} NextGrows(states: seq<State>, steps: seq<Step>, cfg: Config, i: nat, j: nat)
    requires IsRun(states, steps, cfg) && i <= j < |states|
    ensures states[i].next <= states[j].next
    decreases j
  {
    if i < j {
      NextGrows(states, steps, cfg, i, j - 1);
      assert Follows(states[j - 1], steps[j - 1], states[j], cfg);
      StepAdvances(states[j - 1], cfg, steps[j - 1]);
    }
  }

  // ---------------------------------------------------------------- every request ends

  /** Upper bound on the steps a request still takes. */
  function Rank(q: Request): nat {
    match q.phase
    case AtGate => 10 + |q.held|
    case WantGlobal => 9 + |q.held|
    case WantGrant(_, _) => 7 + |q.held|
    case Refusing(_) => 5 + |q.held|
    case Inside(_, _, _, _) => 5 + |q.held|
    case Leaving => 1 + |q.held|
    case Done => 0
  }

  lemma HoldingOneMore(held: set<nat>, l: nat)
    ensures |held + {l}| <= |held| + 1
  {
    if l in held {
      assert held + {l} == held;
    }
  }

  lemma TryGlobalEnds(s: State, cfg: Config, r: nat)
    requires Enabled(s, TryGlobal(r))
    ensures Rank(Next(s, cfg, TryGlobal(r)).requests[r]) < Rank(s.requests[r])
  {
    HoldingOneMore(s.requests[r].held, s.next);
  }

  lemma TryGrantEnds(s: State, cfg: Config, r: nat)
    requires Enabled(s, TryGrant(r))
    ensures Rank(Next(s, cfg, TryGrant(r)).requests[r]) < Rank(s.requests[r])
  {
    HoldingOneMore(s.requests[r].held, s.next);
  }

  lemma ReleaseOneEnds(s: State, cfg: Config, step: Step)
    requires Enabled(s, step) && step.ReleaseOne?
    ensures Rank(Next(s, cfg, step).requests[step.r]) < Rank(s.requests[step.r])
  {
    var held := s.requests[step.r].held;
    assert held == held - {step.lease} + {step.lease};
    assert Next(s, cfg, step).requests[step.r].held == held - {step.lease};
  }

  lemma OthersEnd(s: State, cfg: Config, step: Step)
    requires Enabled(s, step) && !step.Tick? && !step.Arrive?
    requires !step.TryGlobal? && !step.TryGrant? && !step.ReleaseOne?
    ensures Rank(Next(s, cfg, step).requests[step.r]) < Rank(s.requests[step.r])
  {
  }

  /** Each step of a request brings that request closer to its answer and leaves the others as they were. */
  lemma RequestsEnd(s: State, cfg: Config, step: Step)
    requires Enabled(s, step) && !step.Tick? && !step.Arrive?
    ensures Rank(Next(s, cfg, step).requests[step.r]) < Rank(s.requests[step.r])
    ensures Next(s, cfg, step).requests - {step.r} == s.requests - {step.r}
  {
    OthersUntouched(s, cfg, step);
    if step.TryGlobal? {
      TryGlobalEnds(s, cfg, step.r);
    } else if step.TryGrant? {
      TryGrantEnds(s, cfg, step.r);
    } else if step.ReleaseOne? {
      ReleaseOneEnds(s, cfg, step);
    } else {
      OthersEnd(s, cfg, step);
    }
  }

  /** Some step of a request that has not answered can always be taken, whatever the others do. */
  lemma NeverStuck(s: State, r: nat)
    requires r in s.requests && !s.requests[r].phase.Done?
    ensures exists step: Step :: !step.Tick? && !step.Arrive? && step.r == r && Enabled(s, step)
  {
    var q := s.requests[r];
    match q.phase
    case AtGate => assert Enabled(s, GateAdmits(r));
    case WantGlobal => assert Enabled(s, TryGlobal(r));
    case WantGrant(_, _) => assert Enabled(s, TryGrant(r));
    case Refusing(_) => assert Enabled(s, RefusalRelease(r, true, true));
    case Inside(_, _, _, _) => assert Enabled(s, LeaveTransport(r));
    case Leaving =>
      if q.held == {} {
        assert Enabled(s, ReleaseGate(r));
      } else {
        var l :| l in q.held;
        assert Enabled(s, ReleaseOne(r, l, true, true));
      }
  }
}
