/**
 The lease that guards regeneration jobs for one incident or one improvement opportunity.  An
 attempt takes the lease, looks its source up, marks the incident (bundles only), enqueues, and
 gives the lease back when it has nothing to build or the enqueue fails.  Attempts interleave at
 every wait and leases expire; releasing deletes the key whoever owns it.
 */
module Regeneration {
  import opened Prelude

  const LEASE_MS := 30_000

  datatype Kind = Bundle | Improvement

  datatype Reply = Replied(accepted: bool) | Threw

  /** `Freeing` releases the lease and then gives the reply. */
  datatype Phase =
    | Reading
    | ReadingEvents
    | Marking
    | Enqueuing
    | Freeing(reply: Reply)
    | Answered(reply: Reply)

  /** How an attempt came to its answer; `NotFreed` is a release that did not take effect. */
  datatype End = Open | NoLease | SaidYes | LookUpThrew | Freed | NotFreed

  /** `since` is the instant the attempt acquired the lease; `queued` says its job reached the queue. */
  datatype Attempt = Attempt(since: Option<int>, phase: Phase, queued: bool, end: End)

  datatype Lease = Lease(owner: nat, expiry: int)

  /** `jobs` are the attempts whose job reached the queue, in that order. */
  datatype State = State(now: int, lease: Option<Lease>, attempts: map<nat, Attempt>, jobs: seq<nat>)

  /** A call that reports failure may still have landed. */
  datatype Step =
    | Tick(ms: nat)
    | Begin(a: nat)
    | BeginFails(a: nat, landed: bool)
    | LookUp(a: nat, usable: bool)
    | LookUpFails(a: nat)
    | Mark(a: nat, ok: bool)
    | Enqueue(a: nat, ok: bool, landed: bool)
    | Free(a: nat, ok: bool, landed: bool)

  predicate Held(s: State) {
    s.lease.Some? && s.now < s.lease.value.expiry
  }

  predicate Enabled(s: State, step: Step) {
    match step
    case Tick(_) => true
    case Begin(a) => a !in s.attempts
    case BeginFails(a, _) => a !in s.attempts
    case LookUp(a, _) => a in s.attempts && (s.attempts[a].phase.Reading? || s.attempts[a].phase.ReadingEvents?)
    case LookUpFails(a) => a in s.attempts && (s.attempts[a].phase.Reading? || s.attempts[a].phase.ReadingEvents?)
    case Mark(a, _) => a in s.attempts && s.attempts[a].phase.Marking?
    case Enqueue(a, _, _) => a in s.attempts && s.attempts[a].phase.Enqueuing?
    case Free(a, _, _) => a in s.attempts && s.attempts[a].phase.Freeing?
  }

  function Put(s: State, a: nat, x: Attempt): State {
    s.(attempts := s.attempts[a := x])
  }

  /** A free or expired lease goes to the caller. */
  function Took(s: State, a: nat): State {
    if Held(s) then s else s.(lease := Some(Lease(a, s.now + LEASE_MS)))
  }

  function AfterLookUp(kind: Kind, phase: Phase, usable: bool): Phase {
    if !usable then Freeing(Replied(false))
    else if kind.Bundle? then Marking
    else if phase.Reading? then ReadingEvents
    else Enqueuing
  }

  function AfterEnqueue(x: Attempt, ok: bool, landed: bool): Attempt {
    if ok then x.(phase := Answered(Replied(true)), queued := true, end := SaidYes)
    else x.(phase := Freeing(Threw), queued := landed)
  }

  function AfterFree(x: Attempt, reply: Reply, guarded: bool, ok: bool, landed: bool): Attempt {
    x.(phase := Answered(if ok || !guarded then reply else Threw),
       end := if guarded && (ok || landed) then Freed else NotFreed)
  }

  /** `guarded` says the queue offers leases at all. */
  function Next(s: State, kind: Kind, guarded: bool, step: Step): State
    requires Enabled(s, step)
  {
    match step
    case Tick(ms) => s.(now := s.now + ms)
    case Begin(a) =>
      if !guarded then Put(s, a, Attempt(None, Reading, false, Open))
      else if Held(s) then Put(s, a, Attempt(None, Answered(Replied(kind.Improvement?)), false, NoLease))
      else Put(Took(s, a), a, Attempt(Some(s.now), Reading, false, Open))
    case BeginFails(a, landed) =>
      Put(if guarded && landed then Took(s, a) else s, a, Attempt(None, Answered(Threw), false, NoLease))
    case LookUp(a, usable) =>
      Put(s, a, s.attempts[a].(phase := AfterLookUp(kind, s.attempts[a].phase, usable)))
    case LookUpFails(a) => Put(s, a, s.attempts[a].(phase := Answered(Threw), end := LookUpThrew))
    case Mark(a, ok) => Put(s, a, s.attempts[a].(phase := if ok then Enqueuing else Freeing(Threw)))
    case Enqueue(a, ok, landed) =>
      Put(if ok || landed then s.(jobs := s.jobs + [a]) else s, a, AfterEnqueue(s.attempts[a], ok, landed))
    case Free(a, ok, landed) =>
      Put(if guarded && (ok || landed) then s.(lease := None) else s, a,
          AfterFree(s.attempts[a], s.attempts[a].phase.reply, guarded, ok, landed))
  }

  ghost predicate Follows(s: State, step: Step, s': State, kind: Kind, guarded: bool) {
    Enabled(s, step) && s' == Next(s, kind, guarded, step)
  }

  function Init(now: int): State {
    State(now, None, map[], [])
  }

  ghost predicate IsRun(states: seq<State>, steps: seq<Step>, kind: Kind, guarded: bool) {
    && |states| == |steps| + 1 && states[0] == Init(states[0].now)
    && forall i | 0 <= i < |steps| :: Follows(states[i], steps[i], states[i + 1], kind, guarded)
  }

  // ---------------------------------------------------------------- the invariant

  predicate InTime(s: State, a: nat) {
    a in s.attempts && s.attempts[a].since.Some? && s.now < s.attempts[a].since.value + LEASE_MS
  }

  /** The attempt has a job in the queue or has not given its lease back. */
  predicate Relies(x: Attempt) {
    x.since.Some? && (x.queued || !x.end.Freed?)
  }

  predicate Apart(x: Attempt, y: Attempt)
    requires x.since.Some? && y.since.Some?
  {
    x.since.value + LEASE_MS <= y.since.value || y.since.value + LEASE_MS <= x.since.value
  }

  ghost predicate OwnsLease(s: State, a: nat) {
    a in s.attempts && s.attempts[a].since.Some? && s.lease == Some(Lease(a, s.attempts[a].since.value + LEASE_MS))
  }

  ghost predicate AttemptOk(s: State, a: nat, x: Attempt) {
    && (x.since.Some? ==> x.since.value <= s.now)
    && (x.phase.Answered? <==> !x.end.Open?)
    && (x.end.NoLease? <==> x.since.None?)
    && (x.queued <==> a in s.jobs)
    && (x.queued ==> x.since.Some? && (x.phase.Answered? || x.phase.Freeing?))
    && (x.end.SaidYes? ==> x.queued)
  }

  /** The key names an attempt and, unless its acquisition went unreported, that attempt's own period. */
  ghost predicate LeaseOk(s: State) {
    s.lease.Some? ==>
      var owner := s.lease.value.owner;
      && owner in s.attempts
      && (s.attempts[owner].since.Some? ==> OwnsLease(s, owner) && !s.attempts[owner].end.Freed?)
  }

  ghost predicate Inv(s: State) {
    && (forall a | a in s.attempts :: AttemptOk(s, a, s.attempts[a]))
    && (forall a | a in s.attempts && Relies(s.attempts[a]) && InTime(s, a) :: OwnsLease(s, a))
    && (forall a, b | a in s.attempts && b in s.attempts && a != b && Relies(s.attempts[a]) && Relies(s.attempts[b]) ::
          Apart(s.attempts[a], s.attempts[b]))
    && NoRepeats(s.jobs) && (forall a | a in s.jobs :: a in s.attempts)
    && LeaseOk(s)
  }

  /**
   Only a release can do harm: one that takes effect while the attempt is in time but its job did reach
   the queue, or one that comes after the attempt's own lease while another attempt relies on the key.
   */
  ghost predicate Harmless(s: State, step: Step) {
    step.Free? && (step.ok || step.landed) ==>
      && step.a in s.attempts
      && (if InTime(s, step.a) then !s.attempts[step.a].queued else !SomeoneRelies(s))
  }

  ghost predicate SomeoneRelies(s: State) {
    exists b :: b in s.attempts && Relies(s.attempts[b]) && InTime(s, b)
  }

  // ---------------------------------------------------------------- preservation

  lemma TickKeepsInv(s: State, kind: Kind, step: Step)
    requires Inv(s) && step.Tick?
    ensures Inv(Next(s, kind, true, step))
  {
    var s' := Next(s, kind, true, step);
    forall a | a in s'.attempts ensures AttemptOk(s', a, s'.attempts[a]) {
      assert AttemptOk(s, a, s.attempts[a]);
    }
    forall a | a in s'.attempts && Relies(s'.attempts[a]) && InTime(s', a) ensures OwnsLease(s', a) {
      assert InTime(s, a) && OwnsLease(s, a);
    }
  }

  /** While nobody holds the lease, no attempt that relies on it is in time. */
  lemma FreeMeansLate(s: State, a: nat)
    requires Inv(s) && !Held(s) && a in s.attempts && Relies(s.attempts[a])
    ensures s.attempts[a].since.value + LEASE_MS <= s.now
  {
    assert InTime(s, a) ==> OwnsLease(s, a);
  }

  /** The attempts of `s'` are those of `s` and a newcomer that has queued nothing. */
  ghost predicate Joined(s: State, s': State, n: nat) {
    && s'.attempts.Keys == s.attempts.Keys + {n} && n !in s.attempts
    && s'.jobs == s.jobs && s'.now == s.now
    && forall a | a in s.attempts :: s'.attempts[a] == s.attempts[a]
  }

  lemma JoinedKeepsInv(s: State, s': State, n: nat)
    requires Inv(s) && Joined(s, s', n) && AttemptOk(s', n, s'.attempts[n]) && LeaseOk(s')
    requires s'.lease != s.lease ==> !Held(s)
    requires Relies(s'.attempts[n]) ==> !Held(s) && s'.attempts[n].since == Some(s.now) && OwnsLease(s', n)
    ensures Inv(s')
  {
    forall a | a in s.attempts
      ensures AttemptOk(s', a, s'.attempts[a])
      ensures Relies(s.attempts[a]) && InTime(s, a) ==> OwnsLease(s', a)
      ensures Relies(s.attempts[a]) && !Held(s) ==> s.attempts[a].since.value + LEASE_MS <= s.now
    {
      assert AttemptOk(s, a, s.attempts[a]);
      if Relies(s.attempts[a]) && InTime(s, a) {
        assert OwnsLease(s, a);
      }
      if Relies(s.attempts[a]) && !Held(s) {
        FreeMeansLate(s, a);
      }
    }
  }

  lemma BeginKeepsInv(s: State, kind: Kind, step: Step)
    requires Inv(s) && Enabled(s, step) && (step.Begin? || step.BeginFails?)
    ensures Inv(Next(s, kind, true, step))
  {
    var s' := Next(s, kind, true, step);
    assert Joined(s, s', step.a);
    assert LeaseOk(s') by {
      assert LeaseOk(s);
    }
    JoinedKeepsInv(s, s', step.a);
  }

  /** One attempt moves on and keeps its lease. */
  ghost predicate MovesOn(s: State, s': State, a: nat) {
    && a in s.attempts && a in s'.attempts && s'.attempts == s.attempts[a := s'.attempts[a]]
    && s'.now == s.now && s'.lease == s.lease
    && s'.attempts[a].since == s.attempts[a].since
    && Relies(s'.attempts[a]) == Relies(s.attempts[a]) && !s'.attempts[a].end.Freed?
  }

  lemma MovingKeepsInv(s: State, s': State, a: nat)
    requires Inv(s) && MovesOn(s, s', a)
    requires AttemptOk(s', a, s'.attempts[a])
    requires s'.jobs == s.jobs || (s'.jobs == s.jobs + [a] && a !in s.jobs)
    ensures Inv(s')
  {
    forall b | b in s'.attempts
      ensures AttemptOk(s', b, s'.attempts[b]) && s'.attempts[b].since == s.attempts[b].since
      ensures Relies(s'.attempts[b]) == Relies(s.attempts[b])
      ensures Relies(s'.attempts[b]) && InTime(s', b) ==> OwnsLease(s', b)
    {
      assert AttemptOk(s, b, s.attempts[b]);
      assert Relies(s.attempts[b]) && InTime(s, b) ==> OwnsLease(s, b);
    }
    assert LeaseOk(s);
  }

  lemma ReadKeepsInv(s: State, kind: Kind, step: Step)
    requires Inv(s) && Enabled(s, step) && (step.LookUp? || step.LookUpFails? || step.Mark?)
    ensures Inv(Next(s, kind, true, step))
  {
    assert AttemptOk(s, step.a, s.attempts[step.a]);
    MovingKeepsInv(s, Next(s, kind, true, step), step.a);
  }

  lemma EnqueueKeepsInv(s: State, kind: Kind, step: Step)
    requires Inv(s) && Enabled(s, step) && step.Enqueue?
    ensures Inv(Next(s, kind, true, step))
  {
    var s' := Next(s, kind, true, step);
    assert AttemptOk(s, step.a, s.attempts[step.a]);
    assert AttemptOk(s', step.a, s'.attempts[step.a]);
    MovingKeepsInv(s, s', step.a);
  }

  /** A harmless release leaves every attempt that is in time with its lease. */
  lemma FreeKeepsInv(s: State, kind: Kind, step: Step)
    requires Inv(s) && Enabled(s, step) && step.Free? && Harmless(s, step)
    ensures Inv(Next(s, kind, true, step))
  {
    var s' := Next(s, kind, true, step);
    forall a | a in s'.attempts
      ensures AttemptOk(s', a, s'.attempts[a]) && s'.attempts[a].since == s.attempts[a].since
      ensures Relies(s'.attempts[a]) ==> Relies(s.attempts[a])
      ensures Relies(s'.attempts[a]) && InTime(s', a) ==> OwnsLease(s', a)
    {
      FreeSparesAttempt(s, kind, step, a);
    }
    assert LeaseOk(s);
  }

  lemma FreeSparesAttempt(s: State, kind: Kind, step: Step, a: nat)
    requires Inv(s) && Enabled(s, step) && step.Free? && Harmless(s, step) && a in s.attempts
    ensures var s' := Next(s, kind, true, step);
            && AttemptOk(s', a, s'.attempts[a]) && s'.attempts[a].since == s.attempts[a].since
            && (Relies(s'.attempts[a]) ==> Relies(s.attempts[a]))
            && (Relies(s'.attempts[a]) && InTime(s', a) ==> OwnsLease(s', a))
  {
    var n := step.a;
    assert AttemptOk(s, n, s.attempts[n]) && Relies(s.attempts[n]) && AttemptOk(s, a, s.attempts[a]);
    assert InTime(s, n) ==> OwnsLease(s, n);
    assert Relies(s.attempts[a]) && InTime(s, a) ==> OwnsLease(s, a);
  }

  lemma HarmfulBreaksInv(s: State, kind: Kind, step: Step)
    requires Inv(s) && Enabled(s, step) && !Harmless(s, step)
    ensures !Inv(Next(s, kind, true, step))
  {
    var s' := Next(s, kind, true, step);
    if InTime(s, step.a) {
      assert Relies(s'.attempts[step.a]) && InTime(s', step.a) && !OwnsLease(s', step.a);
    } else {
      var b :| b in s.attempts && Relies(s.attempts[b]) && InTime(s, b);
      assert Relies(s'.attempts[b]) && InTime(s', b) && !OwnsLease(s', b);
    }
  }

  /** A step keeps the invariant exactly when it is not one of the two harmful releases. */
  lemma StepKeepsInvIff(s: State, kind: Kind, step: Step)
    requires Inv(s) && Enabled(s, step)
    ensures Inv(Next(s, kind, true, step)) <==> Harmless(s, step)
  {
    if !Harmless(s, step) {
      HarmfulBreaksInv(s, kind, step);
    } else {
      match step
      case Tick(_) => TickKeepsInv(s, kind, step);
      case Begin(_) => BeginKeepsInv(s, kind, step);
      case BeginFails(_, _) => BeginKeepsInv(s, kind, step);
      case Enqueue(_, _, _) => EnqueueKeepsInv(s, kind, step);
      case Free(_, _, _) => FreeKeepsInv(s, kind, step);
      case _ => ReadKeepsInv(s, kind, step);
    }
  }

  /**
   A caller's side of it: whoever releases does so before the own lease expires, and an enqueue that
   reported failure had not reached the queue.
   */
  predicate Prompt(s: State, step: Step) {
    step.Free? && (step.ok || step.landed) ==> InTime(s, step.a) && !s.attempts[step.a].queued
  }

  lemma {:induction false} RunKeepsInv(states: seq<State>, steps: seq<Step>, kind: Kind, i: nat)
    requires IsRun(states, steps, kind, true) && i < |states|
    requires forall k | 0 <= k < i :: Prompt(states[k], steps[k])
    ensures Inv(states[i])
  {
    if i > 0 {
      RunKeepsInv(states, steps, kind, i - 1);
      assert Follows(states[i - 1], steps[i - 1], states[i], kind, true) && Prompt(states[i - 1], steps[i - 1]);
      StepKeepsInvIff(states[i - 1], kind, steps[i - 1]);
    }
  }

  // ---------------------------------------------------------------- jobs lie a lease period apart

  predicate Known(s: State, a: nat) {
    a in s.attempts && s.attempts[a].since.Some?
  }

  lemma JobIsKnown(s: State, i: nat)
    requires Inv(s) && i < |s.jobs|
    ensures Known(s, s.jobs[i]) && Relies(s.attempts[s.jobs[i]])
  {
    var a := s.jobs[i];
    assert a in s.jobs;
    assert AttemptOk(s, a, s.attempts[a]);
  }

  /**
   In every interleaving in which releases are prompt, any two jobs in the queue come from
   acquisitions at least a lease period apart, however late they were enqueued.
   */
  lemma JobsAreSpaced(states: seq<State>, steps: seq<Step>, kind: Kind, n: nat, i: nat, j: nat)
    requires IsRun(states, steps, kind, true) && n < |states|
    requires forall k | 0 <= k < n :: Prompt(states[k], steps[k])
    requires i < j < |states[n].jobs|
    ensures var s := states[n];
            && s.jobs[i] != s.jobs[j] && Known(s, s.jobs[i]) && Known(s, s.jobs[j])
            && var first, second := s.attempts[s.jobs[i]].since.value, s.attempts[s.jobs[j]].since.value;
               first + 30_000 <= second || second + 30_000 <= first
  {
    var s := states[n];
    RunKeepsInv(states, steps, kind, n);
    JobIsKnown(s, i);
    JobIsKnown(s, j);
    assert NoRepeats(s.jobs);
    var a, b := s.jobs[i], s.jobs[j];
    assert a != b && Apart(s.attempts[a], s.attempts[b]);
  }

  /** The queue holds the jobs in the order of their acquisitions, each a lease period after the one before. */
  ghost predicate InOrder(s: State) {
    && (forall i | 0 <= i < |s.jobs| :: Known(s, s.jobs[i]))
    && (forall i, j | 0 <= i < j < |s.jobs| ::
          s.attempts[s.jobs[i]].since.value + LEASE_MS <= s.attempts[s.jobs[j]].since.value)
  }

  ghost predicate ComesAfterAll(s: State, a: nat) {
    && Known(s, a)
    && forall i | 0 <= i < |s.jobs| ::
         Known(s, s.jobs[i]) && s.attempts[s.jobs[i]].since.value + LEASE_MS <= s.attempts[a].since.value
  }

  /** An enqueue keeps the order exactly when it does not land or its acquisition came after all those queued. */
  lemma EnqueueKeepsOrderIff(s: State, kind: Kind, step: Step)
    requires Inv(s) && InOrder(s) && Enabled(s, step) && step.Enqueue?
    ensures InOrder(Next(s, kind, true, step)) <==> !(step.ok || step.landed) || ComesAfterAll(s, step.a)
  {
    var s' := Next(s, kind, true, step);
    var n := |s.jobs|;
    assert AttemptOk(s, step.a, s.attempts[step.a]);
    forall b | b in s.attempts ensures b in s'.attempts && s'.attempts[b].since == s.attempts[b].since {
    }
    forall i | 0 <= i < n ensures s'.jobs[i] == s.jobs[i] && Known(s, s.jobs[i]) && Known(s', s'.jobs[i]) {
    }
    if InOrder(s') && (step.ok || step.landed) {
      forall i | 0 <= i < n ensures s.attempts[s.jobs[i]].since.value + LEASE_MS <= s.attempts[step.a].since.value {
        assert s'.jobs[n] == step.a;
      }
    }
  }

  /** An attempt that enqueues in time always comes after all those queued. */
  lemma PromptEnqueueIsInOrder(s: State, a: nat)
    requires Inv(s) && InTime(s, a) && s.attempts[a].phase.Enqueuing?
    ensures ComesAfterAll(s, a)
  {
    assert AttemptOk(s, a, s.attempts[a]);
    forall i | 0 <= i < |s.jobs|
      ensures Known(s, s.jobs[i]) && s.attempts[s.jobs[i]].since.value + LEASE_MS <= s.attempts[a].since.value
    {
      var b := s.jobs[i];
      JobIsKnown(s, i);
      assert AttemptOk(s, b, s.attempts[b]) && b in s.jobs && b != a;
      assert Apart(s.attempts[a], s.attempts[b]);
    }
  }

  lemma OrderStays(s: State, kind: Kind, step: Step)
    requires Inv(s) && InOrder(s) && Enabled(s, step) && !step.Enqueue?
    ensures InOrder(Next(s, kind, true, step))
  {
    var s' := Next(s, kind, true, step);
    forall i | 0 <= i < |s.jobs|
      ensures Known(s', s'.jobs[i]) && s'.attempts[s'.jobs[i]].since == s.attempts[s.jobs[i]].since
    {
      assert Known(s, s.jobs[i]);
    }
  }

  /** With prompt releases and enqueues in time, the queue is in order of acquisition throughout. */
  lemma {:induction false} JobsAreInOrder(states: seq<State>, steps: seq<Step>, kind: Kind, n: nat)
    requires IsRun(states, steps, kind, true) && n < |states|
    requires forall k | 0 <= k < n :: Prompt(states[k], steps[k])
    requires forall k | 0 <= k < n && steps[k].Enqueue? :: InTime(states[k], steps[k].a)
    ensures InOrder(states[n])
  {
    if n > 0 {
      var s, step := states[n - 1], steps[n - 1];
      JobsAreInOrder(states, steps, kind, n - 1);
      RunKeepsInv(states, steps, kind, n - 1);
      assert Follows(s, step, states[n], kind, true);
      if step.Enqueue? {
        PromptEnqueueIsInOrder(s, step.a);
        EnqueueKeepsOrderIff(s, kind, step);
      } else {
        OrderStays(s, kind, step);
      }
    }
  }

  // ---------------------------------------------------------------- what frees the lease

  /** A release takes a lease another attempt holds exactly when the own one has expired and the key was taken again. */
  lemma TakesAnothersIff(s: State, step: Step)
    requires Inv(s) && Enabled(s, step) && step.Free?
    ensures Held(s) && s.lease.value.owner != step.a <==> Held(s) && !InTime(s, step.a)
  {
    assert AttemptOk(s, step.a, s.attempts[step.a]) && Relies(s.attempts[step.a]);
    assert InTime(s, step.a) ==> OwnsLease(s, step.a);
    assert LeaseOk(s);
  }

  /**
   An attempt that has answered while its lease period lasts still owns the lease exactly when it said
   yes, its lookup threw, or its release did not take effect.
   */
  lemma AnsweredOwnsIff(s: State, a: nat)
    requires Inv(s) && InTime(s, a) && s.attempts[a].phase.Answered?
    ensures OwnsLease(s, a) <==>
              s.attempts[a].end.SaidYes? || s.attempts[a].end.LookUpThrew? || s.attempts[a].end.NotFreed?
  {
    assert AttemptOk(s, a, s.attempts[a]);
    assert LeaseOk(s);
  }

  /** The same in a run whose releases are prompt, in terms of what the attempt did. */
  lemma LeaseOutlivesAnswerIff(states: seq<State>, steps: seq<Step>, kind: Kind, n: nat, a: nat) returns (k: nat)
    requires IsRun(states, steps, kind, true) && n < |states|
    requires forall i | 0 <= i < n :: Prompt(states[i], steps[i])
    requires InTime(states[n], a) && states[n].attempts[a].phase.Answered?
    ensures k < n && steps[k] in {Enqueue(a, true, true), Enqueue(a, true, false), LookUpFails(a), Free(a, true, true),
                                  Free(a, true, false), Free(a, false, true), Free(a, false, false)}
    ensures states[k + 1].attempts[a] == states[n].attempts[a]
    ensures OwnsLease(states[n], a) <==> !(steps[k].Free? && (steps[k].ok || steps[k].landed))
  {
    RunKeepsInv(states, steps, kind, n);
    AnsweredOwnsIff(states[n], a);
    k := AnsweringStep(states, steps, kind, n, a);
  }

  lemma {:induction false} AnsweringStep(states: seq<State>, steps: seq<Step>, kind: Kind, n: nat, a: nat)
    returns (k: nat)
    requires IsRun(states, steps, kind, true) && n < |states|
    requires Known(states[n], a) && states[n].attempts[a].phase.Answered?
    ensures k < n && a in states[k + 1].attempts && states[k + 1].attempts[a] == states[n].attempts[a]
    ensures match steps[k]
            case Enqueue(b, ok, _) => b == a && ok && states[n].attempts[a].end.SaidYes?
            case LookUpFails(b) => b == a && states[n].attempts[a].end.LookUpThrew?
            case Free(b, ok, landed) =>
              b == a && states[n].attempts[a].end == if ok || landed then Freed else NotFreed
            case _ => false
  {
    assert n > 0;
    assert Follows(states[n - 1], steps[n - 1], states[n], kind, true);
    if a in states[n - 1].attempts && states[n - 1].attempts[a].phase.Answered? {
      k := AnsweringStep(states, steps, kind, n - 1, a);
    } else {
      k := n - 1;
    }
  }

  lemma {:induction false} AnsweredStays(states: seq<State>, steps: seq<Step>, kind: Kind, i: nat, j: nat, a: nat)
    requires IsRun(states, steps, kind, true) && i <= j < |states|
    requires a in states[i].attempts && states[i].attempts[a].phase.Answered?
    ensures a in states[j].attempts && states[j].attempts[a] == states[i].attempts[a]
    decreases j
  {
    if i < j {
      AnsweredStays(states, steps, kind, i, j - 1, a);
      assert Follows(states[j - 1], steps[j - 1], states[j], kind, true);
    }
  }

  /**
   A lookup that throws keeps the lease: as long as its period lasts the attempt owns it, although the
   attempt has ended with an error and nothing queued.
   */
  lemma ThrownLookUpKeepsLease(states: seq<State>, steps: seq<Step>, kind: Kind, i: nat, j: nat, a: nat)
    requires IsRun(states, steps, kind, true) && i < j < |states| && steps[i] == LookUpFails(a)
    requires forall k | 0 <= k < j :: Prompt(states[k], steps[k])
    requires InTime(states[j], a)
    ensures OwnsLease(states[j], a) && Held(states[j])
    ensures states[j].attempts[a].phase == Answered(Threw) && a !in states[j].jobs
  {
    assert Follows(states[i], steps[i], states[i + 1], kind, true);
    RunKeepsInv(states, steps, kind, i);
    assert AttemptOk(states[i], a, states[i].attempts[a]);
    AnsweredStays(states, steps, kind, i + 1, j, a);
    RunKeepsInv(states, steps, kind, j);
    assert AttemptOk(states[j], a, states[j].attempts[a]);
    AnsweredOwnsIff(states[j], a);
  }

  /** Until then every other attempt is turned away. */
  lemma FailedLookUpBlocks(states: seq<State>, steps: seq<Step>, kind: Kind, i: nat, j: nat, a: nat)
    requires IsRun(states, steps, kind, true) && i < j < |steps| && steps[i] == LookUpFails(a) && steps[j].Begin?
    requires forall k | 0 <= k < j :: Prompt(states[k], steps[k])
    requires InTime(states[j], a)
    ensures states[j + 1] == Put(states[j], steps[j].a,
                                 Attempt(None, Answered(Replied(kind.Improvement?)), false, NoLease))
  {
    ThrownLookUpKeepsLease(states, steps, kind, i, j, a);
    assert Follows(states[j], steps[j], states[j + 1], kind, true);
  }

  /**
   An acquisition that throws ends the attempt with an error and nothing queued; if it took effect all the
   same, the lease stands for its period although nobody will give it back.
   */
  lemma ThrownAcquisition(s: State, kind: Kind, guarded: bool, a: nat, landed: bool)
    requires a !in s.attempts
    ensures var s' := Next(s, kind, guarded, BeginFails(a, landed));
            && s'.attempts == s.attempts[a := Attempt(None, Answered(Threw), false, NoLease)]
            && s'.jobs == s.jobs && s'.now == s.now
            && s'.lease == if guarded && landed && !Held(s) then Some(Lease(a, s.now + 30_000)) else s.lease
  {
  }

  /** The only ways into a release. */
  lemma FreeingComesFrom(s: State, kind: Kind, guarded: bool, step: Step, a: nat)
    requires Enabled(s, step) && a in s.attempts && !s.attempts[a].phase.Freeing?
    requires Next(s, kind, guarded, step).attempts[a].phase.Freeing?
    ensures step == LookUp(a, false) || step == Mark(a, false)
         || step == Enqueue(a, false, true) || step == Enqueue(a, false, false)
    ensures Next(s, kind, guarded, step).attempts[a].phase.reply
         == if step.LookUp? then Replied(false) else Threw
  {
  }

  // ---------------------------------------------------------------- runs that go wrong

  function Working(since: int, phase: Phase): Attempt {
    Attempt(Some(since), phase, false, Open)
  }

  function QueuedYes(since: int): Attempt {
    Attempt(Some(since), Answered(Replied(true)), true, SaidYes)
  }

  /** A slow attempt outlives its lease and then deletes the lease of the next one. */
  function LateStates(): seq<State> {
    var slow, freeing := Working(0, Reading), Working(0, Freeing(Replied(false)));
    var ended := Attempt(Some(0), Answered(Replied(false)), false, Freed);
    var queued, again := QueuedYes(LEASE_MS), Working(LEASE_MS, Reading);
    var second := Some(Lease(1, 2 * LEASE_MS));
    var third := Some(Lease(2, 2 * LEASE_MS));
    [Init(0),
     State(0, Some(Lease(0, LEASE_MS)), map[0 := slow], []),
     State(LEASE_MS, Some(Lease(0, LEASE_MS)), map[0 := slow], []),
     State(LEASE_MS, second, map[0 := slow, 1 := again], []),
     State(LEASE_MS, second, map[0 := slow, 1 := again.(phase := Marking)], []),
     State(LEASE_MS, second, map[0 := slow, 1 := again.(phase := Enqueuing)], []),
     State(LEASE_MS, second, map[0 := slow, 1 := queued], [1]),
     State(LEASE_MS, second, map[0 := freeing, 1 := queued], [1]),
     State(LEASE_MS, None, map[0 := ended, 1 := queued], [1]),
     State(LEASE_MS, third, map[0 := ended, 1 := queued, 2 := again], [1]),
     State(LEASE_MS, third, map[0 := ended, 1 := queued, 2 := again.(phase := Marking)], [1]),
     State(LEASE_MS, third, map[0 := ended, 1 := queued, 2 := again.(phase := Enqueuing)], [1]),
     State(LEASE_MS, third, map[0 := ended, 1 := queued, 2 := queued], [1, 2])]
  }

  function LateSteps(): seq<Step> {
    [Begin(0), Tick(LEASE_MS), Begin(1), LookUp(1, true), Mark(1, true), Enqueue(1, true, true),
     LookUp(0, false), Free(0, true, true), Begin(2), LookUp(2, true), Mark(2, true), Enqueue(2, true, true)]
  }

  lemma LateFollows(i: nat)
    requires i < |LateSteps()|
    ensures Follows(LateStates()[i], LateSteps()[i], LateStates()[i + 1], Bundle, true)
  {
    var s' := LateStates()[i + 1];
    assert Next(LateStates()[i], Bundle, true, LateSteps()[i]).attempts == s'.attempts;
    assert [1] + [2] == [1, 2] && [] + [1] == [1];
  }

  /** Two jobs from the same instant: only the release of attempt 0 came after its own lease expired. */
  lemma LateReleaseDoublesJobs() returns (states: seq<State>, steps: seq<Step>)
    ensures IsRun(states, steps, Bundle, true)
    ensures forall k | 0 <= k < |steps| && k != 7 :: Prompt(states[k], steps[k])
    ensures |steps| == 12 && !Harmless(states[7], steps[7])
    ensures 0 in states[7].attempts && !states[7].attempts[0].queued
    ensures var s := states[|states| - 1];
            && s.jobs == [1, 2] && 1 in s.attempts && 2 in s.attempts
            && s.attempts[1].since == s.attempts[2].since
  {
    states, steps := LateStates(), LateSteps();
    forall i | 0 <= i < |steps| ensures Follows(states[i], steps[i], states[i + 1], Bundle, true) {
      LateFollows(i);
    }
    assert Relies(states[7].attempts[1]) && InTime(states[7], 1);
  }

  /** An enqueue reports failure although the job is in the queue, and the lease is given back. */
  function LandedStates(): seq<State> {
    var lost := Attempt(Some(0), Freeing(Threw), true, Open);
    var ended := Attempt(Some(0), Answered(Threw), true, Freed);
    var first, second := Some(Lease(0, LEASE_MS)), Some(Lease(1, LEASE_MS));
    [Init(0),
     State(0, first, map[0 := Working(0, Reading)], []),
     State(0, first, map[0 := Working(0, Marking)], []),
     State(0, first, map[0 := Working(0, Enqueuing)], []),
     State(0, first, map[0 := lost], [0]),
     State(0, None, map[0 := ended], [0]),
     State(0, second, map[0 := ended, 1 := Working(0, Reading)], [0]),
     State(0, second, map[0 := ended, 1 := Working(0, Marking)], [0]),
     State(0, second, map[0 := ended, 1 := Working(0, Enqueuing)], [0]),
     State(0, second, map[0 := ended, 1 := QueuedYes(0)], [0, 1])]
  }

  function LandedSteps(): seq<Step> {
    [Begin(0), LookUp(0, true), Mark(0, true), Enqueue(0, false, true), Free(0, true, true),
     Begin(1), LookUp(1, true), Mark(1, true), Enqueue(1, true, true)]
  }

  lemma LandedFollows(i: nat)
    requires i < |LandedSteps()|
    ensures Follows(LandedStates()[i], LandedSteps()[i], LandedStates()[i + 1], Bundle, true)
  {
    var s' := LandedStates()[i + 1];
    assert Next(LandedStates()[i], Bundle, true, LandedSteps()[i]).attempts == s'.attempts;
    assert [0] + [1] == [0, 1] && [] + [0] == [0];
  }

  /** Two jobs from the same instant although every enqueue and every release comes in time. */
  lemma LandedEnqueueDoublesJobs() returns (states: seq<State>, steps: seq<Step>)
    ensures IsRun(states, steps, Bundle, true)
    ensures forall k | 0 <= k < |steps| && (steps[k].Enqueue? || steps[k].Free?) :: InTime(states[k], steps[k].a)
    ensures forall k | 0 <= k < |steps| && k != 4 :: Prompt(states[k], steps[k])
    ensures |steps| == 9 && !Harmless(states[4], steps[4])
    ensures var s := states[|states| - 1];
            && s.jobs == [0, 1] && 0 in s.attempts && 1 in s.attempts
            && s.attempts[0].since == s.attempts[1].since
  {
    states, steps := LandedStates(), LandedSteps();
    forall i | 0 <= i < |steps| ensures Follows(states[i], steps[i], states[i + 1], Bundle, true) {
      LandedFollows(i);
    }
  }

  /** An attempt enqueues after its lease has passed to another. */
  function LateQueueStates(): seq<State> {
    var first, second := Some(Lease(0, LEASE_MS)), Some(Lease(1, 2 * LEASE_MS));
    var ready := Working(0, Enqueuing);
    [Init(0),
     State(0, first, map[0 := Working(0, Reading)], []),
     State(0, first, map[0 := Working(0, Marking)], []),
     State(0, first, map[0 := ready], []),
     State(LEASE_MS, first, map[0 := ready], []),
     State(LEASE_MS, second, map[0 := ready, 1 := Working(LEASE_MS, Reading)], []),
     State(LEASE_MS, second, map[0 := ready, 1 := Working(LEASE_MS, Marking)], []),
     State(LEASE_MS, second, map[0 := ready, 1 := Working(LEASE_MS, Enqueuing)], []),
     State(LEASE_MS, second, map[0 := ready, 1 := QueuedYes(LEASE_MS)], [1]),
     State(LEASE_MS, second, map[0 := QueuedYes(0), 1 := QueuedYes(LEASE_MS)], [1, 0])]
  }

  function LateQueueSteps(): seq<Step> {
    [Begin(0), LookUp(0, true), Mark(0, true), Tick(LEASE_MS), Begin(1), LookUp(1, true), Mark(1, true),
     Enqueue(1, true, true), Enqueue(0, true, true)]
  }

  lemma LateQueueFollows(i: nat)
    requires i < |LateQueueSteps()|
    ensures Follows(LateQueueStates()[i], LateQueueSteps()[i], LateQueueStates()[i + 1], Bundle, true)
  {
    var s' := LateQueueStates()[i + 1];
    assert Next(LateQueueStates()[i], Bundle, true, LateQueueSteps()[i]).attempts == s'.attempts;
    assert [1] + [0] == [1, 0] && [] + [1] == [1];
  }

  /** Two jobs reach the queue at one instant, the later acquisition first; nothing is ever released. */
  lemma LateEnqueueBreaksOrder() returns (states: seq<State>, steps: seq<Step>)
    ensures IsRun(states, steps, Bundle, true)
    ensures forall k | 0 <= k < |steps| :: !steps[k].Free?
    ensures forall k | 0 <= k < |steps| - 1 && steps[k].Enqueue? :: InTime(states[k], steps[k].a)
    ensures var s := states[|states| - 1];
            s.jobs == [1, 0] && states[|states| - 2].now == states[|states| - 3].now && !InOrder(s)
  {
    states, steps := LateQueueStates(), LateQueueSteps();
    forall i | 0 <= i < |steps| ensures Follows(states[i], steps[i], states[i + 1], Bundle, true) {
      LateQueueFollows(i);
    }
    var s := states[9];
    assert s.attempts[s.jobs[0]].since == Some(LEASE_MS) && s.attempts[s.jobs[1]].since == Some(0);
  }

  /** A thrown lookup, and a second attempt turned away in the last instant of the lease. */
  function BlockedStates(): seq<State> {
    var lease := Some(Lease(0, LEASE_MS));
    var threw := Attempt(Some(0), Answered(Threw), false, LookUpThrew);
    var away := Attempt(None, Answered(Replied(false)), false, NoLease);
    [Init(0),
     State(0, lease, map[0 := Working(0, Reading)], []),
     State(0, lease, map[0 := threw], []),
     State(LEASE_MS - 1, lease, map[0 := threw], []),
     State(LEASE_MS - 1, lease, map[0 := threw, 1 := away], [])]
  }

  /** In the end both attempts have answered, nothing was queued and the lease is still held. */
  lemma ThrownLookUpRun() returns (states: seq<State>, steps: seq<Step>)
    ensures IsRun(states, steps, Bundle, true)
    ensures steps == [Begin(0), LookUpFails(0), Tick(LEASE_MS - 1), Begin(1)]
    ensures var s := states[|states| - 1];
            && s.attempts.Keys == {0, 1} && s.attempts[0].phase == Answered(Threw)
            && s.attempts[1].phase == Answered(Replied(false)) && s.jobs == [] && Held(s)
  {
    states, steps := BlockedStates(), [Begin(0), LookUpFails(0), Tick(LEASE_MS - 1), Begin(1)];
    forall i | 0 <= i < |steps| ensures Follows(states[i], steps[i], states[i + 1], Bundle, true) {
      assert Next(states[i], Bundle, true, steps[i]).attempts == states[i + 1].attempts;
    }
  }
}
