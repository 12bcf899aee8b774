/**
 One regeneration request from start to end: what a whole request that nothing interrupts does to the
 lease and the queue, and the handlers that perform it on shared state.
 */
module RegenerationRequests {
  import opened Prelude
  import opened Regeneration

  datatype Look = Usable | Unusable | Fails

  /** What the stores and the queue answer to one request. */
  datatype Answers = Answers(first: Look, second: Look, mark: bool, enqueue: bool, free: bool)

  function StepFor(a: nat, phase: Phase, env: Answers): Step
    requires !phase.Answered?
  {
    match phase
    case Reading => if env.first.Fails? then LookUpFails(a) else LookUp(a, env.first.Usable?)
    case ReadingEvents => if env.second.Fails? then LookUpFails(a) else LookUp(a, env.second.Usable?)
    case Marking => Mark(a, env.mark)
    case Enqueuing => Enqueue(a, env.enqueue, env.enqueue)
    case Freeing(_) => Free(a, env.free, env.free)
  }

  function StepsLeft(phase: Phase): nat {
    match phase
    case Reading => 5
    case ReadingEvents => 4
    case Marking => 3
    case Enqueuing => 2
    case Freeing(_) => 1
    case Answered(_) => 0
  }

  /** The attempt alone, from where it is to its answer. */
  function Alone(s: State, kind: Kind, guarded: bool, a: nat, env: Answers): (r: State)
    requires a in s.attempts
    ensures a in r.attempts && r.attempts[a].phase.Answered?
    decreases StepsLeft(s.attempts[a].phase)
  {
    if s.attempts[a].phase.Answered? then s
    else Alone(Next(s, kind, guarded, StepFor(a, s.attempts[a].phase, env)), kind, guarded, a, env)
  }

  /** The last step of an attempt that gives its lease back. */
  lemma FreeingIsLast(s: State, kind: Kind, guarded: bool, a: nat, env: Answers)
    requires a in s.attempts && s.attempts[a].phase.Freeing?
    ensures Alone(s, kind, guarded, a, env) == Next(s, kind, guarded, Free(a, env.free, env.free))
  {
    assert Alone(Next(s, kind, guarded, Free(a, env.free, env.free)), kind, guarded, a, env)
        == Next(s, kind, guarded, Free(a, env.free, env.free));
  }

  /** One whole request that nothing interrupts, from the shared lease and queue. */
  function Whole(now: int, lease: Option<Lease>, jobs: seq<nat>, kind: Kind, guarded: bool, a: nat, env: Answers):
    (r: State)
    ensures a in r.attempts && r.attempts[a].phase.Answered?
  {
    Alone(Next(State(now, lease, map[], jobs), kind, guarded, Begin(a)), kind, guarded, a, env)
  }

  predicate QueuedIffYes(s: State, r: State, a: nat) {
    && a in r.attempts && r.attempts[a].phase.Answered?
    && r.jobs == if r.attempts[a].phase.reply == Replied(true) then s.jobs + [a] else s.jobs
  }

  /** Under way, and not about to answer yes without having queued. */
  predicate UnderWay(s: State, a: nat) {
    && a in s.attempts && !s.attempts[a].phase.Answered?
    && (s.attempts[a].phase.Freeing? ==> s.attempts[a].phase.reply != Replied(true))
  }

  lemma OneStepAlone(s: State, kind: Kind, guarded: bool, a: nat, env: Answers)
    requires UnderWay(s, a)
    ensures var next := Next(s, kind, guarded, StepFor(a, s.attempts[a].phase, env));
            QueuedIffYes(s, next, a) || (UnderWay(next, a) && next.jobs == s.jobs)
  {
  }

  /** An attempt under way queues its job exactly when it answers yes, and never twice. */
  lemma {:induction false} AloneQueuesIffYes(s: State, kind: Kind, guarded: bool, a: nat, env: Answers)
    requires UnderWay(s, a)
    ensures QueuedIffYes(s, Alone(s, kind, guarded, a, env), a)
    decreases StepsLeft(s.attempts[a].phase)
  {
    var next := Next(s, kind, guarded, StepFor(a, s.attempts[a].phase, env));
    OneStepAlone(s, kind, guarded, a, env);
    if !next.attempts[a].phase.Answered? {
      AloneQueuesIffYes(next, kind, guarded, a, env);
    }
  }

  /**
   A bundle request answers yes exactly when it queued its job; an improvement request also answers yes
   when the lease was taken, in which case it touched nothing.
   */
  lemma WholeQueuesIffYes(
      now: int, lease: Option<Lease>, jobs: seq<nat>, kind: Kind, guarded: bool, a: nat, env: Answers)
    ensures var r := Whole(now, lease, jobs, kind, guarded, a, env);
            var yes := r.attempts[a].phase.reply == Replied(true);
            if guarded && Held(State(now, lease, map[], jobs))
            then r.jobs == jobs && r.lease == lease && (yes <==> kind.Improvement?)
            else r.jobs == if yes then jobs + [a] else jobs
  {
    var s := Next(State(now, lease, map[], jobs), kind, guarded, Begin(a));
    if !s.attempts[a].phase.Answered? {
      AloneQueuesIffYes(s, kind, guarded, a, env);
    }
  }

  /** A lookup that the request gets to throws. */
  predicate LookUpThrows(kind: Kind, env: Answers) {
    env.first.Fails? || (kind.Improvement? && env.first.Usable? && env.second.Fails?)
  }

  /** Everything on the way to the queue succeeds. */
  predicate Queues(kind: Kind, env: Answers) {
    && env.first.Usable? && env.enqueue
    && match kind
       case Bundle => env.mark
       case Improvement => env.second.Usable?
  }

  lemma OneStepKeepsRest(s: State, kind: Kind, guarded: bool, a: nat, env: Answers)
    requires a in s.attempts && !s.attempts[a].phase.Answered?
    ensures var s' := Next(s, kind, guarded, StepFor(a, s.attempts[a].phase, env));
            s'.now == s.now && s'.attempts.Keys == s.attempts.Keys
  {
  }

  lemma {:induction false} AloneKeepsRest(s: State, kind: Kind, guarded: bool, a: nat, env: Answers)
    requires a in s.attempts
    ensures var r := Alone(s, kind, guarded, a, env);
            r.now == s.now && r.attempts.Keys == s.attempts.Keys
    decreases StepsLeft(s.attempts[a].phase)
  {
    if !s.attempts[a].phase.Answered? {
      OneStepKeepsRest(s, kind, guarded, a, env);
      AloneKeepsRest(Next(s, kind, guarded, StepFor(a, s.attempts[a].phase, env)), kind, guarded, a, env);
    }
  }

  /** From the enqueue on: the lease comes back exactly when the enqueue fails and the release works. */
  lemma EnqueuingFreesIff(s: State, kind: Kind, a: nat, env: Answers)
    requires a in s.attempts && s.attempts[a].phase.Enqueuing? && s.lease.Some?
    ensures var r := Alone(s, kind, true, a, env);
            && r.lease == (if !env.enqueue && env.free then None else s.lease)
            && (r.attempts[a].phase.reply == Replied(true) <==> env.enqueue)
  {
    var s' := Next(s, kind, true, Enqueue(a, env.enqueue, env.enqueue));
    assert Alone(s, kind, true, a, env) == Alone(s', kind, true, a, env);
    if !env.enqueue {
      FreeingIsLast(s', kind, true, a, env);
    }
  }

  lemma MarkingFreesIff(s: State, a: nat, env: Answers)
    requires a in s.attempts && s.attempts[a].phase.Marking? && s.lease.Some?
    ensures var r := Alone(s, Bundle, true, a, env);
            && r.lease == (if !(env.mark && env.enqueue) && env.free then None else s.lease)
            && (r.attempts[a].phase.reply == Replied(true) <==> env.mark && env.enqueue)
  {
    var s' := Next(s, Bundle, true, Mark(a, env.mark));
    assert Alone(s, Bundle, true, a, env) == Alone(s', Bundle, true, a, env);
    if env.mark {
      EnqueuingFreesIff(s', Bundle, a, env);
    } else {
      FreeingIsLast(s', Bundle, true, a, env);
    }
  }

  lemma ReadingEventsFreesIff(s: State, a: nat, env: Answers)
    requires a in s.attempts && s.attempts[a].phase.ReadingEvents? && s.lease.Some?
    ensures var r := Alone(s, Improvement, true, a, env);
            var yes := env.second.Usable? && env.enqueue;
            && r.lease == (if !env.second.Fails? && !yes && env.free then None else s.lease)
            && (r.attempts[a].phase.reply == Replied(true) <==> yes)
  {
    var s' := Next(s, Improvement, true, StepFor(a, ReadingEvents, env));
    assert Alone(s, Improvement, true, a, env) == Alone(s', Improvement, true, a, env);
    if env.second.Usable? {
      EnqueuingFreesIff(s', Improvement, a, env);
    } else if env.second.Unusable? {
      FreeingIsLast(s', Improvement, true, a, env);
    }
  }

  lemma ReadingFreesIff(s: State, kind: Kind, a: nat, env: Answers)
    requires a in s.attempts && s.attempts[a].phase.Reading? && s.lease.Some?
    ensures var r := Alone(s, kind, true, a, env);
            && r.lease == (if !LookUpThrows(kind, env) && !Queues(kind, env) && env.free then None else s.lease)
            && (r.attempts[a].phase.reply == Replied(true) <==> Queues(kind, env))
  {
    var s' := Next(s, kind, true, StepFor(a, Reading, env));
    assert Alone(s, kind, true, a, env) == Alone(s', kind, true, a, env);
    if env.first.Unusable? {
      FreeingIsLast(s', kind, true, a, env);
    } else if env.first.Usable? {
      if kind.Bundle? {
        MarkingFreesIff(s', a, env);
      } else {
        ReadingEventsFreesIff(s', a, env);
      }
    }
  }

  /**
   A whole request that took the lease leaves it free exactly when no lookup it got to threw, it did not
   answer yes, and its release worked; otherwise the lease is its own for the full period.  One that was
   turned away leaves the lease as it was.
   */
  lemma WholeFreesIff(now: int, lease: Option<Lease>, jobs: seq<nat>, kind: Kind, a: nat, env: Answers)
    ensures var r := Whole(now, lease, jobs, kind, true, a, env);
            var yes := r.attempts[a].phase.reply == Replied(true);
            if Held(State(now, lease, map[], jobs)) then r.lease == lease
            else
              && (r.lease == None <==> !LookUpThrows(kind, env) && !yes && env.free)
              && (r.lease != None ==> r.lease == Some(Lease(a, now + 30_000)))
              && (yes <==> Queues(kind, env))
  {
    var s := State(now, lease, map[], jobs);
    if !Held(s) {
      ReadingFreesIff(Next(s, kind, true, Begin(a)), kind, a, env);
    }
  }

  /** So the next request, at the same instant, gets the lease exactly then. */
  lemma FreedAtOnce(now: int, lease: Option<Lease>, jobs: seq<nat>, kind: Kind, a: nat, env: Answers, next: nat)
    ensures var r := Whole(now, lease, jobs, kind, true, a, env);
            next != a ==>
              && next !in r.attempts
              && (Next(r, kind, true, Begin(next)).attempts[next].since == Some(now) <==>
                    && !Held(State(now, lease, map[], jobs)) && !LookUpThrows(kind, env)
                    && r.attempts[a].phase.reply != Replied(true) && env.free)
  {
    var s := Next(State(now, lease, map[], jobs), kind, true, Begin(a));
    WholeFreesIff(now, lease, jobs, kind, a, env);
    AloneKeepsRest(s, kind, true, a, env);
  }

  /** The request handlers, over the shared lease and queue they update. */
  class Requester {
    const guarded: bool
    var now: int
    var lease: Option<Lease>
    var jobs: seq<nat>

    constructor (guarded: bool, now: int)
      ensures this.guarded == guarded && this.now == now && lease == None && jobs == []
    {
      this.guarded, this.now := guarded, now;
      lease, jobs := None, [];
    }

    method AcquireLease(a: nat) returns (acquired: bool)
      requires guarded
      modifies this`lease
      ensures acquired <==> !old(Held(State(now, lease, map[], jobs)))
      ensures lease == old(Took(State(now, lease, map[], jobs), a).lease)
    {
      acquired := lease.None? || lease.value.expiry <= now;
      if acquired {
        lease := Some(Lease(a, now + LEASE_MS));
      }
    }

    /** Gives the lease back, if there are leases, and then the reply. */
    method ReleaseLease(ok: bool, reply: Reply) returns (r: Reply)
      modifies this`lease
      ensures lease == if guarded && ok then None else old(lease)
      ensures r == if ok || !guarded then reply else Threw
    {
      if guarded && ok {
        lease := None;
      }
      return if ok || !guarded then reply else Threw;
    }

    /** The shared fields are those of `s`, where the attempt is in the given phase. */
    ghost predicate Stands(s: State, a: nat, phase: Phase)
      reads this
    {
      a in s.attempts && s.attempts[a].phase == phase && s.lease == lease && s.jobs == jobs
    }

    ghost predicate Ends(r: State, a: nat, reply: Reply)
      requires a in r.attempts && r.attempts[a].phase.Answered?
      reads this
    {
      lease == r.lease && jobs == r.jobs && reply == r.attempts[a].phase.reply
    }

    method GiveUp(ghost s: State, ghost kind: Kind, a: nat, reply: Reply, env: Answers) returns (r: Reply)
      requires Stands(s, a, Freeing(reply))
      modifies this`lease
      ensures Ends(Alone(s, kind, guarded, a, env), a, r)
    {
      FreeingIsLast(s, kind, guarded, a, env);
      r := ReleaseLease(env.free, reply);
    }

    method EnqueueJob(ghost s: State, ghost kind: Kind, a: nat, env: Answers) returns (r: Reply)
      requires Stands(s, a, Enqueuing)
      modifies this`lease, this`jobs
      ensures Ends(Alone(s, kind, guarded, a, env), a, r)
    {
      ghost var s' := Next(s, kind, guarded, Enqueue(a, env.enqueue, env.enqueue));
      assert Alone(s, kind, guarded, a, env) == Alone(s', kind, guarded, a, env);
      if !env.enqueue {
        r := GiveUp(s', kind, a, Threw, env);
        return;
      }
      jobs := jobs + [a];
      return Replied(true);
    }

    method MarkAndEnqueue(ghost s: State, a: nat, env: Answers) returns (r: Reply)
      requires Stands(s, a, Marking)
      modifies this`lease, this`jobs
      ensures Ends(Alone(s, Bundle, guarded, a, env), a, r)
    {
      ghost var s' := Next(s, Bundle, guarded, Mark(a, env.mark));
      assert Alone(s, Bundle, guarded, a, env) == Alone(s', Bundle, guarded, a, env);
      if !env.mark {
        r := GiveUp(s', Bundle, a, Threw, env);
      } else {
        r := EnqueueJob(s', Bundle, a, env);
      }
    }

    method RequestBundle(a: nat, env: Answers) returns (r: Reply)
      modifies this`lease, this`jobs
      ensures Ends(Whole(now, old(lease), old(jobs), Bundle, guarded, a, env), a, r)
    {
      ghost var s := Next(State(now, lease, map[], jobs), Bundle, guarded, Begin(a));
      if guarded {
        var acquired := AcquireLease(a);
        if !acquired {
          return Replied(false);
        }
      }
      assert Stands(s, a, Reading);
      ghost var s' := Next(s, Bundle, guarded, StepFor(a, Reading, env));
      assert Alone(s, Bundle, guarded, a, env) == Alone(s', Bundle, guarded, a, env);
      if env.first.Fails? {
        return Threw;
      }
      if env.first.Unusable? {
        r := GiveUp(s', Bundle, a, Replied(false), env);
        return;
      }
      r := MarkAndEnqueue(s', a, env);
    }

    method ReadEvents(ghost s: State, a: nat, env: Answers) returns (r: Reply)
      requires Stands(s, a, ReadingEvents)
      modifies this`lease, this`jobs
      ensures Ends(Alone(s, Improvement, guarded, a, env), a, r)
    {
      ghost var s' := Next(s, Improvement, guarded, StepFor(a, ReadingEvents, env));
      assert Alone(s, Improvement, guarded, a, env) == Alone(s', Improvement, guarded, a, env);
      if env.second.Fails? {
        return Threw;
      }
      if env.second.Unusable? {
        r := GiveUp(s', Improvement, a, Replied(false), env);
        return;
      }
      r := EnqueueJob(s', Improvement, a, env);
    }

    method RequestImprovement(a: nat, env: Answers) returns (r: Reply)
      modifies this`lease, this`jobs
      ensures Ends(Whole(now, old(lease), old(jobs), Improvement, guarded, a, env), a, r)
    {
      ghost var s := Next(State(now, lease, map[], jobs), Improvement, guarded, Begin(a));
      if guarded {
        var acquired := AcquireLease(a);
        if !acquired {
          return Replied(true);
        }
      }
      assert Stands(s, a, Reading);
      ghost var s' := Next(s, Improvement, guarded, StepFor(a, Reading, env));
      assert Alone(s, Improvement, guarded, a, env) == Alone(s', Improvement, guarded, a, env);
      if env.first.Fails? {
        return Threw;
      }
      if env.first.Unusable? {
        r := GiveUp(s', Improvement, a, Replied(false), env);
        return;
      }
      r := ReadEvents(s', a, env);
    }
  }
}
