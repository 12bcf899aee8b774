/**
 The in-process capacity counter of the OAuth relay.  A call suspends only while the provider
 writes its response, so the test of the counter and its increment are one step; the settled
 flag lets the first of finish, close and throw decide, and the decrement follows later.
 */
module OAuthRelay {
  import opened Prelude

  datatype Event = Finished | Closed | Threw

  datatype Call = Refused | Relaying | Settled(failed: bool) | Ended(failed: bool)

  datatype State = State(active: int, calls: map<nat, Call>)

  datatype Step = Arrive(id: nat) | Signal(id: nat, event: Event) | Resume(id: nat)

  predicate Enabled(s: State, step: Step) {
    match step
    case Arrive(id) => id !in s.calls
    case Signal(id, _) => id in s.calls && !s.calls[id].Refused?
    case Resume(id) => id in s.calls && s.calls[id].Settled?
  }

  /** An event settles a call once; afterwards it changes nothing. */
  function AfterEvent(c: Call, event: Event): Call {
    if c.Relaying? then Settled(event.Threw?) else c
  }

  function Next(s: State, max: int, step: Step): State
    requires Enabled(s, step)
  {
    match step
    case Arrive(id) =>
      if s.active >= max then s.(calls := s.calls[id := Refused])
      else State(s.active + 1, s.calls[id := Relaying])
    case Signal(id, event) => s.(calls := s.calls[id := AfterEvent(s.calls[id], event)])
    case Resume(id) => State(s.active - 1, s.calls[id := Ended(s.calls[id].failed)])
  }

  predicate Open(c: Call) {
    c.Relaying? || c.Settled?
  }

  /** The calls between admission and completion. */
  function InFlight(s: State): set<nat> {
    set id | id in s.calls && Open(s.calls[id])
  }

  predicate Counted(s: State, max: int) {
    s.active == |InFlight(s)| && s.active <= Max(0, max)
  }

  lemma StepKeepsCount(s: State, max: int, step: Step)
    requires Counted(s, max) && Enabled(s, step)
    ensures Counted(Next(s, max, step), max)
  {
    var s' := Next(s, max, step);
    match step
    case Arrive(id) =>
      if s.active >= max {
        assert InFlight(s') == InFlight(s);
      } else {
        assert InFlight(s') == InFlight(s) + {id};
      }
    case Signal(_, _) => assert InFlight(s') == InFlight(s);
    case Resume(id) =>
      assert id in InFlight(s);
      assert InFlight(s') == InFlight(s) - {id};
  }

  ghost predicate IsRun(states: seq<State>, steps: seq<Step>, max: int) {
    && |states| == |steps| + 1 && states[0] == State(0, map[])
    && forall i | 0 <= i < |steps| :: Enabled(states[i], steps[i]) && states[i + 1] == Next(states[i], max, steps[i])
  }

  /**
   At every point of every interleaving the counter is the number of calls between admission and
   completion and lies between zero and the limit; it is zero exactly when none is in flight.
   */
  lemma {:induction false} CounterIsExact(states: seq<State>, steps: seq<Step>, max: int, i: nat)
    requires IsRun(states, steps, max) && i < |states|
    ensures states[i].active == |InFlight(states[i])|
    ensures 0 <= states[i].active <= Max(0, max)
    ensures states[i].active == 0 <==> forall id | id in states[i].calls :: !Open(states[i].calls[id])
  {
    if i > 0 {
      CounterIsExact(states, steps, max, i - 1);
      StepKeepsCount(states[i - 1], max, steps[i - 1]);
    }
    assert states[i].active == 0 ==> InFlight(states[i]) == {};
    forall id | id in states[i].calls && states[i].active == 0 ensures !Open(states[i].calls[id]) {
      assert id !in InFlight(states[i]);
    }
    if forall id | id in states[i].calls :: !Open(states[i].calls[id]) {
      assert InFlight(states[i]) == {};
    }
  }

  /** A call is turned away exactly when the limit's worth of others are in flight at that moment. */
  lemma RefusedOnlyWhenFull(states: seq<State>, steps: seq<Step>, max: int, i: nat)
    requires IsRun(states, steps, max) && i < |steps| && steps[i].Arrive?
    ensures states[i + 1].calls[steps[i].id].Refused? <==> |InFlight(states[i])| >= max
  {
    CounterIsExact(states, steps, max, i);
  }

  /** How often call `id` lowered the counter in the first `n` steps. */
  function Decrements(steps: seq<Step>, id: nat, n: nat): nat
    requires n <= |steps|
  {
    if n == 0 then 0
    else Decrements(steps, id, n - 1) + if steps[n - 1] == Resume(id) then 1 else 0
  }

  /** However many events a response raises, its call lowers the counter once, and only if it raised it. */
  lemma {:induction false} LowersOnce(states: seq<State>, steps: seq<Step>, max: int, id: nat, i: nat)
    requires IsRun(states, steps, max) && i < |states|
    ensures Decrements(steps, id, i) == if id in states[i].calls && states[i].calls[id].Ended? then 1 else 0
  {
    if i > 0 {
      LowersOnce(states, steps, max, id, i - 1);
      assert Enabled(states[i - 1], steps[i - 1]) && states[i] == Next(states[i - 1], max, steps[i - 1]);
    }
  }

  /** The first event decides whether the call is recorded as failed. */
  lemma {:induction false} FirstEventDecides(states: seq<State>, steps: seq<Step>, max: int, i: nat, j: nat, id: nat)
    requires IsRun(states, steps, max) && i < j < |states|
    requires steps[i].Signal? && steps[i].id == id && states[i].calls[id].Relaying?
    ensures id in states[j].calls
    ensures states[j].calls[id].Settled? || states[j].calls[id].Ended?
    ensures states[j].calls[id].failed == steps[i].event.Threw?
    decreases j
  {
    assert Enabled(states[j - 1], steps[j - 1]) && states[j] == Next(states[j - 1], max, steps[j - 1]);
    if i < j - 1 {
      FirstEventDecides(states, steps, max, i, j - 1, id);
    }
  }

  /** The counter and the calls it counts, updated in place. */
  class Relay {
    const max: int
    var active: int
    var calls: map<nat, Call>

    function View(): State
      reads this
    {
      State(active, calls)
    }

    constructor (max: int)
      ensures View() == State(0, map[]) && this.max == max && Counted(View(), max)
    {
      this.max := max;
      active, calls := 0, map[];
      new;
      assert InFlight(View()) == {};
    }

    method Admit(id: nat) returns (ok: bool)
      requires Counted(View(), max) && id !in calls
      modifies this
      ensures View() == Next(old(View()), max, Arrive(id)) && Counted(View(), max)
      ensures ok <==> |InFlight(old(View()))| < max
      ensures ok ==> id in InFlight(View())
    {
      StepKeepsCount(View(), max, Arrive(id));
      if active >= max {
        calls := calls[id := Refused];
        return false;
      }
      active := active + 1;
      calls := calls[id := Relaying];
      return true;
    }

    method OnEvent(id: nat, event: Event)
      requires Counted(View(), max) && id in calls && !calls[id].Refused?
      modifies this
      ensures View() == Next(old(View()), max, Signal(id, event)) && Counted(View(), max)
      ensures InFlight(View()) == InFlight(old(View()))
    {
      StepKeepsCount(View(), max, Signal(id, event));
      if calls[id].Relaying? {
        calls := calls[id := Settled(event.Threw?)];
      } else {
        assert calls == calls[id := calls[id]];
      }
    }

    method Complete(id: nat) returns (failed: bool)
      requires Counted(View(), max) && id in calls && calls[id].Settled?
      modifies this
      ensures View() == Next(old(View()), max, Resume(id)) && Counted(View(), max)
      ensures failed == old(calls)[id].failed && InFlight(View()) == InFlight(old(View())) - {id}
    {
      StepKeepsCount(View(), max, Resume(id));
      failed := calls[id].failed;
      calls := calls[id := Ended(failed)];
      active := active - 1;
    }
  }
}
