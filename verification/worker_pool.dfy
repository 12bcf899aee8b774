/**
 The load check's workers: each takes the next index of a shared plan, waits for its response and
 records the result, until the plan is used up.  Workers interleave only while they wait.
 */
module WorkerPool {
  import opened Prelude
  import Percentile

  datatype Worker = Idle | Busy(index: nat) | Stopped

  datatype State = State(next: nat, workers: seq<Worker>, results: seq<nat>)

  datatype Step = Take(w: nat) | Finish(w: nat)

  predicate Enabled(s: State, step: Step) {
    step.w < |s.workers| && if step.Take? then s.workers[step.w].Idle? else s.workers[step.w].Busy?
  }

  /** The shared index moves on even when it is past the end. */
  function Next(s: State, n: nat, step: Step): State
    requires Enabled(s, step)
  {
    match step
    case Take(w) =>
      s.(next := s.next + 1, workers := s.workers[w := if s.next >= n then Stopped else Busy(s.next)])
    case Finish(w) =>
      s.(workers := s.workers[w := Idle], results := s.results + [s.workers[w].index])
  }

  predicate Works(s: State, w: nat, i: nat) {
    w < |s.workers| && s.workers[w] == Busy(i)
  }

  ghost predicate Held(s: State, i: nat) {
    exists w: nat :: Works(s, w, i)
  }

  /** Every index handed out is recorded or being worked on, and that once. */
  ghost predicate Inv(s: State, n: nat) {
    && NoRepeats(s.results)
    && (forall i | i in s.results :: i < Min(s.next, n))
    && (forall w: nat, i: nat | Works(s, w, i) :: i < Min(s.next, n) && i !in s.results)
    && (forall v: nat, w: nat, i: nat | Works(s, v, i) && Works(s, w, i) :: v == w)
    && (forall i: nat | i < Min(s.next, n) :: i in s.results || Held(s, i))
    && ((exists w :: 0 <= w < |s.workers| && s.workers[w].Stopped?) ==> s.next >= n)
  }

  lemma TakeKeepsInv(s: State, n: nat, w: nat)
    requires Inv(s, n) && Enabled(s, Take(w))
    ensures Inv(Next(s, n, Take(w)), n)
  {
    var s' := Next(s, n, Take(w));
    forall i: nat | i < Min(s'.next, n) ensures i in s'.results || Held(s', i) {
      if i == s.next {
        assert Works(s', w, i);
      } else if i !in s.results {
        var v :| Works(s, v, i);
        assert Works(s', v, i);
      }
    }
    forall v: nat, i: nat | Works(s', v, i) ensures v == w || Works(s, v, i) {
    }
  }

  lemma FinishKeepsInv(s: State, n: nat, w: nat)
    requires Inv(s, n) && Enabled(s, Finish(w))
    ensures Inv(Next(s, n, Finish(w)), n)
  {
    var s' := Next(s, n, Finish(w));
    var index := s.workers[w].index;
    assert Works(s, w, index);
    forall v: nat, i: nat | Works(s', v, i) ensures Works(s, v, i) && v != w && i != index {
      assert Works(s, v, i);
    }
    forall i: nat | i < Min(s'.next, n) ensures i in s'.results || Held(s', i) {
      if i != index && i !in s.results {
        var v :| Works(s, v, i);
        assert Works(s', v, i);
      }
    }
  }

  ghost predicate IsRun(states: seq<State>, steps: seq<Step>, n: nat, workers: nat) {
    && |states| == |steps| + 1 && states[0] == State(0, seq(workers, _ => Idle), [])
    && forall i | 0 <= i < |steps| :: Enabled(states[i], steps[i]) && states[i + 1] == Next(states[i], n, steps[i])
  }

  lemma {:induction false} RunKeepsInv(states: seq<State>, steps: seq<Step>, n: nat, workers: nat, i: nat)
    requires IsRun(states, steps, n, workers) && i < |states|
    ensures Inv(states[i], n) && |states[i].workers| == workers
  {
    if i > 0 {
      RunKeepsInv(states, steps, n, workers, i - 1);
      match steps[i - 1]
      case Take(w) => TakeKeepsInv(states[i - 1], n, w);
      case Finish(w) => FinishKeepsInv(states[i - 1], n, w);
    }
  }

  function Upto(n: nat): seq<nat> {
    if n == 0 then [] else Upto(n - 1) + [n - 1]
  }

  lemma {:induction false} UptoMembers(n: nat)
    ensures |Upto(n)| == n && NoRepeats(Upto(n)) && forall i: nat :: i in Upto(n) <==> i < n
  {
    if n > 0 {
      UptoMembers(n - 1);
      forall k | 0 <= k < n - 1 ensures Upto(n)[k] != Upto(n)[n - 1] {
        assert Upto(n)[k] == Upto(n - 1)[k] && Upto(n - 1)[k] in Upto(n - 1);
      }
    }
  }

  lemma {:induction false} DistinctCount(xs: seq<nat>, x: nat)
    requires NoRepeats(xs)
    ensures multiset(xs)[x] == if x in xs then 1 else 0
  {
    if xs != [] {
      var n := |xs| - 1;
      assert xs == xs[..n] + [xs[n]];
      DistinctCount(xs[..n], x);
      assert xs[n] !in xs[..n];
    }
  }

  predicate AllStopped(s: State, workers: nat) {
    workers > 0 && |s.workers| == workers && forall w | 0 <= w < workers :: s.workers[w].Stopped?
  }

  /** Once every worker has stopped, each entry of the plan has exactly one result, in whatever order. */
  lemma EveryEntryOnce(states: seq<State>, steps: seq<Step>, n: nat, workers: nat, i: nat)
    requires IsRun(states, steps, n, workers) && i < |states| && AllStopped(states[i], workers)
    ensures multiset(states[i].results) == multiset(Upto(n))
  {
    RunKeepsInv(states, steps, n, workers, i);
    UptoMembers(n);
    var s := states[i];
    assert s.workers[0].Stopped?;
    forall x: nat ensures multiset(s.results)[x] == multiset(Upto(n))[x] {
      DistinctCount(s.results, x);
      DistinctCount(Upto(n), x);
      assert !Held(s, x);
    }
  }

  // ---------------------------------------------------------------- the schedule does not show

  function Timings(time: nat -> real, xs: seq<nat>): seq<real> {
    seq(|xs|, i requires 0 <= i < |xs| => time(xs[i]))
  }

  lemma TimingsAppend(time: nat -> real, xs: seq<nat>, ys: seq<nat>)
    ensures Timings(time, xs + ys) == Timings(time, xs) + Timings(time, ys)
  {
  }

  lemma TimingsAround(time: nat -> real, before: seq<nat>, y: nat, after: seq<nat>)
    ensures multiset(Timings(time, before + ([y] + after))) ==
            multiset(Timings(time, before + after)) + multiset{time(y)}
  {
    TimingsAppend(time, before, after);
    TimingsAppend(time, [y], after);
    TimingsAppend(time, before, [y] + after);
    assert Timings(time, [y]) == [time(y)];
    InsertBetween(Timings(time, before), time(y), Timings(time, after));
  }

  lemma TimingsWithout(time: nat -> real, ys: seq<nat>, k: nat)
    requires k < |ys|
    ensures multiset(Timings(time, ys)) == multiset(Timings(time, ys[..k] + ys[k + 1..])) + multiset{time(ys[k])}
  {
    assert ys == ys[..k] + ([ys[k]] + ys[k + 1..]);
    TimingsAround(time, ys[..k], ys[k], ys[k + 1..]);
  }

  lemma {:induction false} TimingsPermuted(time: nat -> real, xs: seq<nat>, ys: seq<nat>)
    requires multiset(xs) == multiset(ys)
    ensures multiset(Timings(time, xs)) == multiset(Timings(time, ys))
    decreases |xs|
  {
    if xs == [] {
      assert |ys| == |multiset(ys)| == 0;
    } else {
      assert xs[0] in multiset(ys);
      var k :| 0 <= k < |ys| && ys[k] == xs[0];
      SameRest(xs, ys, k);
      TimingsPermuted(time, xs[..0] + xs[1..], ys[..k] + ys[k + 1..]);
      TimingsWithout(time, xs, 0);
      TimingsWithout(time, ys, k);
    }
  }

  lemma SameRest(xs: seq<nat>, ys: seq<nat>, k: nat)
    requires multiset(xs) == multiset(ys) && xs != [] && k < |ys| && ys[k] == xs[0]
    ensures multiset(xs[..0] + xs[1..]) == multiset(ys[..k] + ys[k + 1..])
    ensures |xs[..0] + xs[1..]| < |xs|
  {
    RemoveAt(xs, 0);
    RemoveAt(ys, k);
  }

  /**
   Two finished runs over one plan, with any numbers of workers and any interleavings, report the same
   summary when each request takes the same time in both.
   */
  lemma ScheduleDoesNotShow(
      states: seq<State>, steps: seq<Step>, workers: nat, i: nat,
      states': seq<State>, steps': seq<Step>, workers': nat, j: nat, n: nat, time: nat -> real)
    requires IsRun(states, steps, n, workers) && i < |states| && AllStopped(states[i], workers)
    requires IsRun(states', steps', n, workers') && j < |states'| && AllStopped(states'[j], workers')
    ensures Percentile.Summarize(Timings(time, states[i].results))
         == Percentile.Summarize(Timings(time, states'[j].results))
  {
    EveryEntryOnce(states, steps, n, workers, i);
    EveryEntryOnce(states', steps', n, workers', j);
    TimingsPermuted(time, states[i].results, states'[j].results);
    Percentile.OrderDoesNotMatter(Timings(time, states[i].results), Timings(time, states'[j].results));
  }
}
