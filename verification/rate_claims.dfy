/**
 Request rate limits: a log of accepted instants per subject that only looks back one window, and
 the loop that claims several limits and stops at the first refusal.
 */
module RateClaims {
  import opened Prelude

  const WINDOW_MS := 60_000

  /** Accepted instants still remembered. */
  type Log = seq<int>

  datatype Answer = Answer(allowed: bool, log: Log, retryMs: int)

  function Recent(log: Log, now: int): Log {
    Filter((t: int) => t > now - WINDOW_MS, log)
  }

  function Earliest(log: Log): int
    requires log != []
  {
    if |log| == 1 then log[0] else Min(log[0], Earliest(log[1..]))
  }

  function Limit(limit: int): nat {
    Max(1, limit)
  }

  function Claim(log: Log, limit: int, now: int): Answer {
    var recent := Recent(log, now);
    if |recent| >= Limit(limit) then Answer(false, recent, Max(1, Earliest(recent) + WINDOW_MS - now))
    else Answer(true, recent + [now], 0)
  }

  // ---------------------------------------------------------------- the sliding window

  /** Instants above `low` and at most `high`. */
  function Within(xs: seq<int>, low: int, high: int): nat {
    if xs == [] then 0 else Within(xs[..|xs| - 1], low, high) + if low < xs[|xs| - 1] <= high then 1 else 0
  }

  predicate Ascending(xs: seq<int>) {
    forall i, j | 0 <= i <= j < |xs| :: xs[i] <= xs[j]
  }

  datatype Memory = Memory(log: Log, accepted: seq<int>)

  /** The log after the claims at `times`, and every instant accepted so far. */
  function Play(limit: int, times: seq<int>): Memory {
    if times == [] then Memory([], [])
    else
      var n := |times| - 1;
      var before := Play(limit, times[..n]);
      var a := Claim(before.log, limit, times[n]);
      Memory(a.log, if a.allowed then before.accepted + [times[n]] else before.accepted)
  }

  lemma {:induction false} RecentOfAppend(xs: seq<int>, x: int, now: int)
    ensures Recent(xs + [x], now) == Recent(xs, now) + if x > now - WINDOW_MS then [x] else []
  {
    FilterAppend((t: int) => t > now - WINDOW_MS, xs, [x]);
    assert Filter((t: int) => t > now - WINDOW_MS, []) == [];
  }

  /** Looking back from a later instant, what was forgotten earlier makes no difference. */
  lemma {:induction false} RecentOfRecent(xs: seq<int>, earlier: int, now: int)
    requires earlier <= now
    ensures Recent(Recent(xs, earlier), now) == Recent(xs, now)
  {
    if xs == [] {
    } else {
      var n := |xs| - 1;
      assert xs == xs[..n] + [xs[n]];
      RecentOfRecent(xs[..n], earlier, now);
      RecentOfAppend(xs[..n], xs[n], earlier);
      RecentOfAppend(xs[..n], xs[n], now);
      RecentOfAppend(Recent(xs[..n], earlier), xs[n], now);
      assert Recent(xs[..n], earlier) + [] == Recent(xs[..n], earlier);
    }
  }

  lemma {:induction false} RecentCounts(xs: seq<int>, now: int)
    requires forall i | 0 <= i < |xs| :: xs[i] <= now
    ensures |Recent(xs, now)| == Within(xs, now - WINDOW_MS, now)
  {
    if xs != [] {
      var n := |xs| - 1;
      assert xs == xs[..n] + [xs[n]];
      RecentCounts(xs[..n], now);
      RecentOfAppend(xs[..n], xs[n], now);
    }
  }

  /** What the log remembers of the accepted instants, as seen from `now` on. */
  lemma {:induction false} LogIsRecent(limit: int, times: seq<int>, now: int)
    requires Ascending(times) && forall i | 0 <= i < |times| :: times[i] <= now
    ensures var m := Play(limit, times);
            && Recent(m.log, now) == Recent(m.accepted, now)
            && Ascending(m.accepted) && |m.log| <= Limit(limit)
            && forall i | 0 <= i < |m.accepted| :: m.accepted[i] <= now
  {
    if times != [] {
      var n := |times| - 1;
      var t := times[n];
      var before := Play(limit, times[..n]);
      LogIsRecent(limit, times[..n], t);
      RecentOfRecent(before.log, t, now);
      RecentOfRecent(before.accepted, t, now);
      RecentOfAppend(Recent(before.log, t), t, now);
      RecentOfAppend(before.accepted, t, now);
    }
  }

  lemma {:induction false} WithinNarrows(xs: seq<int>, low: int, high: int, low': int, high': int)
    requires low' <= low && forall i | 0 <= i < |xs| :: low < xs[i] <= high ==> xs[i] <= high'
    ensures Within(xs, low, high) <= Within(xs, low', high')
  {
    if xs != [] {
      WithinNarrows(xs[..|xs| - 1], low, high, low', high');
    }
  }

  lemma WithinAppend(xs: seq<int>, x: int, low: int, high: int)
    ensures Within(xs + [x], low, high) == Within(xs, low, high) + if low < x <= high then 1 else 0
  {
    assert (xs + [x])[..|xs|] == xs;
  }

  lemma AcceptedFits(limit: int, times: seq<int>, t: int, start: int)
    requires Ascending(times) && forall i | 0 <= i < |times| :: times[i] <= t
    requires Claim(Play(limit, times).log, limit, t).allowed && start < t <= start + WINDOW_MS
    ensures Within(Play(limit, times).accepted, start, start + WINDOW_MS) < Limit(limit)
  {
    var accepted := Play(limit, times).accepted;
    LogIsRecent(limit, times, t);
    RecentCounts(accepted, t);
    WithinNarrows(accepted, start, start + WINDOW_MS, t - WINDOW_MS, t);
  }

  /**
   With times that do not go back, no window of a minute ever contains more accepted requests than the
   configured limit, wherever it starts; a limit below one counts as one.
   */
  lemma {:induction false} WindowIsBounded(limit: int, times: seq<int>, start: int)
    requires Ascending(times)
    ensures Within(Play(limit, times).accepted, start, start + 60_000) <= if limit >= 1 then limit else 1
  {
    if times != [] {
      var n := |times| - 1;
      var before := Play(limit, times[..n]);
      WindowIsBounded(limit, times[..n], start);
      WithinAppend(before.accepted, times[n], start, start + WINDOW_MS);
      if Claim(before.log, limit, times[n]).allowed && start < times[n] <= start + WINDOW_MS {
        AcceptedFits(limit, times[..n], times[n], start);
      }
      assert Play(limit, times).accepted ==
             if Claim(before.log, limit, times[n]).allowed then before.accepted + [times[n]] else before.accepted;
    }
  }

  // ---------------------------------------------------------------- clocks that go back

  /** No claim is dated more than `d` before the claim that came before it. */
  predicate BackAtMost(times: seq<int>, d: nat) {
    forall i | 0 <= i < |times| - 1 :: times[i] - times[i + 1] <= d
  }

  predicate WindowFits(limit: int, times: seq<int>, start: int) {
    Within(Play(limit, times).accepted, start, start + 60_000) <= if limit >= 1 then limit else 1
  }

  ghost predicate EveryWindowFits(limit: int, times: seq<int>) {
    forall start :: WindowFits(limit, times, start)
  }

  lemma {:induction false} NeverBackIsAscending(times: seq<int>)
    requires BackAtMost(times, 0)
    ensures Ascending(times)
  {
    if times != [] {
      var n := |times| - 1;
      forall i | 0 <= i < n - 1 ensures times[..n][i] - times[..n][i + 1] <= 0 {
        assert times[i] - times[i + 1] <= 0;
      }
      NeverBackIsAscending(times[..n]);
      forall i, j | 0 <= i <= j < |times| ensures times[i] <= times[j] {
        if j == n && i < n {
          assert times[..n][i] <= times[..n][n - 1] && times[n - 1] - times[n] <= 0;
        }
      }
    }
  }

  /** Accepted instants at least a window apart. */
  predicate Sparse(xs: seq<int>) {
    forall i, j | 0 <= i < j < |xs| :: xs[i] + WINDOW_MS <= xs[j]
  }

  /** With a limit of one the log is the last accepted instant, whatever the order of the times. */
  lemma {:induction false} LimitOneIsSparse(limit: int, times: seq<int>)
    requires Limit(limit) == 1
    ensures RemembersLast(Play(limit, times))
  {
    if times != [] {
      var n := |times| - 1;
      LimitOneIsSparse(limit, times[..n]);
      LimitOneClaim(limit, times[n], Play(limit, times[..n]));
    }
  }

  ghost predicate RemembersLast(m: Memory) {
    && Sparse(m.accepted)
    && m.log == if m.accepted == [] then [] else [m.accepted[|m.accepted| - 1]]
  }

  lemma RecentOfOne(x: int, now: int)
    ensures Recent([x], now) == if x > now - WINDOW_MS then [x] else []
  {
    assert [x][1..] == [];
  }

  lemma LimitOneClaim(limit: int, t: int, before: Memory)
    requires Limit(limit) == 1 && RemembersLast(before)
    ensures var a := Claim(before.log, limit, t);
            RemembersLast(Memory(a.log, if a.allowed then before.accepted + [t] else before.accepted))
  {
    if before.accepted != [] {
      RecentOfOne(before.accepted[|before.accepted| - 1], t);
    }
  }

  lemma {:induction false} SparseWithinOne(xs: seq<int>, start: int)
    requires Sparse(xs)
    ensures Within(xs, start, start + WINDOW_MS) <= 1
    ensures xs != [] && xs[|xs| - 1] <= start ==> Within(xs, start, start + WINDOW_MS) == 0
  {
    if xs != [] {
      var n := |xs| - 1;
      SparseWithinOne(xs[..n], start);
      if n > 0 {
        assert xs[..n][n - 1] + WINDOW_MS <= xs[n];
      }
    }
  }

  lemma PlayStep(limit: int, times: seq<int>, t: int, before: Memory, all: seq<int>, after: Memory)
    requires Play(limit, times) == before && all == times + [t]
    requires var a := Claim(before.log, limit, t);
             after == Memory(a.log, if a.allowed then before.accepted + [t] else before.accepted)
    ensures Play(limit, all) == after
  {
    assert all[..|all| - 1] == times;
  }

  function Copies(t: int, k: nat): seq<int> {
    seq(k, _ => t)
  }

  lemma {:induction false} RecentCopies(t: int, k: nat, now: int)
    ensures Recent(Copies(t, k), now) == if t > now - WINDOW_MS then Copies(t, k) else []
    decreases k
  {
    if k > 0 {
      RecentCopies(t, k - 1, now);
      assert Copies(t, k)[1..] == Copies(t, k - 1);
      assert [t] + Copies(t, k - 1) == Copies(t, k);
    }
  }

  lemma {:induction false} CopiesAccepted(limit: int, t: int, k: nat)
    requires k <= Limit(limit)
    ensures Play(limit, Copies(t, k)) == Memory(Copies(t, k), Copies(t, k))
  {
    if k > 0 {
      CopiesAccepted(limit, t, k - 1);
      RecentCopies(t, k - 1, t);
      assert Copies(t, k) == Copies(t, k - 1) + [t];
      PlayStep(limit, Copies(t, k - 1), t, Memory(Copies(t, k - 1), Copies(t, k - 1)), Copies(t, k),
               Memory(Copies(t, k), Copies(t, k)));
    }
  }

  lemma {:induction false} CopiesWithin(t: int, k: nat, low: int, high: int)
    requires low < t <= high
    ensures Within(Copies(t, k), low, high) == k
    decreases k
  {
    if k > 0 {
      CopiesWithin(t, k - 1, low, high);
      assert Copies(t, k) == Copies(t, k - 1) + [t];
      WithinAppend(Copies(t, k - 1), t, low, high);
    }
  }

  /** The limit's worth of claims at `t`, one a window later, and one a millisecond before that. */
  function OneBack(limit: int, t: int): seq<int> {
    Copies(t, Limit(limit)) + [t + WINDOW_MS] + [t + WINDOW_MS - 1]
  }

  lemma AheadForgets(limit: int, t: int)
    ensures var full := Copies(t, Limit(limit));
            Play(limit, full + [t + WINDOW_MS]) == Memory([t + WINDOW_MS], full + [t + WINDOW_MS])
  {
    var full, ahead := Copies(t, Limit(limit)), t + WINDOW_MS;
    CopiesAccepted(limit, t, Limit(limit));
    RecentCopies(t, Limit(limit), ahead);
    PlayStep(limit, full, ahead, Memory(full, full), full + [ahead], Memory([ahead], full + [ahead]));
  }

  lemma OneBackAccepted(limit: int, t: int)
    requires Limit(limit) >= 2
    ensures Play(limit, OneBack(limit, t)).accepted == OneBack(limit, t)
  {
    var full, ahead := Copies(t, Limit(limit)), t + WINDOW_MS;
    AheadForgets(limit, t);
    RecentOfOne(ahead, ahead - 1);
    PlayStep(limit, full + [ahead], ahead - 1, Memory([ahead], full + [ahead]), OneBack(limit, t),
             Memory([ahead, ahead - 1], OneBack(limit, t)));
  }

  /**
   One millisecond is enough: with a limit of two or more, a claim dated a millisecond before the one
   that made the log forget enters a window that was full.
   */
  lemma ClockGoingBackOverfills(limit: int, t: int)
    requires limit >= 2
    ensures BackAtMost(OneBack(limit, t), 1)
    ensures Within(Play(limit, OneBack(limit, t)).accepted, t - 1, t - 1 + 60_000) == limit + 1
  {
    var low, high := t - 1, t - 1 + WINDOW_MS;
    OneBackAccepted(limit, t);
    CopiesWithin(t, Limit(limit), low, high);
    WithinAppend(Copies(t, Limit(limit)), t + WINDOW_MS, low, high);
    WithinAppend(Copies(t, Limit(limit)) + [t + WINDOW_MS], t + WINDOW_MS - 1, low, high);
  }

  /**
   Every sequence of claims whose clock goes back by at most `d` keeps every window within the limit
   exactly when the clock never goes back or the limit is one or less.
   */
  lemma WindowsFitIff(limit: int, d: nat)
    ensures (forall times: seq<int> | BackAtMost(times, d) :: EveryWindowFits(limit, times)) <==>
              d == 0 || limit <= 1
  {
    if d == 0 || limit <= 1 {
      forall times: seq<int> | BackAtMost(times, d) ensures EveryWindowFits(limit, times) {
        forall start ensures WindowFits(limit, times, start) {
          if d == 0 {
            NeverBackIsAscending(times);
            WindowIsBounded(limit, times, start);
          } else {
            LimitOneIsSparse(limit, times);
            SparseWithinOne(Play(limit, times).accepted, start);
          }
        }
      }
    } else {
      ClockGoingBackOverfills(limit, 0);
      assert BackAtMost(OneBack(limit, 0), d) && !WindowFits(limit, OneBack(limit, 0), -1);
    }
  }

  /** A claim is refused exactly when the minute that ends with it already holds the configured limit. */
  lemma RefusedIffFull(limit: int, times: seq<int>, now: int)
    requires Ascending(times) && forall i | 0 <= i < |times| :: times[i] <= now
    ensures !Claim(Play(limit, times).log, limit, now).allowed <==>
              Within(Play(limit, times).accepted, now - 60_000, now) >= if limit >= 1 then limit else 1
  {
    LogIsRecent(limit, times, now);
    RecentCounts(Play(limit, times).accepted, now);
  }

  // ---------------------------------------------------------------- the advertised wait

  lemma {:induction false} EarliestIsLeast(log: Log)
    requires log != []
    ensures Earliest(log) in log && forall i | 0 <= i < |log| :: Earliest(log) <= log[i]
  {
    if |log| > 1 {
      EarliestIsLeast(log[1..]);
      assert log == [log[0]] + log[1..];
    }
  }

  lemma {:induction false} RecentMembers(xs: seq<int>, now: int, t: int)
    ensures t in Recent(xs, now) <==> t in xs && t > now - WINDOW_MS
    ensures |Recent(xs, now)| <= |xs|
    ensures t in xs && t <= now - WINDOW_MS ==> |Recent(xs, now)| < |xs|
  {
    if xs != [] {
      RecentMembers(xs[1..], now, t);
      assert xs == [xs[0]] + xs[1..];
    }
  }

  lemma {:induction false} RecentAll(xs: seq<int>, now: int)
    requires forall i | 0 <= i < |xs| :: xs[i] > now - WINDOW_MS
    ensures Recent(xs, now) == xs
  {
    if xs != [] {
      RecentAll(xs[1..], now);
      assert xs == [xs[0]] + xs[1..];
    }
  }

  /**
   After a refusal, with no claim in between, a new attempt is accepted exactly when the advertised
   wait has passed.
   */
  lemma RetryIsExact(log: Log, limit: int, now: int, wait: nat)
    requires |log| <= (if limit >= 1 then limit else 1) && !Claim(log, limit, now).allowed
    ensures var a := Claim(log, limit, now);
            && 1 <= a.retryMs && (Claim(a.log, limit, now + wait).allowed <==> wait >= a.retryMs)
  {
    var recent := Recent(log, now);
    RecentMembers(log, now, 0);
    assert |recent| == Limit(limit);
    EarliestIsLeast(recent);
    RecentMembers(log, now, Earliest(recent));
    if Earliest(recent) > now + wait - WINDOW_MS {
      RecentAll(recent, now + wait);
    } else {
      RecentMembers(recent, now + wait, Earliest(recent));
    }
  }

  function RetrySeconds(retryMs: int): (seconds: int)
    ensures seconds >= 1
  {
    Max(1, (retryMs + 999) / 1000)
  }

  /** The header rounds the wait up to seconds: it always suffices and is less than a second too long. */
  lemma HeaderCoversWait(retryMs: int)
    requires retryMs >= 1
    ensures retryMs <= RetrySeconds(retryMs) * 1000 < retryMs + 1000
  {
  }

  // ---------------------------------------------------------------- several limits at once

  /** One limit of a request; `now` is the instant the limiter gets to it. */
  datatype Ask = Ask(key: string, limit: int, now: int)

  function LogOf(logs: map<string, Log>, key: string): Log {
    if key in logs then logs[key] else []
  }

  function Apply(logs: map<string, Log>, ask: Ask): map<string, Log> {
    logs[ask.key := Claim(LogOf(logs, ask.key), ask.limit, ask.now).log]
  }

  predicate Allows(logs: map<string, Log>, ask: Ask) {
    Claim(LogOf(logs, ask.key), ask.limit, ask.now).allowed
  }

  function WaitOf(logs: map<string, Log>, ask: Ask): int {
    Claim(LogOf(logs, ask.key), ask.limit, ask.now).retryMs
  }

  /** The logs once the first `n` asks have been claimed one after the other. */
  function After(logs: map<string, Log>, asks: seq<Ask>, n: nat): map<string, Log>
    requires n <= |asks|
  {
    if n == 0 then logs else Apply(After(logs, asks, n - 1), asks[n - 1])
  }

  datatype Verdict = Allowed | Refused(at: nat, retrySeconds: int) | Broken(at: nat)

  /** Asks for other keys do not touch a log. */
  lemma {:induction false} OtherKeysKept(logs: map<string, Log>, asks: seq<Ask>, i: nat, n: nat, key: string)
    requires i <= n <= |asks| && forall k | i <= k < n :: asks[k].key != key
    ensures LogOf(After(logs, asks, n), key) == LogOf(After(logs, asks, i), key)
    decreases n
  {
    if i < n {
      OtherKeysKept(logs, asks, i, n - 1, key);
    }
  }

  /** A refusal gives nothing back: an ask accepted before it stays recorded in its log. */
  lemma RefusalKeepsEarlierClaims(logs: map<string, Log>, asks: seq<Ask>, at: nat, i: nat)
    requires at < |asks| && i < at && Allows(After(logs, asks, i), asks[i])
    requires forall k | i < k <= at :: asks[k].key != asks[i].key
    ensures var before := LogOf(After(logs, asks, i), asks[i].key);
            LogOf(After(logs, asks, at + 1), asks[i].key) == Recent(before, asks[i].now) + [asks[i].now]
  {
    OtherKeysKept(logs, asks, i + 1, at + 1, asks[i].key);
  }

  /** Each of the first `n` asks is accepted in its turn. */
  predicate AllAllowed(logs: map<string, Log>, asks: seq<Ask>, n: nat)
    requires n <= |asks|
  {
    n == 0 || (AllAllowed(logs, asks, n - 1) && Allows(After(logs, asks, n - 1), asks[n - 1]))
  }

  /** From ask `i` on: stop at a claim that throws or is refused. `broken` is the one that throws, if any. */
  function Settle(logs: map<string, Log>, asks: seq<Ask>, broken: Option<nat>, i: nat): (Verdict, map<string, Log>)
    requires i <= |asks|
    decreases |asks| - i
  {
    if i == |asks| then (Allowed, logs)
    else if broken == Some(i) then (Broken(i), logs)
    else if Allows(logs, asks[i]) then Settle(Apply(logs, asks[i]), asks, broken, i + 1)
    else (Refused(i, RetrySeconds(WaitOf(logs, asks[i]))), Apply(logs, asks[i]))
  }

  /** How many asks the verdict says were accepted. */
  function Accepted(v: Verdict, asks: seq<Ask>): nat {
    match v
    case Allowed => |asks|
    case Refused(at, _) => at
    case Broken(at) => at
  }

  /**
   Everything up to the verdict was accepted in its turn and stays recorded, the ask refused is refused
   by the logs it met, and nothing after it is claimed.
   */
  predicate Stops(logs: map<string, Log>, asks: seq<Ask>, broken: Option<nat>, v: Verdict, end: map<string, Log>) {
    var n := Accepted(v, asks);
    && n <= |asks| && AllAllowed(logs, asks, n)
    && match v
       case Allowed => end == After(logs, asks, n) && (broken.Some? ==> broken.value >= n)
       case Broken(_) => broken == Some(n) && n < |asks| && end == After(logs, asks, n)
       case Refused(_, seconds) =>
         && n < |asks| && !Allows(After(logs, asks, n), asks[n]) && end == After(logs, asks, n + 1)
         && seconds == RetrySeconds(WaitOf(After(logs, asks, n), asks[n])) && (broken.Some? ==> broken.value > n)
  }

  lemma SettleRefuses(logs: map<string, Log>, asks: seq<Ask>, broken: Option<nat>, i: nat)
    requires i < |asks| && AllAllowed(logs, asks, i) && (broken.Some? ==> broken.value > i)
    requires !Allows(After(logs, asks, i), asks[i])
    ensures var r := Settle(After(logs, asks, i), asks, broken, i);
            Stops(logs, asks, broken, r.0, r.1)
  {
    assert After(logs, asks, i + 1) == Apply(After(logs, asks, i), asks[i]);
  }

  lemma {:induction false} SettleStopsAtFirst(logs: map<string, Log>, asks: seq<Ask>, broken: Option<nat>, i: nat)
    requires i <= |asks| && AllAllowed(logs, asks, i) && (broken.Some? ==> broken.value >= i)
    ensures var r := Settle(After(logs, asks, i), asks, broken, i);
            Stops(logs, asks, broken, r.0, r.1)
    decreases |asks| - i
  {
    if i < |asks| && broken != Some(i) {
      if Allows(After(logs, asks, i), asks[i]) {
        SettleStopsAtFirst(logs, asks, broken, i + 1);
        SettleGoesOn(After(logs, asks, i), asks, broken, i);
      } else {
        SettleRefuses(logs, asks, broken, i);
      }
    }
  }

  lemma SettleGoesOn(reached: map<string, Log>, asks: seq<Ask>, broken: Option<nat>, i: nat)
    requires i < |asks| && broken != Some(i) && Allows(reached, asks[i])
    ensures Settle(reached, asks, broken, i) == Settle(Apply(reached, asks[i]), asks, broken, i + 1)
  {
  }

  /** The shared logs behind the limiter. */
  class Limiter {
    var logs: map<string, Log>

    constructor ()
      ensures logs == map[]
    {
      logs := map[];
    }

    method ClaimRequest(ask: Ask) returns (allowed: bool, retryMs: int)
      modifies this
      ensures logs == Apply(old(logs), ask) && allowed == Allows(old(logs), ask)
      ensures retryMs == WaitOf(old(logs), ask)
      ensures allowed <==> |Recent(LogOf(old(logs), ask.key), ask.now)| < if ask.limit >= 1 then ask.limit else 1
      ensures forall key | key != ask.key :: LogOf(logs, key) == LogOf(old(logs), key)
    {
      var recent := Recent(if ask.key in logs then logs[ask.key] else [], ask.now);
      if |recent| >= Limit(ask.limit) {
        logs := logs[ask.key := recent];
        return false, Max(1, Earliest(recent) + WINDOW_MS - ask.now);
      }
      logs := logs[ask.key := recent + [ask.now]];
      return true, 0;
    }

    /** Claims in order and stops at the first refusal. */
    method ClaimAll(asks: seq<Ask>, broken: Option<nat>) returns (v: Verdict)
      modifies this
      ensures (v, logs) == Settle(old(logs), asks, broken, 0)
    {
      ghost var start := logs;
      var i := 0;
      while i < |asks|
        invariant 0 <= i <= |asks|
        invariant Settle(logs, asks, broken, i) == Settle(start, asks, broken, 0)
      {
        if broken == Some(i) {
          return Broken(i);
        }
        var allowed, retryMs := ClaimRequest(asks[i]);
        if !allowed {
          return Refused(i, RetrySeconds(retryMs));
        }
        i := i + 1;
      }
      return Allowed;
    }
  }
}
