/**
 The allowance store as mutable state, the boundary function running on it, the
 compensation that follows a failed persist, and any number of requests interleaved.
 */
module QuotaStore {
  import opened Prelude
  import opened UsageLedger
  import opened QuotaBoundary

  function Names(keys: seq<string>): set<string> {
    set k | k in keys
  }

  /** One organization's counters and idempotency keys for one billing period. */
  class UsageStore {
    var keys: map<string, Metric>
    var used: Usage

    function State(): Ledger
      reads this
    {
      Ledger(keys, used)
    }

    constructor ()
      ensures State() == Ledger(map[], Usage(0, 0, 0, 0)) && Consistent(State())
    {
      keys, used := map[], Usage(0, 0, 0, 0);
    }

    /** The first claim of each usable normalised key, in order. */
    method Normalize(claims: seq<Claim>) returns (unique: seq<Claim>)
      ensures unique == UniqueFrom(claims, {})
    {
      unique := [];
      var seen: set<string> := {};
      for i := 0 to |claims|
        invariant unique + UniqueFrom(claims[i..], seen) == UniqueFrom(claims, {})
      {
        var key := NormalKey(claims[i].key);
        assert claims[i..][1..] == claims[i + 1..];
        if key != "" && key !in seen {
          UniqueStep(claims[i..], seen, unique);
          unique := unique + [UsageLedger.Claim.Claim(key, claims[i].metric)];
          seen := seen + {key};
        }
      }
      assert claims[|claims|..] == [];
    }

    /** Stores the new keys with their metrics, one row each. */
    method InsertKeys(added: seq<Claim>)
      modifies this`keys
      ensures keys == Insert(old(keys), added)
    {
      ghost var before := keys;
      for i := 0 to |added|
        invariant Insert(keys, added[i..]) == Insert(before, added)
      {
        assert added[i..][1..] == added[i + 1..];
        keys := keys[added[i].key := added[i].metric];
      }
    }

    /** One transaction: the meters move and the new keys are stored together, or nothing happens. */
    method Claim(claims: seq<Claim>, limits: Usage) returns (r: ClaimResult)
      modifies this
      ensures r == TryClaim(old(State()), claims, limits)
      ensures State() == if r.Allowed? then r.ledger else old(State())
      ensures old(Consistent(State())) ==> Consistent(State())
    {
      if Consistent(State()) && TryClaim(State(), claims, limits).Allowed? {
        ClaimKeepsConsistent(State(), claims, limits);
      }
      var unique := Normalize(claims);
      if unique == [] {
        return Allowed(State(), []);
      }
      var added := Without(unique, keys.Keys);
      var projected := AddUsage(used, added);
      var exceeded := projected.Exceeded(limits);
      if exceeded.Some? {
        return Denied(exceeded.value, projected.At(exceeded.value), limits.At(exceeded.value));
      }
      InsertKeys(added);
      used := projected;
      return Allowed(State(), KeySeq(added));
    }

    /** Deletes the named keys; with no name the store returns at once. */
    method ReleaseKeys(names: seq<string>)
      requires Consistent(State())
      modifies this
      ensures State() == Release(old(State()), Names(names))
      ensures Consistent(State())
    {
      ReleaseKeepsConsistent(State(), Names(names));
      if names == [] {
        assert Names(names) == {};
        ReleaseNothing(State());
        return;
      }
      ghost var before := State();
      var gone := DeleteKeys(names);
      ReleaseFromDeleted(before, Names(names), gone);
      used := Usage(Max(0, used.events - gone.events), Max(0, used.sessions - gone.sessions),
                    Max(0, used.samples - gone.samples), Max(0, used.bundles - gone.bundles));
    }

    /** Deletes the rows of the named keys and counts those that were there by metric. */
    method DeleteKeys(names: seq<string>) returns (gone: Usage)
      modifies this`keys
      ensures keys == old(keys) - Names(names)
      ensures forall m :: gone.At(m) == |KeysWith(old(keys), m) * Names(names)|
    {
      ghost var before := keys;
      gone := Usage(0, 0, 0, 0);
      for i := 0 to |names|
        invariant keys == before - Names(names[..i])
        invariant forall m :: gone.At(m) == |KeysWith(before, m) * Names(names[..i])|
      {
        var name := names[i];
        assert names[..i + 1] == names[..i] + [name];
        assert Names(names[..i + 1]) == Names(names[..i]) + {name};
        DeletedOneMore(before, Names(names[..i]), name);
        if name in keys {
          gone := gone.Plus(keys[name]);
          keys := keys - {name};
        }
      }
      assert names[..|names|] == names;
    }

    /** The boundary function: fast path, single refusal, or one claim for each event. */
    method ClaimAtBoundary(events: seq<Event>, limits: Usage, retryAfterMs: int)
      returns (accepted: seq<Event>, rejected: seq<Event>, releases: seq<seq<string>>, retry: Option<int>)
      modifies this
      ensures Outcome(State(), accepted, rejected, releases) == AtBoundary(old(State()), events, limits)
      ensures retry == if rejected == [] then None else Some(retryAfterMs)
    {
      accepted, rejected, releases, retry := [], [], [], None;
      if events == [] {
        return;
      }
      ghost var start := State();
      BatchIffLoopAcceptsAll(start, events, limits);
      var batch := Claim(IngestionClaims(events), limits);
      if batch.Allowed? {
        accepted, releases := events, [batch.claimed];
        return;
      }
      retry := Some(retryAfterMs);
      if |events| <= 1 {
        rejected := events;
        return;
      }
      for i := 0 to |events|
        invariant Outcome(State(), accepted, rejected, releases) == PerEvent(start, events[..i], limits)
        invariant retry == Some(retryAfterMs)
      {
        assert events[..i + 1][..i] == events[..i];
        var claim := Claim(EventClaims(events[i]), limits);
        if claim.Allowed? {
          accepted := accepted + [events[i]];
          releases := releases + [claim.claimed];
        } else {
          rejected := rejected + [events[i]];
          retry := Some(retryAfterMs);
        }
      }
      assert events[..|events|] == events;
    }

    /** After a failed persist: release every claim of the request except keys of persisted events. */
    method Compensate(releases: seq<seq<string>>, persisted: set<string>)
      requires Consistent(State())
      modifies this
      ensures State() == Release(old(State()), Names(Concat(releases)) - persisted)
      ensures Consistent(State())
    {
      ghost var start := State();
      CompensateStart(start, releases, persisted);
      for i := 0 to |releases|
        invariant State() == Compensated(start, releases, i, persisted) && Consistent(State())
      {
        CompensateStep(start, releases, i, persisted);
        ReleaseKeys(Filter(k => k !in persisted, releases[i]));
      }
      assert releases[..|releases|] == releases;
    }

    /**
     The ingestion route's use of both: claim, persist the accepted events in order, and,
     when persisting stops after `persisted` of them with an error, compensate.
     */
    method Ingest(events: seq<Event>, limits: Usage, persisted: nat)
      returns (accepted: seq<Event>, failed: bool)
      requires Consistent(State())
      modifies this
      ensures var o := AtBoundary(old(State()), events, limits);
              && accepted == o.accepted
              && failed == (persisted < |accepted|)
              && State() == if failed then AfterFailure(o, persisted) else o.ledger
      ensures Consistent(State())
    {
      ghost var start := State();
      BoundaryKeys(start, events, limits);
      var rejected, releases, retry;
      accepted, rejected, releases, retry := ClaimAtBoundary(events, limits, 1_000);
      failed := persisted < |accepted|;
      if failed {
        Compensate(releases, RawKeys(accepted[..persisted]));
      }
    }
  }

  lemma ReleaseFromDeleted(l: Ledger, names: set<string>, gone: Usage)
    requires forall m :: gone.At(m) == |KeysWith(l.keys, m) * names|
    ensures Release(l, names)
         == Ledger(l.keys - names, Usage(Max(0, l.used.events - gone.events), Max(0, l.used.sessions - gone.sessions),
                                         Max(0, l.used.samples - gone.samples), Max(0, l.used.bundles - gone.bundles)))
  {
    assert gone.At(Events) == gone.events && gone.At(Sessions) == gone.sessions;
    assert gone.At(JourneySamples) == gone.samples && gone.At(BundleGenerations) == gone.bundles;
  }

  lemma UniqueStep(claims: seq<Claim>, seen: set<string>, before: seq<Claim>)
    requires claims != [] && NormalKey(claims[0].key) != "" && NormalKey(claims[0].key) !in seen
    ensures var k := NormalKey(claims[0].key);
            before + UniqueFrom(claims, seen)
            == before + [Claim(k, claims[0].metric)] + UniqueFrom(claims[1..], seen + {k})
  {
  }

  lemma DeletedOneMore(keys: map<string, Metric>, gone: set<string>, name: string)
    ensures forall m :: |KeysWith(keys, m) * (gone + {name})|
                     == |KeysWith(keys, m) * gone| + if name in keys - gone && keys[name] == m then 1 else 0
  {
    forall m
      ensures |KeysWith(keys, m) * (gone + {name})|
           == |KeysWith(keys, m) * gone| + if name in keys - gone && keys[name] == m then 1 else 0
    {
      var one := if name in keys - gone && keys[name] == m then {name} else {};
      assert KeysWith(keys, m) * (gone + {name}) == KeysWith(keys, m) * gone + one;
      DisjointCard(KeysWith(keys, m) * gone, one);
    }
  }

  /** The ledger once the first `i` lists have been released, less the persisted keys. */
  function Compensated(l: Ledger, releases: seq<seq<string>>, i: nat, persisted: set<string>): Ledger
    requires i <= |releases|
  {
    Release(l, Names(Concat(releases[..i])) - persisted)
  }

  lemma CompensateStart(l: Ledger, releases: seq<seq<string>>, persisted: set<string>)
    requires Consistent(l)
    ensures Compensated(l, releases, 0, persisted) == l
  {
    assert releases[..0] == [] && Names(Concat([])) - persisted == {};
    ReleaseNothing(l);
  }

  /** Releasing one more list of the request, less the persisted keys. */
  lemma CompensateStep(l: Ledger, releases: seq<seq<string>>, i: nat, persisted: set<string>)
    requires Consistent(l) && i < |releases|
    ensures Release(Compensated(l, releases, i, persisted), Names(Filter(k => k !in persisted, releases[i])))
         == Compensated(l, releases, i + 1, persisted)
  {
    var kept := Filter(k => k !in persisted, releases[i]);
    var before := Names(Concat(releases[..i])) - persisted;
    FilterNames(releases[i], persisted);
    assert releases[..i + 1] == releases[..i] + [releases[i]];
    ConcatAppend(releases[..i], [releases[i]]);
    assert [releases[i]][1..] == [] && Concat([releases[i]]) == releases[i];
    assert Names(Concat(releases[..i + 1])) - persisted == before + Names(kept);
    ReleaseTwice(l, before, Names(kept));
  }

  lemma FilterNames(names: seq<string>, persisted: set<string>)
    ensures Names(Filter(k => k !in persisted, names)) == Names(names) - persisted
  {
    var f := k => k !in persisted;
    forall k ensures k in Filter(f, names) <==> k in names && f(k) {
      FilterMember(f, names, k);
    }
  }

  lemma ReleaseNothing(l: Ledger)
    requires Consistent(l)
    ensures Release(l, {}) == l
  {
    ReleaseKeepsConsistent(l, {});
    assert l.keys - {} == l.keys;
    ConsistentDetermined(Release(l, {}), l);
  }

  lemma MinusTwice(keys: map<string, Metric>, a: set<string>, b: set<string>)
    ensures (keys - a) - b == keys - (a + b)
  {
  }

  lemma ReleaseTwice(l: Ledger, a: set<string>, b: set<string>)
    requires Consistent(l)
    ensures Release(Release(l, a), b) == Release(l, a + b)
  {
    ReleaseKeepsConsistent(l, a);
    ReleaseKeepsConsistent(Release(l, a), b);
    ReleaseKeepsConsistent(l, a + b);
    MinusTwice(l.keys, a, b);
    ConsistentDetermined(Release(Release(l, a), b), Release(l, a + b));
  }

  // ---------------------------------------------------------------- compensation

  /** Claim keys of events as the ingestion route spells them, before any normalisation. */
  function RawKeys(es: seq<Event>): set<string> {
    (set e | e in es :: "event:" + e.id) + (set e | e in es && e.sessionStart :: "session:" + e.session)
  }

  function AfterFailure(o: Outcome, persisted: nat): Ledger
    requires persisted <= |o.accepted|
  {
    Release(o.ledger, Names(Concat(o.releases)) - RawKeys(o.accepted[..persisted]))
  }

  lemma ReleaseNames(releases: seq<seq<string>>, claimed: seq<string>)
    ensures Names(Concat(releases + [claimed])) == Names(Concat(releases)) + Names(claimed)
  {
    ConcatAppend(releases, [claimed]);
    assert [claimed][1..] == [] && Concat([claimed]) == claimed;
  }

  lemma KeysNest(k0: map<string, Metric>, k1: map<string, Metric>, k2: map<string, Metric>,
                 a: set<string>, b: set<string>)
    requires a !! k0.Keys && k1.Keys == k0.Keys + a && k1 - a == k0
    requires b !! k1.Keys && k2.Keys == k1.Keys + b && k2 - b == k1
    ensures (a + b) !! k0.Keys && k2.Keys == k0.Keys + (a + b) && k2 - (a + b) == k0
  {
    assert k2 - (a + b) == (k2 - b) - a;
  }

  /** What the boundary function adds is exactly what its releases name. */
  lemma {:induction false} LoopKeys(l: Ledger, es: seq<Event>, limits: Usage)
    requires Consistent(l)
    ensures var o := PerEvent(l, es, limits);
            var claimed := Names(Concat(o.releases));
            && Consistent(o.ledger)
            && claimed !! l.keys.Keys
            && o.ledger.keys.Keys == l.keys.Keys + claimed
            && o.ledger.keys - claimed == l.keys
  {
    if es != [] {
      var o := PerEvent(l, es[..|es| - 1], limits);
      var claims := EventClaims(es[|es| - 1]);
      LoopKeys(l, es[..|es| - 1], limits);
      var r := TryClaim(o.ledger, claims, limits);
      if r.Allowed? {
        ClaimKeepsConsistent(o.ledger, claims, limits);
        ClaimedKeys(o.ledger, claims, limits);
        ReleaseNames(o.releases, r.claimed);
        KeysNest(l.keys, o.ledger.keys, r.ledger.keys, Names(Concat(o.releases)), Names(r.claimed));
      }
    } else {
      assert Names(Concat([])) == {};
      assert l.keys - {} == l.keys;
    }
  }

  lemma BoundaryKeys(l: Ledger, es: seq<Event>, limits: Usage)
    requires Consistent(l)
    ensures var o := AtBoundary(l, es, limits);
            var claimed := Names(Concat(o.releases));
            && Consistent(o.ledger)
            && claimed !! l.keys.Keys
            && o.ledger.keys.Keys == l.keys.Keys + claimed
            && o.ledger.keys - claimed == l.keys
  {
    FastPathRefinesLoop(l, es, limits);
    LoopKeys(l, es, limits);
  }

  lemma ReleaseRestores(l: Ledger, later: Ledger, names: set<string>)
    requires Consistent(l) && Consistent(later) && later.keys - names == l.keys
    ensures Release(later, names) == l
  {
    ReleaseKeepsConsistent(later, names);
    ConsistentDetermined(Release(later, names), l);
  }

  lemma FailingAtOnceReleasesAll(o: Outcome)
    ensures AfterFailure(o, 0) == Release(o.ledger, Names(Concat(o.releases)))
  {
    assert RawKeys(o.accepted[..0]) == {};
    assert Names(Concat(o.releases)) - {} == Names(Concat(o.releases));
  }

  /** Nothing of a request survives in the ledger when none of its events was persisted. */
  lemma FailureUndoesEverything(l: Ledger, es: seq<Event>, limits: Usage)
    requires Consistent(l)
    ensures AfterFailure(AtBoundary(l, es, limits), 0) == l
  {
    var o := AtBoundary(l, es, limits);
    BoundaryKeys(l, es, limits);
    FailingAtOnceReleasesAll(o);
    ReleaseRestores(l, o.ledger, Names(Concat(o.releases)));
  }

  /**
   After a partial failure the ledger holds what it held before plus the request's own
   new keys that a persisted event spells; the meters agree with it.
   */
  lemma FailureKeepsPersisted(l: Ledger, es: seq<Event>, limits: Usage, persisted: nat)
    requires Consistent(l) && persisted <= |AtBoundary(l, es, limits).accepted|
    ensures var o := AtBoundary(l, es, limits);
            var after := AfterFailure(o, persisted);
            && Consistent(after)
            && after.keys.Keys == l.keys.Keys
                 + Names(Concat(o.releases)) * RawKeys(o.accepted[..persisted])
  {
    BoundaryKeys(l, es, limits);
    var o := AtBoundary(l, es, limits);
    ReleaseKeepsConsistent(o.ledger, Names(Concat(o.releases)) - RawKeys(o.accepted[..persisted]));
  }

  lemma {:induction false} AcceptedAreCounted(l: Ledger, es: seq<Event>, limits: Usage, e: Event)
    requires Consistent(l) && e in PerEvent(l, es, limits).accepted
    ensures NormalKey(EventKey(e)) in PerEvent(l, es, limits).ledger.keys
    ensures e.sessionStart ==> NormalKey(SessionKey(e)) in PerEvent(l, es, limits).ledger.keys
  {
    var o, last := PerEvent(l, es[..|es| - 1], limits), es[|es| - 1];
    var r := TryClaim(o.ledger, EventClaims(last), limits);
    LoopKeys(l, es[..|es| - 1], limits);
    if r.Allowed? {
      ClaimedKeys(o.ledger, EventClaims(last), limits);
      if e == last {
        EventCovered(o.ledger.keys, e);
        EventCost(o.ledger.keys, e);
      } else {
        AcceptedAreCounted(l, es[..|es| - 1], limits, e);
      }
    } else {
      AcceptedAreCounted(l, es[..|es| - 1], limits, e);
    }
  }

  lemma EventCovered(keys: map<string, Metric>, e: Event)
    ensures NormalKey(EventKey(e)) in Insert(keys, NewClaims(keys, EventClaims(e)))
    ensures e.sessionStart ==>
              NormalKey(SessionKey(e)) in Insert(keys, NewClaims(keys, EventClaims(e)))
  {
    KeyFamilies(e);
    NewClaimsOnePass(keys, EventClaims(e));
    UniqueCovers(EventClaims(e), keys.Keys, Claim(EventKey(e), Events));
    if e.sessionStart {
      UniqueCovers(EventClaims(e), keys.Keys, Claim(SessionKey(e), Sessions));
    }
  }

  /** The claim keys of an event as the ledger knows them. */
  function NormalKeys(e: Event): set<string> {
    {NormalKey(EventKey(e))} + if e.sessionStart then {NormalKey(SessionKey(e))} else {}
  }

  /** The event is among the first `persisted` of those accepted. */
  predicate IsPersisted(o: Outcome, persisted: nat, e: Event) {
    persisted <= |o.accepted| && e in o.accepted[..persisted]
  }

  /**
   A key of a persisted event, its event key or the session key of a session start, stays counted
   after a partial failure exactly when it was counted before the request or some persisted event
   spells it in normal form.
   */
  lemma PersistedStaysCounted(l: Ledger, es: seq<Event>, limits: Usage, persisted: nat, e: Event)
    requires Consistent(l)
    ensures var o := AtBoundary(l, es, limits);
            IsPersisted(o, persisted, e) ==>
              && (forall k | k in NormalKeys(e) ::
                    k in AfterFailure(o, persisted).keys <==> k in l.keys || k in RawKeys(o.accepted[..persisted]))
              && (NormalKey(EventKey(e)) == EventKey(e) ==> EventKey(e) in AfterFailure(o, persisted).keys)
              && (e.sessionStart && NormalKey(SessionKey(e)) == SessionKey(e) ==>
                    SessionKey(e) in AfterFailure(o, persisted).keys)
  {
    var o := AtBoundary(l, es, limits);
    if IsPersisted(o, persisted, e) {
      FastPathRefinesLoop(l, es, limits);
      AcceptedAreCounted(l, es, limits, e);
      forall k | k in NormalKeys(e)
        ensures k in AfterFailure(o, persisted).keys <==> k in l.keys || k in RawKeys(o.accepted[..persisted])
      {
        CountedKeySurvivesIff(l, es, limits, persisted, k);
      }
    }
  }

  lemma CountedKeySurvivesIff(l: Ledger, es: seq<Event>, limits: Usage, persisted: nat, k: string)
    requires Consistent(l) && persisted <= |AtBoundary(l, es, limits).accepted|
    requires k in AtBoundary(l, es, limits).ledger.keys
    ensures var o := AtBoundary(l, es, limits);
            k in AfterFailure(o, persisted).keys <==> k in l.keys || k in RawKeys(o.accepted[..persisted])
  {
    FailureKeepsPersisted(l, es, limits, persisted);
    BoundaryKeys(l, es, limits);
  }

  // ---------------------------------------------------------------- many requests

  /** The ledger and, for each request, the keys it claimed and may still release. */
  datatype Sys = Sys(ledger: Ledger, held: map<nat, set<string>>)

  datatype Step =
    | DoClaim(request: nat, claims: seq<Claim>, limits: Usage)
    | DoRelease(request: nat, names: set<string>)
    | Settle(request: nat)

  /** A request may release only keys it holds; a lost release is a `Settle`. */
  ghost predicate Enabled(s: Sys, step: Step) {
    match step
    case DoClaim(r, _, _) => r in s.held
    case DoRelease(r, names) => r in s.held && names <= s.held[r]
    case Settle(r) => r in s.held
  }

  function Next(s: Sys, step: Step): Sys {
    match step
    case DoClaim(r, claims, limits) =>
      (match TryClaim(s.ledger, claims, limits)
       case Allowed(l, claimed) =>
         Sys(l, s.held[r := (if r in s.held then s.held[r] else {}) + Names(claimed)])
       case Denied(_, _, _) => s)
    case DoRelease(r, names) =>
      Sys(Release(s.ledger, names), s.held[r := (if r in s.held then s.held[r] else {}) - names])
    case Settle(r) => s.(held := s.held[r := {}])
  }

  ghost predicate Good(s: Sys, cap: Usage) {
    && Consistent(s.ledger)
    && s.ledger.used.Within(cap)
    && (forall r | r in s.held :: s.held[r] <= s.ledger.keys.Keys)
    && (forall r, q | r in s.held && q in s.held && r != q :: s.held[r] !! s.held[q])
  }

  lemma ReleaseWithin(l: Ledger, names: set<string>, cap: Usage)
    requires Consistent(l) && l.used.Within(cap)
    ensures Release(l, names).used.Within(cap)
  {
    ReleaseKeepsConsistent(l, names);
    forall m ensures Release(l, names).used.At(m) <= cap.At(m) {
      assert Release(l, names).used.At(m) == l.used.At(m) - Deleted(l, names, m);
    }
    assert Release(l, names).used.At(Events) <= cap.At(Events);
    assert Release(l, names).used.At(Sessions) <= cap.At(Sessions);
    assert Release(l, names).used.At(JourneySamples) <= cap.At(JourneySamples);
    assert Release(l, names).used.At(BundleGenerations) <= cap.At(BundleGenerations);
  }

  lemma ReleaseStepKeepsGood(s: Sys, step: Step, cap: Usage)
    requires Good(s, cap) && Enabled(s, step) && step.DoRelease?
    ensures Good(Next(s, step), cap)
  {
    ReleaseKeepsConsistent(s.ledger, step.names);
    ReleaseWithin(s.ledger, step.names, cap);
  }

  lemma ClaimStepKeepsGood(s: Sys, step: Step, cap: Usage)
    requires Good(s, cap) && Enabled(s, step) && step.DoClaim? && step.limits.Within(cap)
    ensures Good(Next(s, step), cap)
  {
    if TryClaim(s.ledger, step.claims, step.limits).Allowed? {
      ClaimKeepsConsistent(s.ledger, step.claims, step.limits);
      ClaimedKeys(s.ledger, step.claims, step.limits);
    }
  }

  lemma StepKeepsGood(s: Sys, step: Step, cap: Usage)
    requires Good(s, cap) && Enabled(s, step)
    requires step.DoClaim? ==> step.limits.Within(cap)
    ensures Good(Next(s, step), cap)
  {
    match step
    case DoClaim(_, _, _) => ClaimStepKeepsGood(s, step, cap);
    case DoRelease(_, _) => ReleaseStepKeepsGood(s, step, cap);
    case Settle(_) =>
  }

  function Run(s: Sys, steps: seq<Step>): Sys {
    if steps == [] then s else Next(Run(s, steps[..|steps| - 1]), steps[|steps| - 1])
  }

  ghost predicate LegalRun(s: Sys, steps: seq<Step>, cap: Usage) {
    steps == [] || (
      var init, last := steps[..|steps| - 1], steps[|steps| - 1];
      && LegalRun(s, init, cap)
      && Enabled(Run(s, init), last)
      && (last.DoClaim? ==> last.limits.Within(cap)))
  }

  /**
   In every interleaving of claims, releases and settlements by any number of requests,
   each meter equals the number of live keys of its metric and stays within the largest
   limits used, and no key is held by two requests.
   */
  lemma {:induction false} EveryInterleavingIsGood(s: Sys, steps: seq<Step>, cap: Usage)
    requires Good(s, cap) && LegalRun(s, steps, cap)
    ensures Good(Run(s, steps), cap)
  {
    if steps != [] {
      EveryInterleavingIsGood(s, steps[..|steps| - 1], cap);
      StepKeepsGood(Run(s, steps[..|steps| - 1]), steps[|steps| - 1], cap);
    }
  }

  /** The `i`-th step of the run is a claim by `r` that reported `k` as newly counted. */
  ghost predicate ReportedAt(s: Sys, steps: seq<Step>, i: nat, r: nat, k: string)
    requires i < |steps|
  {
    && steps[i].DoClaim? && steps[i].request == r
    && var claim := TryClaim(Run(s, steps[..i]).ledger, steps[i].claims, steps[i].limits);
       claim.Allowed? && k in claim.claimed
  }

  predicate Drops(step: Step, r: nat, k: string) {
    step.request == r && (step.Settle? || (step.DoRelease? && k in step.names))
  }

  predicate KeptSince(steps: seq<Step>, i: nat, r: nat, k: string) {
    forall j | i < j < |steps| :: !Drops(steps[j], r, k)
  }

  ghost predicate ReportedAndKept(s: Sys, steps: seq<Step>, r: nat, k: string) {
    exists i | 0 <= i < |steps| :: ReportedAt(s, steps, i, r, k) && KeptSince(steps, i, r, k)
  }

  lemma KeptSinceOneMore(steps: seq<Step>, i: nat, r: nat, k: string)
    requires i < |steps| - 1
    ensures var n := |steps| - 1;
            KeptSince(steps, i, r, k) <==> KeptSince(steps[..n], i, r, k) && !Drops(steps[n], r, k)
  {
    forall j | i < j < |steps| - 1 ensures steps[..|steps| - 1][j] == steps[j] {
    }
  }

  lemma KeptOneMore(s: Sys, steps: seq<Step>, r: nat, k: string)
    requires steps != []
    ensures var n := |steps| - 1;
            ReportedAndKept(s, steps, r, k) <==>
              ReportedAt(s, steps, n, r, k) || (!Drops(steps[n], r, k) && ReportedAndKept(s, steps[..n], r, k))
  {
    var n := |steps| - 1;
    forall i | 0 <= i < n ensures ReportedAt(s, steps[..n], i, r, k) == ReportedAt(s, steps, i, r, k) {
      assert steps[..n][..i] == steps[..i];
    }
    forall i | 0 <= i < n
      ensures KeptSince(steps, i, r, k) <==> KeptSince(steps[..n], i, r, k) && !Drops(steps[n], r, k)
    {
      KeptSinceOneMore(steps, i, r, k);
    }
    if ReportedAt(s, steps, n, r, k) {
      assert KeptSince(steps, n, r, k);
    }
  }

  /** One step of a request adds what its claim reported or takes out what it gives up; others add nothing. */
  lemma HeldMoves(s: Sys, step: Step, r: nat, k: string)
    requires r in s.held
    ensures r in Next(s, step).held
    ensures var claim := if step.DoClaim? then TryClaim(s.ledger, step.claims, step.limits) else Denied(Events, 0, 0);
            k in Next(s, step).held[r] <==>
              (step.request == r && claim.Allowed? && k in claim.claimed) || (k in s.held[r] && !Drops(step, r, k))
  {
  }

  /**
   At any point a request that began with nothing may give back exactly the keys that its own claims
   reported and that it has neither released nor settled since.
   */
  lemma {:induction false} HeldIff(s: Sys, steps: seq<Step>, r: nat, k: string)
    requires r in s.held && s.held[r] == {}
    ensures r in Run(s, steps).held
    ensures k in Run(s, steps).held[r] <==> ReportedAndKept(s, steps, r, k)
  {
    if steps != [] {
      var n := |steps| - 1;
      HeldIff(s, steps[..n], r, k);
      KeptOneMore(s, steps, r, k);
      HeldMoves(Run(s, steps[..n]), steps[n], r, k);
    }
  }

  /** A release by one request leaves every key another request holds, and its metric, in place. */
  lemma ReleaseSparesOthers(s: Sys, r: nat, q: nat, names: set<string>, cap: Usage)
    requires Good(s, cap) && r in s.held && q in s.held && r != q && names <= s.held[r]
    ensures var s' := Next(s, DoRelease(r, names));
            && s'.held[q] == s.held[q]
            && forall k | k in s.held[q] :: k in s'.ledger.keys && s'.ledger.keys[k] == s.ledger.keys[k]
  {
    assert s.held[r] !! s.held[q];
  }

  // ---------------------------------------------------------------- keys that two requests share

  /** Nobody but `q` could give the key back. */
  ghost predicate NoOtherHolds(s: Sys, q: nat, k: string) {
    forall r | r in s.held && r != q :: k !in s.held[r]
  }

  /** The key survives whatever is done from here on, short of a release by `q`. */
  ghost predicate StaysCounted(s: Sys, q: nat, k: string, cap: Usage) {
    forall steps: seq<Step> | LegalRun(s, steps, cap) && SparedBy(q, steps) :: k in Run(s, steps).ledger.keys
  }

  predicate SparedBy(q: nat, steps: seq<Step>) {
    forall i | 0 <= i < |steps| :: !(steps[i].DoRelease? && steps[i].request == q)
  }

  lemma OwnKeyKept(s: Sys, step: Step, q: nat, k: string, cap: Usage)
    requires Good(s, cap) && Enabled(s, step) && !(step.DoRelease? && step.request == q)
    requires k in s.ledger.keys && NoOtherHolds(s, q, k)
    ensures k in Next(s, step).ledger.keys && NoOtherHolds(Next(s, step), q, k)
  {
    if step.DoClaim? && TryClaim(s.ledger, step.claims, step.limits).Allowed? {
      ClaimedKeys(s.ledger, step.claims, step.limits);
    }
  }

  lemma {:induction false} OwnKeySurvives(s: Sys, steps: seq<Step>, q: nat, k: string, cap: Usage)
    requires Good(s, cap) && LegalRun(s, steps, cap) && SparedBy(q, steps)
    requires k in s.ledger.keys && NoOtherHolds(s, q, k)
    ensures k in Run(s, steps).ledger.keys && NoOtherHolds(Run(s, steps), q, k)
  {
    if steps != [] {
      var n := |steps| - 1;
      OwnKeySurvives(s, steps[..n], q, k, cap);
      EveryInterleavingIsGood(s, steps[..n], cap);
      OwnKeyKept(Run(s, steps[..n]), steps[n], q, k, cap);
    }
  }

  /** One release by another holder is enough to lose the key. */
  lemma OtherHolderCanDrop(s: Sys, r: nat, k: string, cap: Usage) returns (steps: seq<Step>)
    requires r in s.held && k in s.held[r]
    ensures steps == [DoRelease(r, {k})] && LegalRun(s, steps, cap) && k !in Run(s, steps).ledger.keys
  {
    steps := [DoRelease(r, {k})];
    assert steps[..0] == [] && Run(s, []) == s;
    assert Enabled(s, steps[0]);
    assert Run(s, steps) == Next(s, steps[0]);
  }

  /** A counted key is safe from everybody but `q` exactly when nobody but `q` holds it. */
  lemma StaysCountedIff(s: Sys, q: nat, k: string, cap: Usage)
    requires Good(s, cap) && k in s.ledger.keys
    ensures StaysCounted(s, q, k, cap) <==> NoOtherHolds(s, q, k)
  {
    if NoOtherHolds(s, q, k) {
      forall steps: seq<Step> | LegalRun(s, steps, cap) && SparedBy(q, steps) ensures k in Run(s, steps).ledger.keys {
        OwnKeySurvives(s, steps, q, k, cap);
      }
    } else {
      var r :| r in s.held && r != q && k in s.held[r];
      var steps := OtherHolderCanDrop(s, r, k, cap);
      assert SparedBy(q, steps);
    }
  }

  /**
   After an allowed claim, a key of it stays counted whatever the other requests do exactly when it is
   among the keys the claim reported, or was counted before with no other request holding it.
   */
  lemma ClaimedKeyIsSafeIff(s: Sys, q: nat, claims: seq<Claim>, limits: Usage, cap: Usage, k: string)
    requires Good(s, cap) && q in s.held && limits.Within(cap) && TryClaim(s.ledger, claims, limits).Allowed?
    requires k in Next(s, DoClaim(q, claims, limits)).ledger.keys
    ensures StaysCounted(Next(s, DoClaim(q, claims, limits)), q, k, cap) <==>
              k in TryClaim(s.ledger, claims, limits).claimed || NoOtherHolds(s, q, k)
  {
    var step := DoClaim(q, claims, limits);
    ClaimedKeys(s.ledger, claims, limits);
    ClaimStepKeepsGood(s, step, cap);
    StaysCountedIff(Next(s, step), q, k, cap);
    forall r | r in s.held && r != q ensures r in Next(s, step).held && Next(s, step).held[r] == s.held[r] {
    }
    assert Next(s, step).held.Keys == s.held.Keys;
  }

  /**
   The case that fails: two requests carry the same event.  The second claim is allowed and holds
   nothing of it, and when the first gives back what it claimed the event of both is uncounted.
   */
  lemma SharedKeyIsLostOnRelease(s: Sys, q: nat, r: nat, e: Event, limits: Usage)
    requires Consistent(s.ledger) && q in s.held && r in s.held && q != r
    requires NormalKey(EventKey(e)) !in s.ledger.keys && UsedAfter(s.ledger, e).Within(limits)
    ensures var first := TryClaim(s.ledger, EventClaims(e), limits);
            var s1 := Next(s, DoClaim(q, EventClaims(e), limits));
            var s2 := Next(s1, DoClaim(r, EventClaims(e), limits));
            && first.Allowed? && TryClaim(s1.ledger, EventClaims(e), limits).Allowed?
            && s2.held[r] == s.held[r] && NormalKey(EventKey(e)) in s2.ledger.keys
            && Enabled(s2, DoRelease(q, Names(first.claimed)))
            && Next(s2, DoRelease(q, Names(first.claimed))).ledger == s.ledger
  {
    var first := TryClaim(s.ledger, EventClaims(e), limits);
    EventVerdict(s.ledger, e, limits);
    RepeatIsFree(s.ledger, e, limits);
    var s1 := Next(s, DoClaim(q, EventClaims(e), limits));
    assert s1 == Sys(first.ledger, s.held[q := s.held[q] + Names(first.claimed)]);
    var s2 := Next(s1, DoClaim(r, EventClaims(e), limits));
    assert Names([]) == {} && s.held[r] + {} == s.held[r];
    assert s2.ledger == first.ledger && s2.held[q] == s.held[q] + Names(first.claimed);
    EventIsCounted(s.ledger, e, limits);
    ReleaseUndoesClaim(s.ledger, EventClaims(e), limits);
  }

  lemma EventIsCounted(l: Ledger, e: Event, limits: Usage)
    requires TryClaim(l, EventClaims(e), limits).Allowed?
    ensures NormalKey(EventKey(e)) in TryClaim(l, EventClaims(e), limits).ledger.keys
  {
    EventCovered(l.keys, e);
    EventCost(l.keys, e);
  }

  /** Claiming an event again, right after it was accepted, is allowed and adds nothing. */
  lemma RepeatIsFree(l: Ledger, e: Event, limits: Usage)
    requires TryClaim(l, EventClaims(e), limits).Allowed?
    ensures var l' := TryClaim(l, EventClaims(e), limits).ledger;
            TryClaim(l', EventClaims(e), limits) == Allowed(l', [])
  {
    var l' := TryClaim(l, EventClaims(e), limits).ledger;
    EventCovered(l.keys, e);
    EventCost(l.keys, e);
    EventCost(l'.keys, e);
    MetersGrow(l, EventClaims(e), limits);
    assert EventAdds(l'.keys, e) == [];
    NothingNew(l', EventClaims(e), limits);
  }

  lemma NothingNew(l: Ledger, claims: seq<Claim>, limits: Usage)
    requires NewClaims(l.keys, claims) == [] && l.used.Within(limits)
    ensures TryClaim(l, claims, limits) == Allowed(l, [])
  {
    assert AddUsage(l.used, []) == l.used && Insert(l.keys, []) == l.keys && KeySeq([]) == [];
  }
}
