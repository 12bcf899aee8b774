/**
 Ingestion at the allowance boundary: one atomic claim for the whole batch, and,
 when that is denied, one atomic claim for each event in order.
 */
module QuotaBoundary {
  import opened Prelude
  import opened UsageLedger

  datatype Event = Event(id: string, sessionStart: bool, session: string)

  const EVENT_PREFIX := "event:"
  const SESSION_PREFIX := "session:"

  function EventKey(e: Event): string {
    EVENT_PREFIX + e.id
  }

  function SessionKey(e: Event): string {
    SESSION_PREFIX + e.session
  }

  function EventClaims(e: Event): seq<Claim> {
    [Claim(EventKey(e), Events)] + if e.sessionStart then [Claim(SessionKey(e), Sessions)] else []
  }

  function IngestionClaims(es: seq<Event>): seq<Claim> {
    if es == [] then [] else EventClaims(es[0]) + IngestionClaims(es[1..])
  }

  datatype Outcome = Outcome(ledger: Ledger, accepted: seq<Event>, rejected: seq<Event>,
                             releases: seq<seq<string>>)

  function OneEvent(o: Outcome, e: Event, limits: Usage): Outcome {
    match TryClaim(o.ledger, EventClaims(e), limits)
    case Allowed(l, claimed) => Outcome(l, o.accepted + [e], o.rejected, o.releases + [claimed])
    case Denied(_, _, _) => o.(rejected := o.rejected + [e])
  }

  /** The per-event loop, as a fold over the events in order. */
  function PerEvent(l: Ledger, es: seq<Event>, limits: Usage): Outcome {
    if es == [] then Outcome(l, [], [], [])
    else OneEvent(PerEvent(l, es[..|es| - 1], limits), es[|es| - 1], limits)
  }

  /** The boundary function: batch claim, then a single event's refusal, then the loop. */
  function AtBoundary(l: Ledger, es: seq<Event>, limits: Usage): Outcome {
    if es == [] then Outcome(l, [], [], [])
    else
      match TryClaim(l, IngestionClaims(es), limits)
      case Allowed(l', claimed) => Outcome(l', es, [], [claimed])
      case Denied(_, _, _) =>
        if |es| <= 1 then Outcome(l, [], es, []) else PerEvent(l, es, limits)
  }

  // ---------------------------------------------------------------- fast path = slow path

  lemma {:induction false} IngestionClaimsAppend(xs: seq<Event>, ys: seq<Event>)
    ensures IngestionClaims(xs + ys) == IngestionClaims(xs) + IngestionClaims(ys)
  {
    if xs == [] {
      assert xs + ys == ys;
    } else {
      assert (xs + ys)[1..] == xs[1..] + ys;
      IngestionClaimsAppend(xs[1..], ys);
    }
  }

  lemma SplitLast(es: seq<Event>)
    requires es != []
    ensures IngestionClaims(es) == IngestionClaims(es[..|es| - 1]) + EventClaims(es[|es| - 1])
  {
    var init, last := es[..|es| - 1], es[|es| - 1];
    assert es == init + [last];
    IngestionClaimsAppend(init, [last]);
    assert [last][1..] == [];
    assert IngestionClaims([last]) == EventClaims(last);
  }

  /**
   The whole batch is claimable exactly when the loop rejects nothing, and then both
   count the same keys in the same order and leave the same ledger.
   */
  lemma {:induction false} BatchIffLoopAcceptsAll(l: Ledger, es: seq<Event>, limits: Usage)
    ensures var batch, loop := TryClaim(l, IngestionClaims(es), limits), PerEvent(l, es, limits);
            && (batch.Allowed? <==> loop.rejected == [])
            && (batch.Allowed? ==>
                  && loop.accepted == es
                  && loop.ledger == batch.ledger
                  && Concat(loop.releases) == batch.claimed)
  {
    if es != [] {
      var init, last := es[..|es| - 1], es[|es| - 1];
      assert es == init + [last];
      SplitLast(es);
      BatchIffLoopAcceptsAll(l, init, limits);
      ClaimSplits(l, IngestionClaims(init), EventClaims(last), limits);
      var before := PerEvent(l, init, limits);
      var second := TryClaim(before.ledger, EventClaims(last), limits);
      if second.Allowed? {
        ConcatAppend(before.releases, [second.claimed]);
        assert [second.claimed][1..] == [];
        assert Concat([second.claimed]) == second.claimed;
      }
    }
  }

  /**
   The fast path cannot be observed: on every ledger and every batch, the boundary
   function accepts and rejects what the per-event loop would, names the same keys
   for release and leaves the same ledger.
   */
  lemma FastPathRefinesLoop(l: Ledger, es: seq<Event>, limits: Usage)
    ensures var b, p := AtBoundary(l, es, limits), PerEvent(l, es, limits);
            && b.accepted == p.accepted && b.rejected == p.rejected
            && b.ledger == p.ledger
            && Concat(b.releases) == Concat(p.releases)
  {
    BatchIffLoopAcceptsAll(l, es, limits);
    if es != [] {
      var batch := TryClaim(l, IngestionClaims(es), limits);
      if batch.Allowed? {
        assert [batch.claimed][1..] == [];
        assert Concat([batch.claimed]) == batch.claimed;
      } else if |es| == 1 {
        SplitLast(es);
        assert es[..0] == [];
        assert IngestionClaims(es) == EventClaims(es[0]);
        assert es == [es[0]];
      }
    }
  }

  // ---------------------------------------------------------------- in order, nothing lost

  /** `whole` is a merge of `a` and `b` that keeps both orders. */
  ghost predicate Merges(whole: seq<Event>, a: seq<Event>, b: seq<Event>) {
    if whole == [] then a == [] && b == []
    else
      var last, init := whole[|whole| - 1], whole[..|whole| - 1];
      || (a != [] && a[|a| - 1] == last && Merges(init, a[..|a| - 1], b))
      || (b != [] && b[|b| - 1] == last && Merges(init, a, b[..|b| - 1]))
  }

  lemma MergesExtend(es: seq<Event>, a: seq<Event>, b: seq<Event>)
    requires es != [] && Merges(es[..|es| - 1], a, b)
    ensures Merges(es, a + [es[|es| - 1]], b) && Merges(es, a, b + [es[|es| - 1]])
  {
    var last := es[|es| - 1];
    assert (a + [last])[..|a|] == a && (b + [last])[..|b|] == b;
  }

  lemma {:induction false} LoopSplitsInOrder(l: Ledger, es: seq<Event>, limits: Usage)
    ensures Merges(es, PerEvent(l, es, limits).accepted, PerEvent(l, es, limits).rejected)
    ensures |PerEvent(l, es, limits).releases| == |PerEvent(l, es, limits).accepted|
  {
    if es != [] {
      var o := PerEvent(l, es[..|es| - 1], limits);
      var e := es[|es| - 1];
      LoopSplitsInOrder(l, es[..|es| - 1], limits);
      MergesExtend(es, o.accepted, o.rejected);
    }
  }

  // ---------------------------------------------------------------- maximality

  /** The key of an event is made of its identifier alone, that of a session start of its session. */
  lemma KeyFamilies(e: Event)
    ensures NormalKey(EventKey(e)) == "event:" + Kept(e.id, 249)
    ensures NormalKey(SessionKey(e)) == "session:" + Kept(e.session, 247)
    ensures NormalKey(EventKey(e)) != NormalKey(SessionKey(e))
  {
    NormalKeyKeepsPrefix("event:", e.id);
    NormalKeyKeepsPrefix("session:", e.session);
    assert NormalKey(EventKey(e))[0] == 'e' && NormalKey(SessionKey(e))[0] == 's';
  }

  /**
   Identifiers of ordinary shape: two events have one event key exactly when their identifiers are
   equal, and one session key exactly when their sessions are.
   */
  lemma SameKeyIff(a: Event, b: Event)
    requires Plain(a.id, 249) && Plain(b.id, 249) && Plain(a.session, 247) && Plain(b.session, 247)
    ensures NormalKey(EventKey(a)) == NormalKey(EventKey(b)) <==> a.id == b.id
    ensures NormalKey(SessionKey(a)) == NormalKey(SessionKey(b)) <==> a.session == b.session
  {
    KeyFamilies(a);
    KeyFamilies(b);
    PlainIsKept(a.id, 249);
    PlainIsKept(b.id, 249);
    PlainIsKept(a.session, 247);
    PlainIsKept(b.session, 247);
    SamePrefix("event:", a.id, b.id);
    SamePrefix("session:", a.session, b.session);
  }

  lemma SamePrefix(prefix: string, x: string, y: string)
    ensures prefix + x == prefix + y <==> x == y
  {
    assert (prefix + x)[|prefix|..] == x && (prefix + y)[|prefix|..] == y;
  }

  /** Keys with an ingestion prefix are only ever claimed under that prefix's metric. */
  ghost predicate WellKeyed(claims: seq<Claim>) {
    forall c | c in claims ::
      && (EVENT_PREFIX <= NormalKey(c.key) ==> c.metric == Events)
      && (SESSION_PREFIX <= NormalKey(c.key) ==> c.metric == Sessions)
  }

  lemma {:induction false} IngestionWellKeyed(es: seq<Event>)
    ensures WellKeyed(IngestionClaims(es))
  {
    if es != [] {
      KeyFamilies(es[0]);
      assert NormalKey(EventKey(es[0]))[0] == 'e' && NormalKey(SessionKey(es[0]))[0] == 's';
      IngestionWellKeyed(es[1..]);
    }
  }

  /** What one event would add to a ledger: at most one unit on each of two meters. */
  function EventAdds(keys: map<string, Metric>, e: Event): seq<Claim> {
    var ek, sk := NormalKey(EventKey(e)), NormalKey(SessionKey(e));
    (if ek in keys then [] else [Claim(ek, Events)])
    + if e.sessionStart && sk !in keys then [Claim(sk, Sessions)] else []
  }

  lemma EventCost(keys: map<string, Metric>, e: Event)
    ensures UniqueFrom(EventClaims(e), {}) != []
    ensures NewClaims(keys, EventClaims(e)) == EventAdds(keys, e)
  {
    KeyFamilies(e);
    NewClaimsOnePass(keys, EventClaims(e));
    var ek, sk := NormalKey(EventKey(e)), NormalKey(SessionKey(e));
    var tail := EventClaims(e)[1..];
    assert tail == if e.sessionStart then [Claim(SessionKey(e), Sessions)] else [];
    var seen := if ek in keys then keys.Keys else keys.Keys + {ek};
    if e.sessionStart {
      assert tail[1..] == [];
      assert UniqueFrom(tail[1..], seen) == [] && UniqueFrom(tail[1..], seen + {sk}) == [];
    }
  }

  lemma EventCounts(keys: map<string, Metric>, e: Event)
    ensures var cost := EventAdds(keys, e);
            && Count(cost, Events) == (if NormalKey(EventKey(e)) in keys then 0 else 1)
            && Count(cost, Sessions) ==
                 (if e.sessionStart && NormalKey(SessionKey(e)) !in keys then 1 else 0)
            && Count(cost, JourneySamples) == 0 && Count(cost, BundleGenerations) == 0
  {
    var ek, sk := NormalKey(EventKey(e)), NormalKey(SessionKey(e));
    var first := if ek in keys then [] else [Claim(ek, Events)];
    var last := if e.sessionStart && sk !in keys then [Claim(sk, Sessions)] else [];
    CountAppend(first, last, Events);
    CountAppend(first, last, Sessions);
    CountAppend(first, last, JourneySamples);
    CountAppend(first, last, BundleGenerations);
  }

  /** The meters after `e` is counted in `l`. */
  function UsedAfter(l: Ledger, e: Event): Usage {
    l.used.(
      events := l.used.events + if "event:" + Kept(e.id, 249) in l.keys then 0 else 1,
      sessions := l.used.sessions
                  + if e.sessionStart && "session:" + Kept(e.session, 247) !in l.keys then 1 else 0
    )
  }

  /** When a single event is accepted, and what accepting it does to the meters. */
  lemma EventVerdict(l: Ledger, e: Event, limits: Usage)
    ensures var r := TryClaim(l, EventClaims(e), limits);
            && (r.Allowed? <==> UsedAfter(l, e).Within(limits))
            && (r.Allowed? ==> r.ledger.used == UsedAfter(l, e))
  {
    KeyFamilies(e);
    EventCost(l.keys, e);
    EventCounts(l.keys, e);
    assert AddUsage(l.used, EventAdds(l.keys, e)) == UsedAfter(l, e);
  }

  lemma {:induction false} CountedKey(cs: seq<Claim>, c: Claim)
    requires c in cs
    ensures Count(cs, c.metric) > 0
  {
    if cs[0] != c {
      CountedKey(cs[1..], c);
    }
  }

  /**
   If metric `m` of a key family is full for a new key `k`, an allowed claim by anybody
   leaves `k` uncounted.
   */
  lemma FullMeterKeepsKeyOut(l: Ledger, claims: seq<Claim>, limits: Usage, k: string, m: Metric)
    requires TryClaim(l, claims, limits).Allowed? && UniqueFrom(claims, {}) != []
    requires k !in l.keys && l.used.At(m) >= limits.At(m)
    requires forall c | c in claims && NormalKey(c.key) == k :: c.metric == m
    ensures k !in TryClaim(l, claims, limits).ledger.keys
  {
    var added := NewClaims(l.keys, claims);
    NewClaimsOnePass(l.keys, claims);
    if k in KeySet(added) {
      UniqueOrigin(claims, l.keys.Keys);
      var c :| c in added && c.key == k;
      CountedKey(added, c);
      assert false;
    }
  }

  /** An event refused once stays refused after any allowed claim, its own request's or another's. */
  lemma RefusalIsStable(l: Ledger, e: Event, claims: seq<Claim>, limits: Usage)
    requires TryClaim(l, EventClaims(e), limits).Denied?
    requires TryClaim(l, claims, limits).Allowed? && WellKeyed(claims)
    ensures TryClaim(TryClaim(l, claims, limits).ledger, EventClaims(e), limits).Denied?
  {
    var l' := TryClaim(l, claims, limits).ledger;
    if UniqueFrom(claims, {}) != [] {
      EventVerdict(l, e, limits);
      EventVerdict(l', e, limits);
      MetersGrow(l, claims, limits);
      var ek, sk := NormalKey(EventKey(e)), NormalKey(SessionKey(e));
      KeyFamilies(e);
      if UsedAfter(l, e).events > limits.events {
        FullMeterKeepsKeyOut(l, claims, limits, ek, Events);
      } else {
        FullMeterKeepsKeyOut(l, claims, limits, sk, Sessions);
      }
    }
  }

  lemma MetersGrow(l: Ledger, claims: seq<Claim>, limits: Usage)
    requires TryClaim(l, claims, limits).Allowed? && UniqueFrom(claims, {}) != []
    ensures var u := TryClaim(l, claims, limits).ledger.used;
            u.Within(limits) && l.used.Within(u)
  {
  }

  /** The loop with other requests' claims between its own steps. */
  datatype Turn = Mine(event: Event) | Others(claims: seq<Claim>)

  function OneTurn(o: Outcome, t: Turn, limits: Usage): Outcome {
    match t
    case Mine(e) => OneEvent(o, e, limits)
    case Others(claims) =>
      match TryClaim(o.ledger, claims, limits)
      case Allowed(l, _) => o.(ledger := l)
      case Denied(_, _, _) => o
  }

  function WithOthers(l: Ledger, turns: seq<Turn>, limits: Usage): Outcome {
    if turns == [] then Outcome(l, [], [], [])
    else OneTurn(WithOthers(l, turns[..|turns| - 1], limits), turns[|turns| - 1], limits)
  }

  function MyEvents(es: seq<Event>): seq<Turn> {
    seq(|es|, i requires 0 <= i < |es| => Mine(es[i]))
  }

  lemma {:induction false} AloneIsPerEvent(l: Ledger, es: seq<Event>, limits: Usage)
    ensures WithOthers(l, MyEvents(es), limits) == PerEvent(l, es, limits)
  {
    if es != [] {
      AloneIsPerEvent(l, es[..|es| - 1], limits);
      assert MyEvents(es)[..|es| - 1] == MyEvents(es[..|es| - 1]);
    }
  }

  function ClaimsIn(turn: Turn): seq<Claim> {
    if turn.Mine? then EventClaims(turn.event) else turn.claims
  }

  /** The ledger after a series of claims, whoever makes them; one that is denied changes nothing. */
  function AfterClaims(l: Ledger, turns: seq<Turn>, limits: Usage): Ledger {
    if turns == [] then l
    else
      var before := AfterClaims(l, turns[..|turns| - 1], limits);
      match TryClaim(before, ClaimsIn(turns[|turns| - 1]), limits)
      case Allowed(after, _) => after
      case Denied(_, _, _) => before
  }

  /** The interleaved loop leaves the ledger of all the claims in turn, the other requests' included. */
  lemma {:induction false} InterleavedLedger(l: Ledger, turns: seq<Turn>, limits: Usage)
    ensures WithOthers(l, turns, limits).ledger == AfterClaims(l, turns, limits)
  {
    if turns != [] {
      InterleavedLedger(l, turns[..|turns| - 1], limits);
    }
  }

  /**
   Maximality under interleaved claims: when no key is released meanwhile, no event the
   loop rejected could be claimed in the ledger it ends with.
   */
  lemma {:induction false} RejectedStayUnclaimable(l: Ledger, turns: seq<Turn>, limits: Usage)
    requires forall t | t in turns && t.Others? :: WellKeyed(t.claims)
    ensures var o := WithOthers(l, turns, limits);
            forall e | e in o.rejected :: TryClaim(o.ledger, EventClaims(e), limits).Denied?
  {
    if turns != [] {
      var o := WithOthers(l, turns[..|turns| - 1], limits);
      var t := turns[|turns| - 1];
      RejectedStayUnclaimable(l, turns[..|turns| - 1], limits);
      var claims := if t.Mine? then EventClaims(t.event) else t.claims;
      if t.Mine? {
        IngestionWellKeyed([t.event]);
        assert IngestionClaims([t.event]) == EventClaims(t.event) + IngestionClaims([t.event][1..]);
      }
      if TryClaim(o.ledger, claims, limits).Allowed? {
        forall e | e in o.rejected
          ensures TryClaim(TryClaim(o.ledger, claims, limits).ledger, EventClaims(e), limits).Denied?
        {
          RefusalIsStable(o.ledger, e, claims, limits);
        }
      }
    }
  }

  /** The boundary function alone is maximal and splits its input in order. */
  lemma BoundaryIsMaximal(l: Ledger, es: seq<Event>, limits: Usage)
    ensures var o := AtBoundary(l, es, limits);
            && Merges(es, o.accepted, o.rejected)
            && forall e | e in o.rejected :: TryClaim(o.ledger, EventClaims(e), limits).Denied?
  {
    FastPathRefinesLoop(l, es, limits);
    LoopSplitsInOrder(l, es, limits);
    AloneIsPerEvent(l, es, limits);
    RejectedStayUnclaimable(l, MyEvents(es), limits);
  }
}
