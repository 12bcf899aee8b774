/**
 What ingestion does to the meters, told by the identifiers of events and sessions: how far a batch
 moves each meter, which batches fit, and how much of a batch is taken when it does not.
 */
module QuotaMeters {
  import opened Prelude
  import opened UsageLedger
  import opened QuotaBoundary

  /** The event keys of a batch, each once, however often its event is repeated. */
  function EventKeysOf(es: seq<Event>): set<string> {
    set e | e in es :: "event:" + Kept(e.id, 249)
  }

  function SessionKeysOf(es: seq<Event>): set<string> {
    set e | e in es && e.sessionStart :: "session:" + Kept(e.session, 247)
  }

  function KeysOf(es: seq<Event>, m: Metric): set<string> {
    match m
    case Events => EventKeysOf(es)
    case Sessions => SessionKeysOf(es)
    case _ => {}
  }

  // ---------------------------------------------------------------- counting new keys

  function KeysFor(cs: seq<Claim>, m: Metric): set<string> {
    set c | c in cs && c.metric == m :: c.key
  }

  lemma KeysForMore(c: Claim, rest: seq<Claim>, m: Metric)
    requires DistinctKeys([c] + rest)
    ensures DistinctKeys(rest)
    ensures KeysFor([c] + rest, m) == (if c.metric == m then {c.key} else {}) + KeysFor(rest, m)
    ensures c.key !in KeysFor(rest, m)
  {
    var all := [c] + rest;
    forall i, j | 0 <= i < j < |rest| ensures rest[i].key != rest[j].key {
      assert all[i + 1].key != all[j + 1].key;
    }
    forall i | 0 <= i < |rest| ensures rest[i].key != c.key {
      assert all[0].key != all[i + 1].key;
    }
  }

  lemma {:induction false} CountIsCard(cs: seq<Claim>, m: Metric)
    requires DistinctKeys(cs)
    ensures Count(cs, m) == |KeysFor(cs, m)|
  {
    if cs != [] {
      assert cs == [cs[0]] + cs[1..];
      KeysForMore(cs[0], cs[1..], m);
      CountIsCard(cs[1..], m);
      DisjointCard(if cs[0].metric == m then {cs[0].key} else {}, KeysFor(cs[1..], m));
    }
  }

  lemma {:induction false} ClaimsOf(es: seq<Event>, c: Claim)
    ensures c in IngestionClaims(es) <==>
              exists e | e in es :: c == Claim(EventKey(e), Events)
                                    || (e.sessionStart && c == Claim(SessionKey(e), Sessions))
  {
    if es != [] {
      ClaimsOf(es[1..], c);
      assert es == [es[0]] + es[1..];
      assert c in EventClaims(es[0]) <==> c == Claim(EventKey(es[0]), Events)
                                          || (es[0].sessionStart && c == Claim(SessionKey(es[0]), Sessions));
    }
  }

  lemma NewKeyIsOf(es: seq<Event>, seen: set<string>, c: Claim)
    requires c in UniqueFrom(IngestionClaims(es), seen)
    ensures c.key in KeysOf(es, c.metric) - seen
  {
    UniqueOrigin(IngestionClaims(es), seen);
    assert c.key in KeySet(UniqueFrom(IngestionClaims(es), seen));
    assert ComesFrom(c, IngestionClaims(es));
    var r :| r in IngestionClaims(es) && c == Claim(NormalKey(r.key), r.metric);
    ClaimsOf(es, r);
    var e :| e in es && (r == Claim(EventKey(e), Events) || (e.sessionStart && r == Claim(SessionKey(e), Sessions)));
    KeyFamilies(e);
  }

  /** A key of the batch that was not seen is new, under its metric. */
  lemma KeyOfIsNew(es: seq<Event>, seen: set<string>, k: string, m: Metric)
    requires k in KeysOf(es, m) - seen
    ensures k in KeysFor(UniqueFrom(IngestionClaims(es), seen), m)
  {
    var e :| e in es && (if m.Events? then k == "event:" + Kept(e.id, 249)
                         else e.sessionStart && k == "session:" + Kept(e.session, 247));
    KeyFamilies(e);
    var raw := if m.Events? then Claim(EventKey(e), Events) else Claim(SessionKey(e), Sessions);
    ClaimsOf(es, raw);
    UniqueCovers(IngestionClaims(es), seen, raw);
    var c :| c in UniqueFrom(IngestionClaims(es), seen) && c.key == k;
    NewKeyIsOf(es, seen, c);
    assert k[0] == if m.Events? then 'e' else 's';
  }

  lemma NewKeysByMetric(es: seq<Event>, seen: set<string>, m: Metric)
    ensures KeysFor(UniqueFrom(IngestionClaims(es), seen), m) == KeysOf(es, m) - seen
    ensures Count(UniqueFrom(IngestionClaims(es), seen), m) == |KeysOf(es, m) - seen|
  {
    var added := UniqueFrom(IngestionClaims(es), seen);
    forall k | k in KeysFor(added, m) ensures k in KeysOf(es, m) - seen {
      var c :| c in added && c.metric == m && c.key == k;
      NewKeyIsOf(es, seen, c);
    }
    forall k | k in KeysOf(es, m) - seen ensures k in KeysFor(added, m) {
      KeyOfIsNew(es, seen, k, m);
    }
    assert KeysFor(added, m) == KeysOf(es, m) - seen;
    UniqueOrigin(IngestionClaims(es), seen);
    CountIsCard(added, m);
  }

  lemma SomethingToClaim(es: seq<Event>)
    requires es != []
    ensures UniqueFrom(IngestionClaims(es), {}) != []
  {
    KeyFamilies(es[0]);
    assert "event:" + Kept(es[0].id, 249) in EventKeysOf(es) - {};
    KeyOfIsNew(es, {}, "event:" + Kept(es[0].id, 249), Events);
  }

  // ---------------------------------------------------------------- one claim for a batch

  function Moved(used: Usage, events: nat, sessions: nat): Usage {
    used.(events := used.events + events, sessions := used.sessions + sessions)
  }

  lemma AddedMoves(used: Usage, added: seq<Claim>)
    requires Count(added, JourneySamples) == 0 && Count(added, BundleGenerations) == 0
    ensures AddUsage(used, added) == Moved(used, Count(added, Events), Count(added, Sessions))
  {
  }

  lemma BatchProjected(l: Ledger, es: seq<Event>)
    ensures AddUsage(l.used, UniqueFrom(IngestionClaims(es), l.keys.Keys))
         == Moved(l.used, |EventKeysOf(es) - l.keys.Keys|, |SessionKeysOf(es) - l.keys.Keys|)
  {
    var added := UniqueFrom(IngestionClaims(es), l.keys.Keys);
    forall m ensures Count(added, m) == |KeysOf(es, m) - l.keys.Keys| {
      NewKeysByMetric(es, l.keys.Keys, m);
    }
    AddedMoves(l.used, added);
  }

  lemma UsableClaim(l: Ledger, claims: seq<Claim>, limits: Usage)
    requires UniqueFrom(claims, {}) != []
    ensures var r, added := TryClaim(l, claims, limits), UniqueFrom(claims, l.keys.Keys);
            && (r.Allowed? <==> AddUsage(l.used, added).Within(limits))
            && (r.Allowed? ==> r.ledger == Ledger(Insert(l.keys, added), AddUsage(l.used, added)))
  {
    NewClaimsOnePass(l.keys, claims);
  }

  /**
   A batch is claimed exactly when the events meter has room for the identifiers not yet counted and the
   sessions meter for the sessions it newly starts; then those meters move by just so much.
   */
  lemma BatchMeters(l: Ledger, es: seq<Event>, limits: Usage)
    requires es != []
    ensures var r := TryClaim(l, IngestionClaims(es), limits);
            var after := Moved(l.used, |EventKeysOf(es) - l.keys.Keys|, |SessionKeysOf(es) - l.keys.Keys|);
            && (r.Allowed? <==> after.events <= limits.events && after.sessions <= limits.sessions
                                && l.used.samples <= limits.samples && l.used.bundles <= limits.bundles)
            && (r.Allowed? ==> r.ledger.used == after)
  {
    SomethingToClaim(es);
    UsableClaim(l, IngestionClaims(es), limits);
    BatchProjected(l, es);
  }

  lemma NewKeySet(es: seq<Event>, seen: set<string>)
    ensures seen + KeySet(UniqueFrom(IngestionClaims(es), seen)) == seen + EventKeysOf(es) + SessionKeysOf(es)
  {
    var added := UniqueFrom(IngestionClaims(es), seen);
    forall k | k in KeySet(added) ensures k in EventKeysOf(es) + SessionKeysOf(es) {
      var c :| c in added && c.key == k;
      NewKeyIsOf(es, seen, c);
    }
    forall m, k | k in KeysOf(es, m) - seen ensures k in KeySet(added) {
      KeyOfIsNew(es, seen, k, m);
    }
    assert KeysOf(es, Events) == EventKeysOf(es) && KeysOf(es, Sessions) == SessionKeysOf(es);
  }

  /** Then exactly its identifiers and sessions are counted beside those that were. */
  lemma BatchKeys(l: Ledger, es: seq<Event>, limits: Usage)
    requires es != [] && TryClaim(l, IngestionClaims(es), limits).Allowed?
    ensures TryClaim(l, IngestionClaims(es), limits).ledger.keys.Keys
         == l.keys.Keys + EventKeysOf(es) + SessionKeysOf(es)
  {
    SomethingToClaim(es);
    UsableClaim(l, IngestionClaims(es), limits);
    NewKeySet(es, l.keys.Keys);
  }

  // ---------------------------------------------------------------- events of ordinary shape

  predicate PlainEvents(es: seq<Event>) {
    forall i | 0 <= i < |es| :: Plain(es[i].id, 249) && Plain(es[i].session, 247)
  }

  predicate DistinctIds(es: seq<Event>) {
    forall i, j | 0 <= i < j < |es| :: es[i].id != es[j].id
  }

  predicate NoneCounted(l: Ledger, es: seq<Event>) {
    forall i | 0 <= i < |es| :: "event:" + es[i].id !in l.keys
  }

  /** The sessions that a batch starts and that are not counted yet. */
  function NewSessions(l: Ledger, es: seq<Event>): set<string> {
    set e | e in es && e.sessionStart && "session:" + e.session !in l.keys :: e.session
  }

  lemma {:induction false} PrefixedCard(prefix: string, xs: set<string>)
    ensures |set x | x in xs :: prefix + x| == |xs|
    decreases xs
  {
    if xs == {} {
      assert (set x | x in xs :: prefix + x) == {};
    } else {
      var y :| y in xs;
      var rest := xs - {y};
      PrefixedCard(prefix, rest);
      forall x | x in rest ensures prefix + x != prefix + y {
        SamePrefix(prefix, x, y);
      }
      assert xs == rest + {y};
      assert (set x | x in xs :: prefix + x) == (set x | x in rest :: prefix + x) + {prefix + y};
    }
  }

  lemma {:induction false} DistinctIdsCount(es: seq<Event>)
    requires PlainEvents(es) && DistinctIds(es)
    ensures |EventKeysOf(es)| == |es|
  {
    if es == [] {
      assert EventKeysOf(es) == {};
    } else {
      var n := |es| - 1;
      DistinctIdsCount(es[..n]);
      assert es == es[..n] + [es[n]];
      PlainIsKept(es[n].id, 249);
      forall e | e in es[..n] ensures "event:" + Kept(e.id, 249) != "event:" + es[n].id {
        var i :| 0 <= i < n && es[..n][i] == e;
        assert es[i] == e && es[i].id != es[n].id;
        PlainIsKept(e.id, 249);
        SamePrefix("event:", e.id, es[n].id);
      }
      assert EventKeysOf(es) == EventKeysOf(es[..n]) + {"event:" + es[n].id};
    }
  }

  lemma FreshEventKeys(l: Ledger, es: seq<Event>)
    requires PlainEvents(es) && DistinctIds(es) && NoneCounted(l, es)
    ensures |EventKeysOf(es) - l.keys.Keys| == |es|
  {
    DistinctIdsCount(es);
    forall e | e in es ensures "event:" + Kept(e.id, 249) !in l.keys {
      var i :| 0 <= i < |es| && es[i] == e;
      PlainIsKept(e.id, 249);
    }
    assert EventKeysOf(es) - l.keys.Keys == EventKeysOf(es);
  }

  lemma NewSessionKeys(l: Ledger, es: seq<Event>)
    requires PlainEvents(es)
    ensures |SessionKeysOf(es) - l.keys.Keys| == |NewSessions(l, es)|
  {
    forall e | e in es ensures Kept(e.session, 247) == e.session {
      var i :| 0 <= i < |es| && es[i] == e;
      PlainIsKept(e.session, 247);
    }
    PrefixedCard("session:", NewSessions(l, es));
    assert SessionKeysOf(es) - l.keys.Keys == set x | x in NewSessions(l, es) :: "session:" + x;
  }

  /**
   An allowed batch of events with new identifiers, all different, moves the events meter by the number of
   events and the sessions meter by the number of different sessions it newly starts.
   */
  lemma FreshBatchMeters(l: Ledger, es: seq<Event>, limits: Usage)
    requires es != [] && PlainEvents(es) && DistinctIds(es) && NoneCounted(l, es)
    ensures var r := TryClaim(l, IngestionClaims(es), limits);
            var after := Moved(l.used, |es|, |NewSessions(l, es)|);
            && (r.Allowed? <==> after.events <= limits.events && after.sessions <= limits.sessions
                                && l.used.samples <= limits.samples && l.used.bundles <= limits.bundles)
            && (r.Allowed? ==> r.ledger.used == after)
  {
    BatchMeters(l, es, limits);
    FreshEventKeys(l, es);
    NewSessionKeys(l, es);
  }

  // ---------------------------------------------------------------- how much of a batch is taken

  /** The first `n` events of the batch were claimed and the rest refused. */
  ghost predicate TookFirst(l: Ledger, es: seq<Event>, n: nat, o: Outcome) {
    && n <= |es| && o.accepted == es[..n] && o.rejected == es[n..]
    && o.ledger.used == l.used.(events := l.used.events + n)
    && o.ledger.keys.Keys == l.keys.Keys + EventKeysOf(es[..n])
  }

  lemma OneEventKeys(l: Ledger, e: Event, limits: Usage)
    requires Plain(e.id, 249) && !e.sessionStart && TryClaim(l, EventClaims(e), limits).Allowed?
    ensures TryClaim(l, EventClaims(e), limits).ledger.keys.Keys == l.keys.Keys + {"event:" + e.id}
  {
    EventCost(l.keys, e);
    KeyFamilies(e);
    PlainIsKept(e.id, 249);
  }

  lemma NotYetCounted(l: Ledger, es: seq<Event>, n: nat, k: nat)
    requires PlainEvents(es) && DistinctIds(es) && NoneCounted(l, es) && n <= k < |es|
    ensures Kept(es[k].id, 249) == es[k].id && "event:" + es[k].id !in l.keys.Keys + EventKeysOf(es[..n])
  {
    PlainIsKept(es[k].id, 249);
    forall e | e in es[..n] ensures "event:" + Kept(e.id, 249) != "event:" + es[k].id {
      var i :| 0 <= i < n && es[..n][i] == e;
      assert es[i] == e && es[i].id != es[k].id;
      PlainIsKept(e.id, 249);
      SamePrefix("event:", e.id, es[k].id);
    }
  }

  /** The next event fits and is taken. */
  lemma TakeOne(l: Ledger, es: seq<Event>, k: nat, o: Outcome, limits: Usage)
    requires PlainEvents(es) && DistinctIds(es) && NoneCounted(l, es) && l.used.Within(limits)
    requires k < |es| && !es[k].sessionStart && k < limits.events - l.used.events
    requires TookFirst(l, es[..k], k, o)
    ensures TookFirst(l, es[..k + 1], k + 1, OneEvent(o, es[k], limits))
  {
    assert es[..k][..k] == es[..k] && es[..k + 1][..k + 1] == es[..k + 1] == es[..k] + [es[k]];
    NotYetCounted(l, es, k, k);
    EventVerdict(o.ledger, es[k], limits);
    OneEventKeys(o.ledger, es[k], limits);
    assert EventKeysOf(es[..k + 1]) == EventKeysOf(es[..k]) + {"event:" + es[k].id};
  }

  /** The meter is full and the next event is refused. */
  lemma RefuseOne(l: Ledger, es: seq<Event>, k: nat, n: nat, o: Outcome, limits: Usage)
    requires PlainEvents(es) && DistinctIds(es) && NoneCounted(l, es) && l.used.Within(limits)
    requires k < |es| && n == limits.events - l.used.events <= k
    requires TookFirst(l, es[..k], n, o)
    ensures TookFirst(l, es[..k + 1], n, OneEvent(o, es[k], limits))
  {
    assert es[..k][..n] == es[..n] == es[..k + 1][..n];
    assert es[..k + 1][n..] == es[..k][n..] + [es[k]];
    NotYetCounted(l, es, n, k);
    EventVerdict(o.ledger, es[k], limits);
  }

  lemma {:induction false} LoopTakesFirst(l: Ledger, es: seq<Event>, limits: Usage, k: nat)
    requires PlainEvents(es) && DistinctIds(es) && NoneCounted(l, es) && l.used.Within(limits)
    requires k <= |es| && forall e | e in es :: !e.sessionStart
    ensures TookFirst(l, es[..k], Min(k, limits.events - l.used.events), PerEvent(l, es[..k], limits))
  {
    if k == 0 {
      assert es[..0] == [] && EventKeysOf([]) == {};
    } else {
      LoopTakesFirst(l, es, limits, k - 1);
      assert es[..k][..k - 1] == es[..k - 1];
      if k - 1 < limits.events - l.used.events {
        TakeOne(l, es, k - 1, PerEvent(l, es[..k - 1], limits), limits);
      } else {
        RefuseOne(l, es, k - 1, limits.events - l.used.events, PerEvent(l, es[..k - 1], limits), limits);
      }
    }
  }

  /**
   Near the boundary not a unit is left unused: of new events with different identifiers that start no
   session, exactly as many are accepted as the events meter has room for, and they are the first ones.
   */
  lemma BoundaryFillsMeter(l: Ledger, es: seq<Event>, limits: Usage)
    requires PlainEvents(es) && DistinctIds(es) && NoneCounted(l, es) && l.used.Within(limits)
    requires forall e | e in es :: !e.sessionStart
    ensures var n := Min(|es|, limits.events - l.used.events);
            var o := AtBoundary(l, es, limits);
            && o.accepted == es[..n] && o.rejected == es[n..]
            && o.ledger.used == l.used.(events := l.used.events + n)
  {
    assert es[..|es|] == es;
    LoopTakesFirst(l, es, limits, |es|);
    FastPathRefinesLoop(l, es, limits);
  }
}
