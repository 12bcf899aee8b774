/**
 The analytics allowance ledger: idempotency keys already counted in the billing
 period, and the four meters kept beside them.  A claim either counts every new
 key or changes nothing; a release deletes keys and subtracts what it deleted.
 */
module UsageLedger {
  import opened Prelude

  datatype Metric = Events | Sessions | JourneySamples | BundleGenerations

  datatype Claim = Claim(key: string, metric: Metric)

  /** One number for each meter; used both for consumption and for limits. */
  datatype Usage = Usage(events: int, sessions: int, samples: int, bundles: int) {
    function At(m: Metric): int {
      match m
      case Events => events
      case Sessions => sessions
      case JourneySamples => samples
      case BundleGenerations => bundles
    }

    function Plus(m: Metric): Usage {
      match m
      case Events => this.(events := events + 1)
      case Sessions => this.(sessions := sessions + 1)
      case JourneySamples => this.(samples := samples + 1)
      case BundleGenerations => this.(bundles := bundles + 1)
    }

    predicate Within(limits: Usage) {
      events <= limits.events && sessions <= limits.sessions
      && samples <= limits.samples && bundles <= limits.bundles
    }

    /** The first meter, in the store's fixed order, that passes its limit. */
    function Exceeded(limits: Usage): Option<Metric> {
      if events > limits.events then Some(Events)
      else if sessions > limits.sessions then Some(Sessions)
      else if samples > limits.samples then Some(JourneySamples)
      else if bundles > limits.bundles then Some(BundleGenerations)
      else None
    }
  }

  datatype Ledger = Ledger(keys: map<string, Metric>, used: Usage)

  datatype ClaimResult =
    | Allowed(ledger: Ledger, claimed: seq<string>)
    | Denied(metric: Metric, observed: int, limit: int)

  // ---------------------------------------------------------------- key normalisation

  /** The white space and line terminators that `String.prototype.trim` removes, by code point. */
  predicate IsSpace(c: char) {
    var n := c as int;
    || 9 <= n <= 13 || n == 32 || n == 160 || n == 5760 || 8192 <= n <= 8202
    || n == 8232 || n == 8233 || n == 8239 || n == 8287 || n == 12288 || n == 65279
  }

  /** The controls from tab to carriage return, and the spaces and separators of Unicode. */
  lemma SpaceIsListed(c: char)
    ensures IsSpace(c) <==>
              || c == ' ' || c == '\t' || c == '\n' || c == '\U{000B}' || c == '\U{000C}' || c == '\r'
              || c == '\U{00A0}' || c == '\U{1680}' || '\U{2000}' <= c <= '\U{200A}' || c == '\U{2028}'
              || c == '\U{2029}' || c == '\U{202F}' || c == '\U{205F}' || c == '\U{3000}' || c == '\U{FEFF}'
  {
  }

  function TrimStart(s: string): string {
    if s != "" && IsSpace(s[0]) then TrimStart(s[1..]) else s
  }

  function TrimEnd(s: string): string {
    if s != "" && IsSpace(s[|s| - 1]) then TrimEnd(s[..|s| - 1]) else s
  }

  function NormalKey(key: string): string {
    var t := TrimEnd(TrimStart(key));
    if |t| > 255 then t[..255] else t
  }

  predicate Blank(s: string) {
    forall i | 0 <= i < |s| :: IsSpace(s[i])
  }

  lemma {:induction false} TrimStartBlank(pre: string, rest: string)
    requires Blank(pre) && (rest == "" || !IsSpace(rest[0]))
    ensures TrimStart(pre + rest) == rest
  {
    if pre == "" {
      assert pre + rest == rest;
    } else {
      assert (pre + rest)[1..] == pre[1..] + rest;
      TrimStartBlank(pre[1..], rest);
    }
  }

  lemma {:induction false} TrimEndBlank(rest: string, post: string)
    requires Blank(post) && (rest == "" || !IsSpace(rest[|rest| - 1]))
    ensures TrimEnd(rest + post) == rest
  {
    if post == "" {
      assert rest + post == rest;
    } else {
      assert (rest + post)[..|rest + post| - 1] == rest + post[..|post| - 1];
      TrimEndBlank(rest, post[..|post| - 1]);
    }
  }

  /** A key loses the white space around it and everything past its first 255 characters. */
  lemma NormalKeyTrimsAndCuts(pre: string, core: string, post: string)
    requires Blank(pre) && Blank(post)
    requires core == "" || (!IsSpace(core[0]) && !IsSpace(core[|core| - 1]))
    ensures NormalKey(pre + core + post) == core[..Min(255, |core|)]
  {
    if core == "" {
      assert pre + core + post == (pre + post) + "";
      assert Blank(pre + post);
      TrimStartBlank(pre + post, "");
    } else {
      assert pre + core + post == pre + (core + post);
      TrimStartBlank(pre, core + post);
      TrimEndBlank(core, post);
    }
  }

  /** What a prefix leaves of an identifier: no trailing white space, and the room there is. */
  function Kept(id: string, room: nat): string {
    var t := TrimEnd(id);
    t[..Min(room, |t|)]
  }

  predicate Plain(id: string, room: nat) {
    |id| <= room && (id == "" || !IsSpace(id[|id| - 1]))
  }

  lemma PlainIsKept(id: string, room: nat)
    requires Plain(id, room)
    ensures Kept(id, room) == id
  {
    assert id[..|id|] == id;
  }

  lemma {:induction false} TrimEndKeepsPrefix(prefix: string, tail: string)
    requires prefix != "" && !IsSpace(prefix[|prefix| - 1])
    ensures TrimEnd(prefix + tail) == prefix + TrimEnd(tail)
    decreases |tail|
  {
    var s := prefix + tail;
    if tail == "" {
      assert s == prefix;
    } else if IsSpace(s[|s| - 1]) {
      assert s[..|s| - 1] == prefix + tail[..|tail| - 1];
      TrimEndKeepsPrefix(prefix, tail[..|tail| - 1]);
    }
  }

  /** A short prefix that neither starts nor ends in white space survives normalisation. */
  lemma NormalKeyKeepsPrefix(prefix: string, tail: string)
    requires 0 < |prefix| <= 255
    requires !IsSpace(prefix[0]) && !IsSpace(prefix[|prefix| - 1])
    ensures NormalKey(prefix + tail) == prefix + Kept(tail, 255 - |prefix|)
  {
    assert TrimStart(prefix + tail) == prefix + tail;
    TrimEndKeepsPrefix(prefix, tail);
    var t := TrimEnd(tail);
    if |prefix + t| > 255 {
      assert (prefix + t)[..255] == prefix + t[..255 - |prefix|];
    } else {
      assert t[..|t|] == t;
    }
  }

  // ---------------------------------------------------------------- new claims

  function KeySet(cs: seq<Claim>): set<string> {
    set c | c in cs :: c.key
  }

  function KeySeq(cs: seq<Claim>): seq<string> {
    seq(|cs|, i requires 0 <= i < |cs| => cs[i].key)
  }

  /** First claim of each normalised key not in `seen`; empty keys are dropped. */
  function UniqueFrom(claims: seq<Claim>, seen: set<string>): seq<Claim> {
    if claims == [] then []
    else
      var k := NormalKey(claims[0].key);
      if k == "" || k in seen then UniqueFrom(claims[1..], seen)
      else [Claim(k, claims[0].metric)] + UniqueFrom(claims[1..], seen + {k})
  }

  function Without(cs: seq<Claim>, existing: set<string>): seq<Claim> {
    if cs == [] then []
    else (if cs[0].key in existing then [] else [cs[0]]) + Without(cs[1..], existing)
  }

  /** What the store adds: normalised and deduplicated claims, less the keys it already holds. */
  function NewClaims(keys: map<string, Metric>, claims: seq<Claim>): seq<Claim> {
    Without(UniqueFrom(claims, {}), keys.Keys)
  }

  /** Deduplicating first and dropping held keys second is one pass over both. */
  lemma {:induction false} OnePass(claims: seq<Claim>, seen: set<string>, existing: set<string>)
    ensures Without(UniqueFrom(claims, seen), existing) == UniqueFrom(claims, seen + existing)
  {
    if claims != [] {
      var k := NormalKey(claims[0].key);
      if k == "" || k in seen {
        OnePass(claims[1..], seen, existing);
      } else {
        var c, rest := Claim(k, claims[0].metric), UniqueFrom(claims[1..], seen + {k});
        assert ([c] + rest)[1..] == rest;
        OnePass(claims[1..], seen + {k}, existing);
        if k in existing {
          assert seen + {k} + existing == seen + existing;
        } else {
          assert seen + {k} + existing == seen + existing + {k};
        }
      }
    }
  }

  lemma NewClaimsOnePass(keys: map<string, Metric>, claims: seq<Claim>)
    ensures NewClaims(keys, claims) == UniqueFrom(claims, keys.Keys)
  {
    OnePass(claims, {}, keys.Keys);
    assert {} + keys.Keys == keys.Keys;
  }

  lemma {:induction false} UniqueAppend(xs: seq<Claim>, ys: seq<Claim>, seen: set<string>)
    ensures UniqueFrom(xs + ys, seen)
         == UniqueFrom(xs, seen) + UniqueFrom(ys, seen + KeySet(UniqueFrom(xs, seen)))
  {
    if xs == [] {
      assert xs + ys == ys;
      assert seen + KeySet([]) == seen;
    } else {
      assert (xs + ys)[1..] == xs[1..] + ys;
      var k := NormalKey(xs[0].key);
      if k == "" || k in seen {
        UniqueAppend(xs[1..], ys, seen);
      } else {
        UniqueAppend(xs[1..], ys, seen + {k});
        var rest := UniqueFrom(xs[1..], seen + {k});
        assert KeySet([Claim(k, xs[0].metric)] + rest) == {k} + KeySet(rest);
        assert seen + ({k} + KeySet(rest)) == seen + {k} + KeySet(rest);
      }
    }
  }

  ghost predicate DistinctKeys(cs: seq<Claim>) {
    forall i, j | 0 <= i < j < |cs| :: cs[i].key != cs[j].key
  }

  ghost predicate ComesFrom(c: Claim, claims: seq<Claim>) {
    exists r | r in claims :: c == Claim(NormalKey(r.key), r.metric)
  }

  /** Every new claim has a key outside `seen` and of its own, and comes from a claim of the list. */
  lemma {:induction false} UniqueOrigin(claims: seq<Claim>, seen: set<string>)
    ensures KeySet(UniqueFrom(claims, seen)) !! seen && DistinctKeys(UniqueFrom(claims, seen))
    ensures forall c | c in UniqueFrom(claims, seen) :: ComesFrom(c, claims)
  {
    if claims != [] {
      var k := NormalKey(claims[0].key);
      if k == "" || k in seen {
        UniqueOrigin(claims[1..], seen);
      } else {
        var rest := UniqueFrom(claims[1..], seen + {k});
        UniqueOrigin(claims[1..], seen + {k});
        forall j | 0 <= j < |rest| ensures rest[j].key != k {
          assert rest[j] in rest && rest[j].key in KeySet(rest);
        }
      }
    }
  }

  /** Nothing is missed: a non-empty normalised key is new or already seen. */
  lemma {:induction false} UniqueCovers(claims: seq<Claim>, seen: set<string>, c: Claim)
    requires c in claims && NormalKey(c.key) != ""
    ensures NormalKey(c.key) in seen + KeySet(UniqueFrom(claims, seen))
  {
    var k := NormalKey(claims[0].key);
    var skip := k == "" || k in seen;
    var rest := UniqueFrom(claims[1..], if skip then seen else seen + {k});
    if !skip {
      assert KeySet([Claim(k, claims[0].metric)] + rest) == {k} + KeySet(rest);
    }
    if c != claims[0] {
      UniqueCovers(claims[1..], if skip then seen else seen + {k}, c);
    }
  }

  // ---------------------------------------------------------------- the ledger operations

  function Count(cs: seq<Claim>, m: Metric): nat {
    if cs == [] then 0 else (if cs[0].metric == m then 1 else 0) + Count(cs[1..], m)
  }

  lemma {:induction false} CountAppend(xs: seq<Claim>, ys: seq<Claim>, m: Metric)
    ensures Count(xs + ys, m) == Count(xs, m) + Count(ys, m)
  {
    if xs == [] {
      assert xs + ys == ys;
    } else {
      assert (xs + ys)[1..] == xs[1..] + ys;
      CountAppend(xs[1..], ys, m);
    }
  }

  function AddUsage(used: Usage, cs: seq<Claim>): Usage {
    Usage(used.events + Count(cs, Events), used.sessions + Count(cs, Sessions),
          used.samples + Count(cs, JourneySamples), used.bundles + Count(cs, BundleGenerations))
  }

  lemma AddUsageAppend(used: Usage, xs: seq<Claim>, ys: seq<Claim>)
    ensures AddUsage(used, xs + ys) == AddUsage(AddUsage(used, xs), ys)
  {
    CountAppend(xs, ys, Events);
    CountAppend(xs, ys, Sessions);
    CountAppend(xs, ys, JourneySamples);
    CountAppend(xs, ys, BundleGenerations);
  }

  function Insert(keys: map<string, Metric>, cs: seq<Claim>): (r: map<string, Metric>)
    ensures r.Keys == keys.Keys + KeySet(cs)
    decreases |cs|
  {
    if cs == [] then keys
    else
      assert cs == [cs[0]] + cs[1..];
      Insert(keys[cs[0].key := cs[0].metric], cs[1..])
  }

  lemma {:induction false} InsertAppend(keys: map<string, Metric>, xs: seq<Claim>, ys: seq<Claim>)
    ensures Insert(keys, xs + ys) == Insert(Insert(keys, xs), ys)
    decreases |xs|
  {
    if xs == [] {
      assert xs + ys == ys;
    } else {
      assert (xs + ys)[1..] == xs[1..] + ys;
      InsertAppend(keys[xs[0].key := xs[0].metric], xs[1..], ys);
    }
  }

  /** The store's idempotent claim: all new keys are counted, or nothing changes. */
  function TryClaim(l: Ledger, claims: seq<Claim>, limits: Usage): ClaimResult {
    if UniqueFrom(claims, {}) == [] then Allowed(l, [])
    else
      var added := NewClaims(l.keys, claims);
      var projected := AddUsage(l.used, added);
      match projected.Exceeded(limits)
      case Some(m) => Denied(m, projected.At(m), limits.At(m))
      case None => Allowed(Ledger(Insert(l.keys, added), projected), KeySeq(added))
  }

  function KeysWith(keys: map<string, Metric>, m: Metric): set<string> {
    set k | k in keys && keys[k] == m
  }

  function Deleted(l: Ledger, names: set<string>, m: Metric): nat {
    |KeysWith(l.keys, m) * names|
  }

  /** Deleting keys gives back what was deleted; the store never lets a meter go negative. */
  function Release(l: Ledger, names: set<string>): Ledger {
    Ledger(l.keys - names,
           Usage(Max(0, l.used.events - Deleted(l, names, Events)),
                 Max(0, l.used.sessions - Deleted(l, names, Sessions)),
                 Max(0, l.used.samples - Deleted(l, names, JourneySamples)),
                 Max(0, l.used.bundles - Deleted(l, names, BundleGenerations))))
  }

  /** Each meter equals the number of live keys of its metric. */
  ghost predicate Consistent(l: Ledger) {
    forall m :: l.used.At(m) == |KeysWith(l.keys, m)|
  }

  /**
   A claim is allowed exactly when it names no usable key, or every meter has room for the new keys of its
   metric; a refusal names the first meter, in the store's order, that does not, and what it would have held.
   */
  lemma ClaimVerdict(l: Ledger, claims: seq<Claim>, limits: Usage)
    ensures var r := TryClaim(l, claims, limits);
            var added := UniqueFrom(claims, l.keys.Keys);
            && (r.Allowed? <==> UniqueFrom(claims, {}) == [] || forall m ::
                  l.used.At(m) + Count(added, m) <= limits.At(m))
            && (r.Denied? ==>
                  && r.observed == l.used.At(r.metric) + Count(added, r.metric)
                  && r.limit == limits.At(r.metric) < r.observed
                  && forall m | Earlier(m, r.metric) :: l.used.At(m) + Count(added, m) <= limits.At(m))
  {
    NewClaimsOnePass(l.keys, claims);
    var projected := AddUsage(l.used, UniqueFrom(claims, l.keys.Keys));
    assert forall m :: projected.At(m) == l.used.At(m) + Count(UniqueFrom(claims, l.keys.Keys), m);
    FirstExceeded(projected, limits);
  }

  /** The order in which the store looks at its meters. */
  predicate Earlier(m: Metric, n: Metric) {
    match n
    case Events => false
    case Sessions => m.Events?
    case JourneySamples => m.Events? || m.Sessions?
    case BundleGenerations => !m.BundleGenerations?
  }

  lemma FirstExceeded(used: Usage, limits: Usage)
    ensures used.Exceeded(limits).None? <==> forall m :: used.At(m) <= limits.At(m)
    ensures var e := used.Exceeded(limits);
            e.Some? ==> used.At(e.value) > limits.At(e.value)
                        && forall m | Earlier(m, e.value) :: used.At(m) <= limits.At(m)
  {
    if used.Exceeded(limits).Some? {
      var e := used.Exceeded(limits).value;
      assert used.At(e) > limits.At(e);
    } else {
      forall m ensures used.At(m) <= limits.At(m) {
        match m
        case Events =>
        case Sessions =>
        case JourneySamples =>
        case BundleGenerations =>
      }
    }
  }

  // ---------------------------------------------------------------- what the operations keep

  lemma NewKeyCount(keys: map<string, Metric>, c: Claim, m: Metric)
    requires c.key !in keys
    ensures |KeysWith(keys[c.key := c.metric], m)| == |KeysWith(keys, m)| + Count([c], m)
  {
    var one := if c.metric == m then {c.key} else {};
    assert KeysWith(keys[c.key := c.metric], m) == KeysWith(keys, m) + one;
    DisjointCard(KeysWith(keys, m), one);
  }

  lemma {:induction false} InsertCounts(keys: map<string, Metric>, claims: seq<Claim>, m: Metric)
    ensures var cs := UniqueFrom(claims, keys.Keys);
            |KeysWith(Insert(keys, cs), m)| == |KeysWith(keys, m)| + Count(cs, m)
    decreases |claims|
  {
    if claims != [] {
      var c := Claim(NormalKey(claims[0].key), claims[0].metric);
      if c.key == "" || c.key in keys {
        InsertCounts(keys, claims[1..], m);
      } else {
        var keys' := keys[c.key := c.metric];
        assert keys'.Keys == keys.Keys + {c.key};
        var rest := UniqueFrom(claims[1..], keys'.Keys);
        assert ([c] + rest)[1..] == rest;
        InsertCounts(keys', claims[1..], m);
        NewKeyCount(keys, c, m);
        CountAppend([c], rest, m);
      }
    }
  }

  lemma {:induction false} InsertKeepsOld(keys: map<string, Metric>, cs: seq<Claim>, k: string)
    requires k in keys && k !in KeySet(cs)
    ensures Insert(keys, cs)[k] == keys[k]
    decreases |cs|
  {
    if cs != [] {
      assert cs == [cs[0]] + cs[1..];
      InsertKeepsOld(keys[cs[0].key := cs[0].metric], cs[1..], k);
    }
  }

  lemma InsertUndone(keys: map<string, Metric>, cs: seq<Claim>)
    requires KeySet(cs) !! keys.Keys
    ensures Insert(keys, cs) - KeySet(cs) == keys
  {
    forall k | k in keys ensures Insert(keys, cs)[k] == keys[k] {
      InsertKeepsOld(keys, cs, k);
    }
  }

  /** An allowed claim keeps the meters equal to the keys and inside the limits it was given. */
  lemma ClaimKeepsConsistent(l: Ledger, claims: seq<Claim>, limits: Usage)
    requires Consistent(l)
    requires TryClaim(l, claims, limits).Allowed?
    ensures Consistent(TryClaim(l, claims, limits).ledger)
    ensures UniqueFrom(claims, {}) != [] ==> TryClaim(l, claims, limits).ledger.used.Within(limits)
  {
    NewClaimsOnePass(l.keys, claims);
    AddingKeepsConsistent(l, claims);
  }

  lemma AddingKeepsConsistent(l: Ledger, claims: seq<Claim>)
    requires Consistent(l)
    ensures var added := UniqueFrom(claims, l.keys.Keys);
            Consistent(Ledger(Insert(l.keys, added), AddUsage(l.used, added)))
  {
    var added := UniqueFrom(claims, l.keys.Keys);
    forall m ensures AddUsage(l.used, added).At(m) == |KeysWith(Insert(l.keys, added), m)| {
      assert l.used.At(m) == |KeysWith(l.keys, m)|;
      InsertCounts(l.keys, claims, m);
    }
  }

  lemma ClaimedKeys(l: Ledger, claims: seq<Claim>, limits: Usage)
    requires TryClaim(l, claims, limits).Allowed?
    ensures var r := TryClaim(l, claims, limits);
            && (set k | k in r.claimed) !! l.keys.Keys
            && r.ledger.keys.Keys == l.keys.Keys + (set k | k in r.claimed)
            && r.ledger.keys - (set k | k in r.claimed) == l.keys
  {
    NewClaimsOnePass(l.keys, claims);
    UniqueOrigin(claims, l.keys.Keys);
    InsertUndone(l.keys, NewClaims(l.keys, claims));
    if UniqueFrom(claims, {}) == [] {
      assert (set k | k in TryClaim(l, claims, limits).claimed) == {};
    } else {
      KeySeqSet(NewClaims(l.keys, claims));
    }
  }

  lemma KeySeqSet(cs: seq<Claim>)
    ensures (set k | k in KeySeq(cs)) == KeySet(cs)
  {
    forall c | c in cs ensures c.key in KeySeq(cs) {
      var i :| 0 <= i < |cs| && cs[i] == c;
      assert KeySeq(cs)[i] == c.key;
    }
  }

  lemma ReleaseKeepsConsistent(l: Ledger, names: set<string>)
    requires Consistent(l)
    ensures Consistent(Release(l, names))
    ensures forall m :: Release(l, names).used.At(m) == l.used.At(m) - Deleted(l, names, m)
  {
    forall m
      ensures Release(l, names).used.At(m) == |KeysWith(Release(l, names).keys, m)|
      ensures Release(l, names).used.At(m) == l.used.At(m) - Deleted(l, names, m)
    {
      assert l.used.At(m) == |KeysWith(l.keys, m)|;
      RemainingCount(l.keys, names, m);
    }
  }

  lemma RemainingCount(keys: map<string, Metric>, names: set<string>, m: Metric)
    ensures |KeysWith(keys - names, m)| == |KeysWith(keys, m)| - |KeysWith(keys, m) * names|
  {
    assert KeysWith(keys - names, m) == KeysWith(keys, m) - KeysWith(keys, m) * names;
    MinusCard(KeysWith(keys, m), KeysWith(keys, m) * names);
  }

  lemma ConsistentDetermined(a: Ledger, b: Ledger)
    requires Consistent(a) && Consistent(b) && a.keys == b.keys
    ensures a == b
  {
    assert forall m :: a.used.At(m) == |KeysWith(a.keys, m)| == b.used.At(m);
    assert a.used.At(Events) == b.used.At(Events) && a.used.At(Sessions) == b.used.At(Sessions);
    assert a.used.At(JourneySamples) == b.used.At(JourneySamples);
    assert a.used.At(BundleGenerations) == b.used.At(BundleGenerations);
  }

  /** Releasing exactly what a claim reported as newly claimed restores the ledger. */
  lemma ReleaseUndoesClaim(l: Ledger, claims: seq<Claim>, limits: Usage)
    requires Consistent(l)
    requires TryClaim(l, claims, limits).Allowed?
    ensures var r := TryClaim(l, claims, limits);
            Release(r.ledger, set k | k in r.claimed) == l
  {
    var r := TryClaim(l, claims, limits);
    ClaimKeepsConsistent(l, claims, limits);
    ClaimedKeys(l, claims, limits);
    ReleaseKeepsConsistent(r.ledger, set k | k in r.claimed);
    ConsistentDetermined(Release(r.ledger, set k | k in r.claimed), l);
  }

  /**
   One claim of two lists is the two claims made one after the other: it is allowed
   exactly when both are, counts the same keys and leaves the same ledger.
   */
  lemma ClaimSplits(l: Ledger, xs: seq<Claim>, ys: seq<Claim>, limits: Usage)
    ensures var whole, first := TryClaim(l, xs + ys, limits), TryClaim(l, xs, limits);
            && (whole.Allowed? <==> first.Allowed? && TryClaim(first.ledger, ys, limits).Allowed?)
            && (whole.Allowed? ==>
                  var second := TryClaim(first.ledger, ys, limits);
                  && whole.ledger == second.ledger
                  && whole.claimed == first.claimed + second.claimed)
  {
    UniqueAppend(xs, ys, {});
    if UniqueFrom(xs, {}) == [] {
      UnusablePrefix(l.keys, xs, ys);
    } else if UniqueFrom(ys, {}) == [] {
      UnusableSuffix(l.keys, xs, ys);
    } else {
      ClaimSplitsUsable(l, xs, ys, limits);
    }
  }

  lemma UnusablePrefix(keys: map<string, Metric>, xs: seq<Claim>, ys: seq<Claim>)
    requires UniqueFrom(xs, {}) == []
    ensures UniqueFrom(xs + ys, {}) == UniqueFrom(ys, {})
    ensures NewClaims(keys, xs + ys) == NewClaims(keys, ys)
  {
    UniqueAppend(xs, ys, {});
    assert {} + KeySet(UniqueFrom(xs, {})) == {};
  }

  lemma UnusableSuffix(keys: map<string, Metric>, xs: seq<Claim>, ys: seq<Claim>)
    requires UniqueFrom(ys, {}) == []
    ensures UniqueFrom(xs + ys, {}) == UniqueFrom(xs, {})
    ensures NewClaims(keys, xs + ys) == NewClaims(keys, xs)
  {
    UniqueAppend(xs, ys, {});
    EmptyNormalForm(ys, {} + KeySet(UniqueFrom(xs, {})));
  }

  lemma ClaimSplitsUsable(l: Ledger, xs: seq<Claim>, ys: seq<Claim>, limits: Usage)
    requires UniqueFrom(xs, {}) != [] && UniqueFrom(ys, {}) != [] && UniqueFrom(xs + ys, {}) != []
    ensures var whole, first := TryClaim(l, xs + ys, limits), TryClaim(l, xs, limits);
            && (whole.Allowed? <==> first.Allowed? && TryClaim(first.ledger, ys, limits).Allowed?)
            && (whole.Allowed? ==>
                  var second := TryClaim(first.ledger, ys, limits);
                  && whole.ledger == second.ledger
                  && whole.claimed == first.claimed + second.claimed)
  {
    NewClaimsSplit(l.keys, xs, ys);
    var ax := NewClaims(l.keys, xs);
    var ay := NewClaims(Insert(l.keys, ax), ys);
    AddUsageAppend(l.used, ax, ay);
    InsertAppend(l.keys, ax, ay);
    KeySeqAppend(ax, ay);
    ExceedingStays(AddUsage(l.used, ax), ay, limits);
  }

  lemma KeySeqAppend(ax: seq<Claim>, ay: seq<Claim>)
    ensures KeySeq(ax + ay) == KeySeq(ax) + KeySeq(ay)
  {
  }

  /** Within the limits at the end is within them throughout. */
  lemma ExceedingStays(used: Usage, more: seq<Claim>, limits: Usage)
    ensures AddUsage(used, more).Exceeded(limits).None? ==> used.Exceeded(limits).None?
  {
  }

  lemma NewClaimsSplit(keys: map<string, Metric>, xs: seq<Claim>, ys: seq<Claim>)
    ensures NewClaims(keys, xs + ys) == NewClaims(keys, xs) + NewClaims(Insert(keys, NewClaims(keys, xs)), ys)
  {
    UniqueAppend(xs, ys, keys.Keys);
    NewClaimsOnePass(keys, xs);
    NewClaimsOnePass(keys, xs + ys);
    NewClaimsOnePass(Insert(keys, NewClaims(keys, xs)), ys);
  }

  /** A list without a usable key adds nothing, whatever has been seen. */
  lemma {:induction false} EmptyNormalForm(claims: seq<Claim>, seen: set<string>)
    ensures UniqueFrom(claims, {}) == [] ==> UniqueFrom(claims, seen) == []
  {
    if UniqueFrom(claims, {}) == [] && UniqueFrom(claims, seen) != [] {
      UniqueOrigin(claims, seen);
      var c := UniqueFrom(claims, seen)[0];
      assert ComesFrom(c, claims);
      NonEmptyKeys(claims, seen);
      var r :| r in claims && c == Claim(NormalKey(r.key), r.metric);
      UniqueCovers(claims, {}, r);
      assert false;
    }
  }

  lemma {:induction false} NonEmptyKeys(claims: seq<Claim>, seen: set<string>)
    ensures forall c | c in UniqueFrom(claims, seen) :: c.key != ""
  {
    if claims != [] {
      var k := NormalKey(claims[0].key);
      NonEmptyKeys(claims[1..], if k == "" || k in seen then seen else seen + {k});
    }
  }
}
