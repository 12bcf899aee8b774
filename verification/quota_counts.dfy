/**
 A release names its keys and also carries counts.  The counts are taken by filtering the
 claims as they were sent, so they count spellings: a key sent twice counts twice, and a key
 that normalisation changed does not count at all.  Only the keys are exact.
 */
module QuotaCounts {
  import opened Prelude
  import opened UsageLedger

  /** How many of the sent claims carry one of the named keys, for one metric. */
  function SentCount(claims: seq<Claim>, names: set<string>, m: Metric): nat {
    if claims == [] then 0
    else
      (if claims[0].key in names && claims[0].metric == m then 1 else 0) + SentCount(claims[1..], names, m)
  }

  lemma {:induction false} SentIsKept(claims: seq<Claim>, names: set<string>, m: Metric, keep: Claim -> bool)
    requires forall c :: keep(c) <==> c.key in names && c.metric == m
    ensures SentCount(claims, names, m) == |Filter(keep, claims)|
  {
    if claims != [] {
      SentIsKept(claims[1..], names, m, keep);
    }
  }

  /** It is the length of the claims as sent, filtered by name and metric. */
  lemma SentIsFiltered(claims: seq<Claim>, names: set<string>, m: Metric)
    ensures SentCount(claims, names, m) == |Filter((c: Claim) => c.key in names && c.metric == m, claims)|
  {
    SentIsKept(claims, names, m, (c: Claim) => c.key in names && c.metric == m);
  }

  /** By how much each new key was sent more often than it counts, summed over the new keys. */
  function Surplus(added: seq<Claim>, claims: seq<Claim>, m: Metric): int {
    if added == [] then 0
    else
      SentCount(claims, {added[0].key}, m) - (if added[0].metric == m then 1 else 0)
      + Surplus(added[1..], claims, m)
  }

  lemma {:induction false} SentCountSplit(claims: seq<Claim>, a: set<string>, b: set<string>, m: Metric)
    requires a !! b
    ensures SentCount(claims, a + b, m) == SentCount(claims, a, m) + SentCount(claims, b, m)
  {
    if claims != [] {
      SentCountSplit(claims[1..], a, b, m);
    }
  }

  lemma {:induction false} SentCountZero(claims: seq<Claim>, names: set<string>, m: Metric)
    ensures SentCount(claims, names, m) == 0 <==>
            forall c | c in claims :: c.key !in names || c.metric != m
  {
    if claims != [] {
      SentCountZero(claims[1..], names, m);
      assert claims == [claims[0]] + claims[1..];
    }
  }

  /** The count taken from the claims as sent is the number of new keys plus their surplus. */
  lemma {:induction false} SentVersusNew(added: seq<Claim>, claims: seq<Claim>, m: Metric)
    requires DistinctKeys(added)
    ensures SentCount(claims, KeySet(added), m) == Count(added, m) + Surplus(added, claims, m)
  {
    if added == [] {
      assert KeySet(added) == {};
      SentCountZero(claims, {}, m);
    } else {
      var rest := added[1..];
      SentVersusNew(rest, claims, m);
      assert added == [added[0]] + rest;
      assert KeySet(added) == {added[0].key} + KeySet(rest);
      assert added[0].key !in KeySet(rest);
      SentCountSplit(claims, {added[0].key}, KeySet(rest), m);
    }
  }

  /**
   What a release counts on a metric is what the claim added to the meter plus the surplus of the new
   keys, for claims of any spelling; so it is exact exactly when the surplus is zero.
   */
  lemma ReleaseCountsExact(l: Ledger, claims: seq<Claim>, limits: Usage, m: Metric)
    requires TryClaim(l, claims, limits).Allowed?
    ensures var r := TryClaim(l, claims, limits);
            var counted := SentCount(claims, (set k | k in r.claimed), m);
            var surplus := Surplus(UniqueFrom(claims, l.keys.Keys), claims, m);
            && counted == r.ledger.used.At(m) - l.used.At(m) + surplus
            && (counted == r.ledger.used.At(m) - l.used.At(m) <==> surplus == 0)
  {
    var added := NewClaims(l.keys, claims);
    NewClaimsOnePass(l.keys, claims);
    UniqueOrigin(claims, l.keys.Keys);
    SentVersusNew(added, claims, m);
    if UniqueFrom(claims, {}) == [] {
      assert added == [] && (set k | k in TryClaim(l, claims, limits).claimed) == {};
      SentCountZero(claims, {}, m);
    } else {
      KeySeqSet(added);
    }
  }

  // ---------------------------------------------------------------- keys in normal form

  /** Keys already in normal form, and one metric for each key. */
  ghost predicate Clean(claims: seq<Claim>) {
    && (forall c | c in claims :: c.key != "" && NormalKey(c.key) == c.key)
    && (forall c, d | c in claims && d in claims && c.key == d.key :: c.metric == d.metric)
  }

  lemma CleanSurplusOfOne(claims: seq<Claim>, c: Claim, m: Metric)
    requires Clean(claims) && ComesFrom(c, claims)
    ensures SentCount(claims, {c.key}, m) >= if c.metric == m then 1 else 0
    ensures c.metric != m ==> SentCount(claims, {c.key}, m) == 0
  {
    SentCountZero(claims, {c.key}, m);
  }

  lemma {:induction false} CleanSurplus(added: seq<Claim>, claims: seq<Claim>, m: Metric)
    requires Clean(claims)
    requires forall c | c in added :: ComesFrom(c, claims)
    ensures Surplus(added, claims, m) >= 0
    ensures Surplus(added, claims, m) == 0 <==>
            forall c | c in added && c.metric == m :: SentCount(claims, {c.key}, m) == 1
  {
    if added != [] {
      assert added == [added[0]] + added[1..];
      CleanSurplusOfOne(claims, added[0], m);
      CleanSurplus(added[1..], claims, m);
    }
  }

  /**
   With keys in normal form the counts never understate what was claimed, and are exact on a metric
   exactly when every new key of it was sent once.
   */
  lemma CleanCountsExactIff(l: Ledger, claims: seq<Claim>, limits: Usage, m: Metric)
    requires Clean(claims) && TryClaim(l, claims, limits).Allowed?
    ensures var r := TryClaim(l, claims, limits);
            var counted := SentCount(claims, (set k | k in r.claimed), m);
            && counted >= r.ledger.used.At(m) - l.used.At(m)
            && (counted == r.ledger.used.At(m) - l.used.At(m) <==>
                  forall c | c in UniqueFrom(claims, l.keys.Keys) && c.metric == m ::
                    SentCount(claims, {c.key}, m) == 1)
  {
    ReleaseCountsExact(l, claims, limits, m);
    var added := UniqueFrom(claims, l.keys.Keys);
    UniqueOrigin(claims, l.keys.Keys);
    CleanSurplus(added, claims, m);
  }

  /** A key that trimming changes is counted by the store and missed by the counts of the release. */
  lemma RespelledKeyIsMissed(l: Ledger, raw: string, m: Metric, limits: Usage)
    requires NormalKey(raw) != raw && NormalKey(raw) != "" && NormalKey(raw) !in l.keys
    requires TryClaim(l, [Claim(raw, m)], limits).Allowed?
    ensures var r := TryClaim(l, [Claim(raw, m)], limits);
            && r.ledger.used.At(m) == l.used.At(m) + 1
            && SentCount([Claim(raw, m)], (set k | k in r.claimed), m) == 0
  {
    var claims := [Claim(raw, m)];
    var added := [Claim(NormalKey(raw), m)];
    assert claims[1..] == [] && added[1..] == [];
    NewClaimsOnePass(l.keys, claims);
    assert UniqueFrom(claims, l.keys.Keys) == added && UniqueFrom(claims, {}) == added;
    ReleaseCountsExact(l, claims, limits, m);
    SentCountZero(claims, {NormalKey(raw)}, m);
  }
}
