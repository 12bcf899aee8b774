/**
 Administrative billing overrides and the metric ledger they feed.  An override sets an
 organization's plan and extra capacity in one transaction and records the differences under a key
 made of the organization and the instant; a key seen before records nothing.
 */
module OverrideLedger {
  import opened Prelude

  datatype Plan = Free | Solo | Team

  datatype Totals = Totals(upgraded: nat, downgraded: nat, purchased: int, reduced: int)

  /** `seen` are the instants whose override has recorded something for this organization. */
  datatype Account = Account(plan: Plan, units: int, totals: Totals, seen: set<string>)

  datatype Order = Order(plan: Plan, units: int, now: string)

  const MAX_EXTRA_UNITS := 99

  function Rank(plan: Plan): nat {
    match plan
    case Free => 0
    case Solo => 1
    case Team => 2
  }

  function Granted(order: Order): int {
    if order.plan.Free? then 0 else Min(order.units, MAX_EXTRA_UNITS)
  }

  /** Only differences that are not zero are deltas. */
  function Deltas(a: Account, order: Order): Totals {
    Totals(if Rank(order.plan) > Rank(a.plan) then 1 else 0,
           if Rank(order.plan) < Rank(a.plan) then 1 else 0,
           if Granted(order) > a.units then Granted(order) - a.units else 0,
           if Granted(order) < a.units then a.units - Granted(order) else 0)
  }

  predicate NoDeltas(d: Totals) {
    d == Totals(0, 0, 0, 0)
  }

  function Add(t: Totals, d: Totals): Totals {
    Totals(t.upgraded + d.upgraded, t.downgraded + d.downgraded, t.purchased + d.purchased, t.reduced + d.reduced)
  }

  /** An empty record is dropped before its key is stored. */
  function Recorded(a: Account, d: Totals, now: string): Account {
    if NoDeltas(d) || now in a.seen then a else a.(totals := Add(a.totals, d), seen := a.seen + {now})
  }

  function Override(a: Account, order: Order): Account {
    Recorded(a, Deltas(a, order), order.now).(plan := order.plan, units := Granted(order))
  }

  function Run(a: Account, orders: seq<Order>): Account {
    if orders == [] then a else Override(Run(a, orders[..|orders| - 1]), orders[|orders| - 1])
  }

  // ---------------------------------------------------------------- conservation

  function Net(t: Totals): int {
    t.purchased - t.reduced
  }

  /** The change of extra capacity that an override leaves unrecorded. */
  function Missed(a: Account, order: Order): int {
    if order.now in a.seen then Granted(order) - a.units else 0
  }

  function AllMissed(a: Account, orders: seq<Order>): int {
    if orders == [] then 0
    else
      var before := orders[..|orders| - 1];
      AllMissed(a, before) + Missed(Run(a, before), orders[|orders| - 1])
  }

  lemma NetAdd(t: Totals, d: Totals)
    ensures Net(Add(t, d)) == Net(t) + Net(d)
  {
  }

  lemma NetOfDeltas(a: Account, order: Order)
    ensures Net(Deltas(a, order)) == Granted(order) - a.units
  {
  }

  lemma RecordedNet(a: Account, d: Totals, now: string)
    ensures Net(Recorded(a, d, now).totals) == Net(a.totals) + if now in a.seen then 0 else Net(d)
  {
    NetAdd(a.totals, d);
  }

  lemma OverrideConserves(a: Account, order: Order)
    ensures Net(Override(a, order).totals) + Missed(a, order) == Net(a.totals) + Granted(order) - a.units
  {
    NetOfDeltas(a, order);
    RecordedNet(a, Deltas(a, order), order.now);
  }

  /**
   Over any run, the recorded purchases less the recorded reductions make up the change of extra
   capacity once what repeated keys left unrecorded is added.
   */
  lemma {:induction false} CapacityIsConserved(a: Account, orders: seq<Order>)
    ensures Net(Run(a, orders).totals) + AllMissed(a, orders) == Net(a.totals) + Run(a, orders).units - a.units
  {
    if orders != [] {
      var before := orders[..|orders| - 1];
      CapacityIsConserved(a, before);
      OverrideConserves(Run(a, before), orders[|orders| - 1]);
    }
  }

  /** The instants of the run differ from each other and from those recorded before it. */
  predicate Fresh(a: Account, orders: seq<Order>) {
    && (forall i | 0 <= i < |orders| :: orders[i].now !in a.seen)
    && (forall i, j | 0 <= i < j < |orders| :: orders[i].now != orders[j].now)
  }

  lemma {:induction false} SeenGrows(a: Account, orders: seq<Order>, now: string)
    ensures now in Run(a, orders).seen ==> now in a.seen || exists i :: 0 <= i < |orders| && orders[i].now == now
  {
    if orders != [] {
      var n := |orders| - 1;
      SeenGrows(a, orders[..n], now);
      if now in Run(a, orders[..n]).seen && now !in a.seen {
        var i :| 0 <= i < n && orders[..n][i].now == now;
        assert orders[i].now == now;
      }
      if now in Run(a, orders).seen && now !in Run(a, orders[..n]).seen {
        assert orders[n].now == now;
      }
    }
  }

  lemma {:induction false} FreshMissesNothing(a: Account, orders: seq<Order>)
    requires Fresh(a, orders)
    ensures AllMissed(a, orders) == 0
  {
    if orders != [] {
      var n := |orders| - 1;
      FreshMissesNothing(a, orders[..n]);
      SeenGrows(a, orders[..n], orders[n].now);
    }
  }

  /** With distinct instants nothing goes unrecorded: purchases less reductions are the whole change. */
  lemma DistinctInstantsConserve(a: Account, orders: seq<Order>)
    requires Fresh(a, orders)
    ensures Run(a, orders).totals.purchased - a.totals.purchased - (Run(a, orders).totals.reduced - a.totals.reduced)
         == Run(a, orders).units - a.units
  {
    CapacityIsConserved(a, orders);
    FreshMissesNothing(a, orders);
  }

  /** One override is fully recorded exactly when its instant is new or the extra capacity stays. */
  lemma OverrideRecordsIff(a: Account, order: Order)
    ensures Net(Override(a, order).totals) - Net(a.totals) == Override(a, order).units - a.units
        <==> (order.now !in a.seen || Granted(order) == a.units)
  {
  }

  /** Two overrides in the same instant: the second changes the capacity and is not recorded. */
  lemma SameInstantIsLost(a: Account, now: string)
    requires a.plan.Solo? && a.units == 0 && now !in a.seen
    ensures var first := Override(a, Order(Solo, 5, now));
            var second := Override(first, Order(Solo, 9, now));
            && first.totals.purchased == a.totals.purchased + 5
            && second.units == 9 && second.totals == first.totals
  {
    var first := Override(a, Order(Solo, 5, now));
    assert first.seen == a.seen + {now};
  }

  predicate Rises(from: Plan, to: Plan) {
    (from.Free? && !to.Free?) || (from.Solo? && to.Team?)
  }

  /**
   What one override does: the plan asked for; no extra units on the free plan and at most 99 on another;
   and, at a new instant, one upgrade or downgrade and the units gained or given up, each for itself.
   */
  lemma OverrideSets(a: Account, order: Order)
    ensures var o := Override(a, order);
            && o.plan == order.plan
            && o.units == (if order.plan.Free? then 0 else if order.units > 99 then 99 else order.units)
            && o.totals == if order.now in a.seen then a.totals else
                 Totals(a.totals.upgraded + (if Rises(a.plan, order.plan) then 1 else 0),
                        a.totals.downgraded + (if Rises(order.plan, a.plan) then 1 else 0),
                        a.totals.purchased + Max(0, o.units - a.units), a.totals.reduced + Max(0, a.units - o.units))
  {
  }

  /** An override that changes nothing leaves its instant free for one that does. */
  lemma EmptyOverrideKeepsKey(a: Account, order: Order, later: Order)
    requires order.plan == a.plan && Granted(order) == a.units && later.now == order.now && later.now !in a.seen
    ensures Override(Override(a, order), later) == Override(a, later)
  {
  }

  /** Repeating an override, at the same instant or another, changes and records nothing more. */
  lemma RepeatRecordsNothing(a: Account, order: Order, again: string)
    ensures Override(Override(a, order), order.(now := again)) == Override(a, order)
  {
  }

  // ---------------------------------------------------------------- plans

  lemma OverrideRank(a: Account, order: Order)
    requires order.now !in a.seen
    ensures var u := Override(a, order).totals.upgraded - a.totals.upgraded;
            var d := Override(a, order).totals.downgraded - a.totals.downgraded;
            u - 2 * d <= Rank(order.plan) - Rank(a.plan) <= 2 * u - d && 0 <= u && 0 <= d && u + d <= 1
  {
  }

  /**
   With distinct instants, the change of rank over a run lies between the upgrades less twice the
   downgrades and twice the upgrades less the downgrades.
   */
  lemma {:induction false} RankWithinMoves(a: Account, orders: seq<Order>)
    requires Fresh(a, orders)
    ensures var u := Run(a, orders).totals.upgraded - a.totals.upgraded;
            var d := Run(a, orders).totals.downgraded - a.totals.downgraded;
            u - 2 * d <= Rank(Run(a, orders).plan) - Rank(a.plan) <= 2 * u - d && u + d <= |orders|
  {
    if orders != [] {
      var n := |orders| - 1;
      RankWithinMoves(a, orders[..n]);
      SeenGrows(a, orders[..n], orders[n].now);
      OverrideRank(Run(a, orders[..n]), orders[n]);
    }
  }

  /** Both ends are met: free to team and back is one move each way. */
  lemma BoundsAreMet(a: Account, up: string, down: string)
    requires a.plan.Free? && a.units == 0 && up !in a.seen && down !in a.seen && up != down
    ensures var top := Override(a, Order(Team, 0, up));
            var end := Override(top, Order(Free, 0, down));
            && Rank(top.plan) - Rank(a.plan) == 2 * (top.totals.upgraded - a.totals.upgraded)
            && Rank(end.plan) - Rank(top.plan) == -2 * (end.totals.downgraded - top.totals.downgraded)
            && end.plan == a.plan && end.units == a.units
  {
  }

  predicate FreeHasNone(a: Account) {
    (a.plan.Free? ==> a.units == 0) && a.units <= MAX_EXTRA_UNITS
  }

  /** After any override the free plan has no extra units, and no plan more than ninety-nine. */
  lemma OverrideCaps(a: Account, order: Order)
    ensures FreeHasNone(Override(a, order))
    ensures order.units >= 0 ==> Override(a, order).units >= 0
  {
  }

  // ---------------------------------------------------------------- the transaction

  datatype Reply = Summary(plan: Plan, units: int) | NotFound | Threw

  /** The organization rows and the ledger, changed together or not at all. */
  class Store {
    const metered: bool
    var accounts: map<string, Account>

    constructor (metered: bool, accounts: map<string, Account>)
      ensures this.metered == metered && this.accounts == accounts
    {
      this.metered, this.accounts := metered, accounts;
    }

    /** `aborts` says that cleanup, audit or recording failed, which rolls everything back. */
    method OverrideOrganization(id: string, order: Order, aborts: bool) returns (r: Reply)
      modifies this
      ensures id !in old(accounts) || aborts ==> accounts == old(accounts) && !r.Summary?
      ensures r == NotFound <==> id !in old(accounts)
      ensures id in old(accounts) && !aborts ==>
                && accounts.Keys == old(accounts).Keys
                && r == Summary(accounts[id].plan, accounts[id].units)
                && FreeHasNone(accounts[id])
                && (forall o | o in accounts && o != id :: accounts[o] == old(accounts)[o])
                && (metered ==> accounts[id] == Override(old(accounts)[id], order))
                && (!metered ==> accounts[id] == old(accounts)[id].(plan := order.plan, units := Granted(order)))
    {
      if id !in accounts {
        return NotFound;
      }
      if aborts {
        return Threw;
      }
      var previous := accounts[id];
      var units := if order.plan == Free then 0 else Min(order.units, MAX_EXTRA_UNITS);
      var row := previous.(plan := order.plan, units := units);
      if metered {
        var deltas := Deltas(previous, order);
        if !NoDeltas(deltas) && order.now !in row.seen {
          row := row.(totals := Add(row.totals, deltas), seen := row.seen + {order.now});
        }
      }
      accounts := accounts[id := row];
      return Summary(row.plan, row.units);
    }
  }
}
