/**
 The billing simulation: quotes, a scheduled plan change, capacity and checkout sessions, all
 drawing their identifiers from one counter.  Every request is one step.
 */
module BillingMock {
  import opened Prelude

  datatype Plan = Free | Solo | Team

  /** Identifiers are a fixed prefix and a number of the shared counter; others come from callers. */
  datatype Token =
    | PlanToken(n: nat)
    | QuoteToken(n: nat)
    | ScheduleId(n: nat)
    | SessionId(n: nat)
    | Foreign(text: string)

  datatype Quote = Quote(token: Token, expires: int, additional: int)

  datatype Change = Change(schedule: Token, additional: int)

  datatype Reduction = Reduction(additional: int, total: int)

  datatype State = State(sequence: nat, plan: Plan, additional: int, planQuote: Option<Quote>,
                         upgradeQuote: Option<Quote>, pendingPlan: Option<Change>,
                         pendingReduction: Option<Reduction>, trialStart: Option<int>, trialActive: bool,
                         checkouts: map<Token, Plan>)

  datatype CapacityOp = Increase | Reduce | OtherOp

  /** A payload that does not parse is `None`. */
  datatype Request =
    | GetBilling
    | GetPlanChange
    | PreviewPlan
    | ConfirmPlan(token: Option<Token>)
    | CancelPlan(schedule: Option<Token>)
    | PreviewUpgrade
    | Checkout(target: Option<Plan>, confirmation: Option<Token>)
    | StartTrial(target: Option<Plan>)
    | ConfirmCheckout(session: Option<Token>)
    | DropReduction
    | SetCapacity(op: CapacityOp, units: Option<int>)

  datatype Reply =
    | Billing
    | PendingChange(change: Option<Change>)
    | Quoted(quote: Quote, monthlyTotal: int)
    | Upgraded
    | CheckoutAt(session: Token)
    | Failed(status: int, code: string)
    | Unhandled

  datatype Outcome = Outcome(state: State, reply: Reply)

  const QUOTE_MS := 600_000
  const WAIT_MS := 604_800_000

  function Included(plan: Plan): int {
    match plan
    case Free => 1
    case Solo => 3
    case Team => 15
  }

  function Init(): State {
    State(100, Team, 1, None, None, None, None, None, false, map[])
  }

  /** The first purchase is open from seven days after the trial started. */
  predicate MayPurchase(trialStart: Option<int>, now: int) {
    trialStart.Some? && trialStart.value <= now && now >= trialStart.value + WAIT_MS
  }

  predicate QuoteStands(quote: Option<Quote>, token: Option<Token>, now: int, additional: int) {
    && quote.Some? && token == Some(quote.value.token)
    && now < quote.value.expires && quote.value.additional == additional
  }

  predicate IsPaid(target: Option<Plan>) {
    target.Some? && !target.value.Free?
  }

  function Refuse(s: State, status: int, code: string): Outcome {
    Outcome(s, Failed(status, code))
  }

  function AfterPreviewPlan(s: State, now: int): Outcome {
    if !s.plan.Team? || s.trialActive || s.pendingReduction.Some? || s.pendingPlan.Some? then
      Refuse(s, 409, "plan_change_not_allowed")
    else
      var q := Quote(PlanToken(s.sequence), now + QUOTE_MS, s.additional);
      Outcome(s.(sequence := s.sequence + 1, planQuote := Some(q)), Quoted(q, 499 + s.additional * 99))
  }

  function AfterConfirmPlan(s: State, token: Option<Token>, now: int): Outcome {
    if token.None? then Refuse(s, 400, "invalid_mock_payload")
    else if s.pendingPlan.Some? then Outcome(s, PendingChange(s.pendingPlan))
    else if !QuoteStands(s.planQuote, token, now, s.additional) || !s.plan.Team? || s.pendingReduction.Some? then
      Refuse(s, 409, "plan_change_confirmation_required")
    else
      var change := Some(Change(ScheduleId(s.sequence), s.additional));
      Outcome(s.(sequence := s.sequence + 1, pendingPlan := change), PendingChange(change))
  }

  function AfterCancelPlan(s: State, schedule: Option<Token>): Outcome {
    if schedule.None? then Refuse(s, 400, "invalid_mock_payload")
    else if s.pendingPlan.None? || s.pendingPlan.value.schedule != schedule.value then
      Refuse(s, 409, "plan_change_not_found")
    else Outcome(s.(pendingPlan := None, planQuote := None), PendingChange(None))
  }

  function AfterPreviewUpgrade(s: State, now: int): Outcome {
    if !s.plan.Solo? || s.trialActive || s.pendingReduction.Some? then Refuse(s, 409, "checkout_not_allowed")
    else
      var q := Quote(QuoteToken(s.sequence), now + QUOTE_MS, s.additional);
      Outcome(s.(sequence := s.sequence + 1, upgradeQuote := Some(q)), Quoted(q, 1900 + s.additional * 199))
  }

  function AfterCheckout(s: State, target: Option<Plan>, confirmation: Option<Token>, now: int): Outcome {
    if !IsPaid(target) then Refuse(s, 400, "invalid_mock_payload")
    else if s.trialActive && !MayPurchase(s.trialStart, now) then Refuse(s, 409, "paid_purchase_locked")
    else if s.plan.Solo? && !s.trialActive && target.value.Team? then
      if !QuoteStands(s.upgradeQuote, confirmation, now, s.additional) then
        Refuse(s, 409, "upgrade_confirmation_required")
      else Outcome(s.(plan := Team, upgradeQuote := None), Upgraded)
    else
      var id := SessionId(s.sequence);
      Outcome(s.(sequence := s.sequence + 1, checkouts := s.checkouts[id := target.value]), CheckoutAt(id))
  }

  /** A trial is dated from the creation of the simulation, not from the request. */
  function AfterStartTrial(s: State, target: Option<Plan>, created: int): Outcome {
    if !IsPaid(target) then Refuse(s, 400, "invalid_mock_payload")
    else Outcome(s.(plan := target.value, trialActive := true, trialStart := Some(created)), Billing)
  }

  function AfterConfirmCheckout(s: State, session: Option<Token>): Outcome {
    if session.None? then Refuse(s, 400, "invalid_mock_payload")
    else if session.value !in s.checkouts then Refuse(s, 404, "mock_record_not_found")
    else Outcome(s.(plan := s.checkouts[session.value], trialActive := false), Billing)
  }

  function AfterDropReduction(s: State): Outcome {
    if s.pendingPlan.Some? then Refuse(s, 409, "billing_change_in_progress")
    else Outcome(s.(pendingReduction := None), Billing)
  }

  function AfterSetCapacity(s: State, op: CapacityOp, units: Option<int>): Outcome {
    if s.pendingPlan.Some? then Refuse(s, 409, "billing_change_in_progress")
    else if units.None? || !(0 <= units.value <= 100) then Refuse(s, 400, "invalid_mock_payload")
    else
      match op
      case Increase => Outcome(s.(additional := units.value, pendingReduction := None), Billing)
      case Reduce =>
        var r := Reduction(units.value, Included(s.plan) + units.value);
        Outcome(s.(pendingReduction := Some(r)), Billing)
      case OtherOp => Outcome(s, Unhandled)
  }

  function Next(s: State, request: Request, now: int, created: int): Outcome {
    match request
    case GetBilling => Outcome(s, Billing)
    case GetPlanChange => Outcome(s, PendingChange(s.pendingPlan))
    case PreviewPlan => AfterPreviewPlan(s, now)
    case ConfirmPlan(token) => AfterConfirmPlan(s, token, now)
    case CancelPlan(schedule) => AfterCancelPlan(s, schedule)
    case PreviewUpgrade => AfterPreviewUpgrade(s, now)
    case Checkout(target, confirmation) => AfterCheckout(s, target, confirmation, now)
    case StartTrial(target) => AfterStartTrial(s, target, created)
    case ConfirmCheckout(session) => AfterConfirmCheckout(s, session)
    case DropReduction => AfterDropReduction(s)
    case SetCapacity(op, units) => AfterSetCapacity(s, op, units)
  }

  // ---------------------------------------------------------------- every reachable state

  predicate Minted(s: State, t: Token) {
    !t.Foreign? && t.n < s.sequence
  }

  /** Every session has a drawn number and leads to a paid plan. */
  predicate SessionsOk(checkouts: map<Token, Plan>, sequence: nat) {
    forall t | t in checkouts :: t.SessionId? && t.n < sequence && !checkouts[t].Free?
  }

  predicate Good(s: State) {
    && 0 <= s.additional <= 100
    && (s.pendingPlan.Some? ==> s.pendingReduction.None? && s.pendingPlan.value.additional == s.additional)
    && (s.pendingReduction.Some? ==> 0 <= s.pendingReduction.value.additional <= 100)
    && (s.planQuote.Some? ==> s.planQuote.value.token.PlanToken? && Minted(s, s.planQuote.value.token))
    && (s.upgradeQuote.Some? ==> s.upgradeQuote.value.token.QuoteToken? && Minted(s, s.upgradeQuote.value.token))
    && (s.pendingPlan.Some? ==> s.pendingPlan.value.schedule.ScheduleId? && Minted(s, s.pendingPlan.value.schedule))
    && SessionsOk(s.checkouts, s.sequence)
    && !s.plan.Free?
  }

  lemma PlanChangeKeepsGood(s: State, token: Option<Token>, now: int)
    requires Good(s)
    ensures Good(AfterPreviewPlan(s, now).state) && Good(AfterConfirmPlan(s, token, now).state)
    ensures Good(AfterCancelPlan(s, token).state) && Good(AfterPreviewUpgrade(s, now).state)
  {
  }

  lemma SessionAdded(checkouts: map<Token, Plan>, sequence: nat, plan: Plan)
    requires SessionsOk(checkouts, sequence) && !plan.Free?
    ensures SessionsOk(checkouts[SessionId(sequence) := plan], sequence + 1)
    ensures SessionId(sequence) !in checkouts
  {
  }

  lemma CheckoutKeepsGood(s: State, target: Option<Plan>, token: Option<Token>, now: int)
    requires Good(s)
    ensures Good(AfterCheckout(s, target, token, now).state)
  {
    if IsPaid(target) {
      SessionAdded(s.checkouts, s.sequence, target.value);
    }
  }

  lemma PlanSetKeepsGood(s: State, target: Option<Plan>, session: Option<Token>, created: int)
    requires Good(s)
    ensures Good(AfterStartTrial(s, target, created).state) && Good(AfterConfirmCheckout(s, session).state)
  {
  }

  lemma CapacityKeepsGood(s: State, op: CapacityOp, units: Option<int>)
    requires Good(s)
    ensures Good(AfterDropReduction(s).state) && Good(AfterSetCapacity(s, op, units).state)
  {
  }

  lemma StepKeepsGood(s: State, request: Request, now: int, created: int)
    requires Good(s)
    ensures Good(Next(s, request, now, created).state)
  {
    match request
    case GetBilling => assert Next(s, request, now, created).state == s;
    case GetPlanChange => assert Next(s, request, now, created).state == s;
    case PreviewPlan => PlanChangeKeepsGood(s, None, now);
    case ConfirmPlan(token) => PlanChangeKeepsGood(s, token, now);
    case CancelPlan(schedule) => PlanChangeKeepsGood(s, schedule, now);
    case PreviewUpgrade => PlanChangeKeepsGood(s, None, now);
    case Checkout(target, confirmation) => CheckoutKeepsGood(s, target, confirmation, now);
    case StartTrial(target) => PlanSetKeepsGood(s, target, None, created);
    case ConfirmCheckout(session) => PlanSetKeepsGood(s, None, session, created);
    case DropReduction => CapacityKeepsGood(s, OtherOp, None);
    case SetCapacity(op, units) => CapacityKeepsGood(s, op, units);
  }

  datatype Call = Call(request: Request, now: int)

  ghost predicate IsRun(states: seq<State>, calls: seq<Call>, created: int) {
    && |states| == |calls| + 1 && states[0] == Init()
    && forall i | 0 <= i < |calls| :: Follows(states[i], calls[i], states[i + 1], created)
  }

  predicate Follows(s: State, call: Call, s': State, created: int) {
    s' == Next(s, call.request, call.now, created).state
  }

  /**
   In every run: extra capacity stays within 0 and 100; a pending plan change excludes a pending
   reduction and records the capacity there is now; the plan is never the free one.
   */
  lemma {:induction false} RunIsGood(states: seq<State>, calls: seq<Call>, created: int, i: nat)
    requires IsRun(states, calls, created) && i < |states|
    ensures Good(states[i])
  {
    if i > 0 {
      RunIsGood(states, calls, created, i - 1);
      assert Follows(states[i - 1], calls[i - 1], states[i], created);
      StepKeepsGood(states[i - 1], calls[i - 1].request, calls[i - 1].now, created);
    }
  }

  // ---------------------------------------------------------------- tokens act once

  /** The call schedules a plan change or upgrades the plan on the strength of `t`. */
  predicate Brings(s: State, call: Call, t: Token, created: int) {
    var o := Next(s, call.request, call.now, created);
    || (call.request == ConfirmPlan(Some(t)) && s.pendingPlan.None? && o.state.pendingPlan.Some?)
    || (call.request.Checkout? && call.request.confirmation == Some(t) && o.reply.Upgraded?)
  }

  /** Nothing can be scheduled or upgraded with `t` any more. */
  predicate Spent(s: State, t: Token) {
    && Minted(s, t)
    && (s.planQuote.Some? && s.planQuote.value.token == t ==> s.pendingPlan.Some?)
    && !(s.upgradeQuote.Some? && s.upgradeQuote.value.token == t)
  }

  lemma SpentBringsNothing(s: State, call: Call, t: Token, created: int)
    requires Good(s) && Spent(s, t)
    ensures !Brings(s, call, t, created)
  {
  }

  /** A step keeps a quote, drops it or replaces it by one with a fresh number. */
  lemma PlanQuoteMoves(s: State, call: Call, created: int)
    ensures var s' := Next(s, call.request, call.now, created).state;
            && (|| s'.planQuote == s.planQuote || s'.planQuote.None?
                || (s'.planQuote.value.token == PlanToken(s.sequence) && s.pendingPlan.None?))
            && (s.pendingPlan.Some? ==> s'.pendingPlan.Some? || s'.planQuote.None?)
  {
  }

  lemma UpgradeQuoteMoves(s: State, call: Call, created: int)
    ensures var s' := Next(s, call.request, call.now, created).state;
            && s'.sequence >= s.sequence
            && (|| s'.upgradeQuote == s.upgradeQuote || s'.upgradeQuote.None?
                || s'.upgradeQuote.value.token == QuoteToken(s.sequence))
  {
  }

  lemma SpentStays(s: State, call: Call, t: Token, s': State, created: int)
    requires Spent(s, t) && Follows(s, call, s', created)
    ensures Spent(s', t)
  {
    PlanQuoteMoves(s, call, created);
    UpgradeQuoteMoves(s, call, created);
  }

  lemma BringingSpends(s: State, call: Call, t: Token, s': State, created: int)
    requires Good(s) && Brings(s, call, t, created) && Follows(s, call, s', created)
    ensures Spent(s', t)
  {
  }

  lemma {:induction false} SpentUntil(states: seq<State>, calls: seq<Call>, created: int, t: Token, i: nat, j: nat)
    requires IsRun(states, calls, created) && i < j <= |calls| && Brings(states[i], calls[i], t, created)
    ensures Spent(states[j], t)
    decreases j
  {
    var s := states[j - 1];
    assert Follows(s, calls[j - 1], states[j], created);
    if i < j - 1 {
      SpentUntil(states, calls, created, t, i, j - 1);
      SpentStays(s, calls[j - 1], t, states[j], created);
    } else {
      RunIsGood(states, calls, created, j - 1);
      BringingSpends(s, calls[j - 1], t, states[j], created);
    }
  }

  /** In every run each confirmation token schedules or upgrades at most once. */
  lemma TokenActsOnce(states: seq<State>, calls: seq<Call>, created: int, t: Token, i: nat, j: nat)
    requires IsRun(states, calls, created) && i < |calls| && j < |calls|
    requires Brings(states[i], calls[i], t, created) && Brings(states[j], calls[j], t, created)
    ensures i == j
  {
    RunIsGood(states, calls, created, i);
    RunIsGood(states, calls, created, j);
    if i < j {
      SpentUntil(states, calls, created, t, i, j);
      SpentBringsNothing(states[j], calls[j], t, created);
    } else if j < i {
      SpentUntil(states, calls, created, t, j, i);
      SpentBringsNothing(states[i], calls[i], t, created);
    }
  }

  predicate Offers(o: Outcome, quote: Quote) {
    o.reply.Quoted? && o.reply.quote == quote
  }

  /** The quote was offered by call `i`, at the capacity of that moment and for ten minutes. */
  predicate OfferedAt(states: seq<State>, calls: seq<Call>, created: int, i: nat, quote: Quote)
    requires |states| == |calls| + 1
  {
    && i < |calls| && Offers(Next(states[i], calls[i].request, calls[i].now, created), quote)
    && quote.additional == states[i].additional && quote.expires == calls[i].now + QUOTE_MS
  }

  /** A quote found after a step was there before it or is what the step offered. */
  lemma PlanQuoteIsNew(s: State, call: Call, s': State, created: int)
    requires Follows(s, call, s', created) && s'.planQuote.Some? && s'.planQuote != s.planQuote
    ensures Offers(Next(s, call.request, call.now, created), s'.planQuote.value)
    ensures s'.planQuote.value.additional == s.additional && s'.planQuote.value.expires == call.now + QUOTE_MS
  {
    match call.request
    case PreviewPlan =>
    case PreviewUpgrade =>
    case Checkout(_, _) =>
    case _ =>
  }

  lemma UpgradeQuoteIsNew(s: State, call: Call, s': State, created: int)
    requires Follows(s, call, s', created) && s'.upgradeQuote.Some? && s'.upgradeQuote != s.upgradeQuote
    ensures Offers(Next(s, call.request, call.now, created), s'.upgradeQuote.value)
    ensures s'.upgradeQuote.value.additional == s.additional && s'.upgradeQuote.value.expires == call.now + QUOTE_MS
  {
    match call.request
    case PreviewPlan =>
    case PreviewUpgrade =>
    case Checkout(_, _) =>
    case _ =>
  }

  lemma {:induction false} PlanQuoteWasOffered(states: seq<State>, calls: seq<Call>, created: int, j: nat)
    returns (i: nat)
    requires IsRun(states, calls, created) && j < |states| && states[j].planQuote.Some?
    ensures i < j && OfferedAt(states, calls, created, i, states[j].planQuote.value)
  {
    assert j > 0;
    i := j - 1;
    if states[i].planQuote == states[j].planQuote {
      i := PlanQuoteWasOffered(states, calls, created, j - 1);
    } else {
      PlanQuoteIsNew(states[i], calls[i], states[j], created);
    }
  }

  lemma {:induction false} UpgradeQuoteWasOffered(states: seq<State>, calls: seq<Call>, created: int, j: nat)
    returns (i: nat)
    requires IsRun(states, calls, created) && j < |states| && states[j].upgradeQuote.Some?
    ensures i < j && OfferedAt(states, calls, created, i, states[j].upgradeQuote.value)
  {
    assert j > 0;
    i := j - 1;
    if states[i].upgradeQuote == states[j].upgradeQuote {
      i := UpgradeQuoteWasOffered(states, calls, created, j - 1);
    } else {
      UpgradeQuoteIsNew(states[i], calls[i], states[j], created);
    }
  }

  /**
   A change is brought about only by a token offered earlier in the run, less than ten minutes ago,
   and only while the extra capacity is what it was when the offer was made.
   */
  lemma ChangeMatchesOffer(states: seq<State>, calls: seq<Call>, created: int, j: nat, t: Token)
    returns (i: nat)
    requires IsRun(states, calls, created) && j < |calls| && Brings(states[j], calls[j], t, created)
    ensures i < j && i < |calls|
    ensures Next(states[i], calls[i].request, calls[i].now, created).reply.Quoted?
    ensures Next(states[i], calls[i].request, calls[i].now, created).reply.quote.token == t
    ensures states[i].additional == states[j].additional
    ensures calls[j].now < calls[i].now + QUOTE_MS
    ensures calls[j].request.ConfirmPlan? ==> states[j].plan.Team? && states[j].pendingReduction.None?
    ensures calls[j].request.Checkout? ==> states[j].plan.Solo? && !states[j].trialActive
    ensures Next(states[j], calls[j].request, calls[j].now, created).state.plan.Team?
  {
    if calls[j].request.ConfirmPlan? {
      i := PlanQuoteWasOffered(states, calls, created, j);
    } else {
      i := UpgradeQuoteWasOffered(states, calls, created, j);
    }
  }

  // ---------------------------------------------------------------- offers are honoured

  /** An offer to move to solo is made exactly on a team plan without trial or pending change. */
  lemma PlanOfferIff(s: State, now: int, created: int)
    ensures var o := Next(s, PreviewPlan, now, created);
            && (o.reply.Quoted? <==> s.plan.Team? && !s.trialActive && s.pendingReduction.None? && s.pendingPlan.None?)
            && (o.reply.Quoted? ==> o.reply.monthlyTotal == 499 + 99 * s.additional)
            && (!o.reply.Quoted? ==> o == Outcome(s, Failed(409, "plan_change_not_allowed")))
  {
  }

  /** With nothing in between, its own token schedules the change for ten minutes, and no other does. */
  lemma PlanOfferHonoured(s: State, now: int, later: int, created: int, t: Token)
    requires Next(s, PreviewPlan, now, created).reply.Quoted?
    ensures var o := Next(s, PreviewPlan, now, created);
            var c := Next(o.state, ConfirmPlan(Some(t)), later, created);
            && (c.reply.PendingChange? <==> t == o.reply.quote.token && later < now + 600_000)
            && (c.reply.PendingChange? ==>
                  && c.state.pendingPlan.Some? && c.state.pendingPlan.value.additional == s.additional
                  && c.reply.change == c.state.pendingPlan
                  && c.state == o.state.(pendingPlan := c.state.pendingPlan, sequence := c.state.sequence))
            && (!c.reply.PendingChange? ==> c.state == o.state)
  {
  }

  /** An upgrade is offered exactly on a solo plan without trial or pending reduction. */
  lemma UpgradeOfferIff(s: State, now: int, created: int)
    ensures var o := Next(s, PreviewUpgrade, now, created);
            && (o.reply.Quoted? <==> s.plan.Solo? && !s.trialActive && s.pendingReduction.None?)
            && (o.reply.Quoted? ==> o.reply.monthlyTotal == 1900 + 199 * s.additional)
            && (!o.reply.Quoted? ==> o == Outcome(s, Failed(409, "checkout_not_allowed")))
  {
  }

  lemma UpgradeOfferHonoured(s: State, now: int, later: int, created: int, t: Token)
    requires Next(s, PreviewUpgrade, now, created).reply.Quoted?
    ensures var o := Next(s, PreviewUpgrade, now, created);
            var c := Next(o.state, Checkout(Some(Team), Some(t)), later, created);
            && (c.reply.Upgraded? <==> t == o.reply.quote.token && later < now + 600_000)
            && c.state == if c.reply.Upgraded? then o.state.(plan := Team, upgradeQuote := None) else o.state
  {
  }

  /**
   A checkout opens a session exactly for a paid plan, past the first seven days of a trial if one is
   active, and unless it is the upgrade of a plan already paid for.  The session leads to that plan.
   */
  lemma CheckoutOpensIff(s: State, target: Option<Plan>, token: Option<Token>, now: int, created: int)
    ensures var o := Next(s, Checkout(target, token), now, created);
            && (o.reply.CheckoutAt? <==>
                  && target.Some? && !target.value.Free?
                  && (s.trialActive ==> s.trialStart.Some? && s.trialStart.value + 604_800_000 <= now)
                  && !(s.plan.Solo? && !s.trialActive && target.value.Team?))
            && (o.reply.CheckoutAt? ==>
                  var c := Next(o.state, ConfirmCheckout(Some(o.reply.session)), now, created);
                  c == Outcome(o.state.(plan := target.value, trialActive := false), Billing))
  {
  }

  /** A trial takes effect at once and closes both offers until a checkout is confirmed. */
  lemma TrialClosesOffers(s: State, target: Plan, now: int, later: int, created: int)
    requires !target.Free?
    ensures var t := Next(s, StartTrial(Some(target)), now, created).state;
            && t == s.(plan := target, trialActive := true, trialStart := Some(created))
            && Next(t, PreviewPlan, later, created).reply.Failed?
            && Next(t, PreviewUpgrade, later, created).reply.Failed?
  {
  }

  /**
   Without a pending plan change, capacity between 0 and 100 can be set: an increase takes effect at once
   and drops a scheduled reduction, a reduction is only announced, with the total it leads to, and can be
   dropped again.
   */
  lemma CapacityRequests(s: State, n: int, now: int, created: int)
    ensures var up := Next(s, SetCapacity(Increase, Some(n)), now, created);
            var down := Next(s, SetCapacity(Reduce, Some(n)), now, created);
            && (up.reply.Billing? <==> s.pendingPlan.None? && 0 <= n <= 100)
            && (down.reply.Billing? <==> s.pendingPlan.None? && 0 <= n <= 100)
            && up.state == (if up.reply.Billing? then s.(additional := n, pendingReduction := None) else s)
            && (down.reply.Billing? ==>
                  && down.state.pendingReduction ==
                       Some(Reduction(n, n + match s.plan case Free => 1 case Solo => 3 case Team => 15))
                  && Next(down.state, DropReduction, now, created).state == s.(pendingReduction := None))
            && (!down.reply.Billing? ==> down.state == s)
  {
  }

  /** A payload that does not parse, or asks for no paid plan, is refused as such and changes nothing. */
  lemma BadPayloads(s: State, target: Option<Plan>, token: Option<Token>, now: int, created: int)
    ensures var bad := Outcome(s, Failed(400, "invalid_mock_payload"));
            && Next(s, ConfirmPlan(None), now, created) == bad && Next(s, CancelPlan(None), now, created) == bad
            && Next(s, ConfirmCheckout(None), now, created) == bad
            && (target.None? || target.value.Free? ==>
                  && Next(s, Checkout(target, token), now, created) == bad
                  && Next(s, StartTrial(target), now, created) == bad)
  {
  }

  /** While a plan change is pending every capacity request is refused without effect, whatever it asks for. */
  lemma PendingBlocksCapacity(s: State, op: CapacityOp, units: Option<int>, now: int, created: int)
    requires s.pendingPlan.Some?
    ensures Next(s, SetCapacity(op, units), now, created) == Outcome(s, Failed(409, "billing_change_in_progress"))
    ensures Next(s, DropReduction, now, created) == Outcome(s, Failed(409, "billing_change_in_progress"))
  {
  }

  // ---------------------------------------------------------------- confirming and cancelling

  /** While a change is pending, confirming again with any token reports it and changes nothing. */
  lemma ConfirmingAgainIsSafe(s: State, token: Token, now: int, later: int, again: Token)
    requires AfterConfirmPlan(s, Some(token), now).reply.PendingChange?
    ensures var o := AfterConfirmPlan(s, Some(token), now);
            AfterConfirmPlan(o.state, Some(again), later) == Outcome(o.state, o.reply)
  {
  }

  /** Cancelling a change just scheduled gives back every right the caller had, except the used quote. */
  lemma CancelUndoesConfirm(s: State, token: Token, now: int)
    requires s.pendingPlan.None? && AfterConfirmPlan(s, Some(token), now).reply.PendingChange?
    ensures var o := AfterConfirmPlan(s, Some(token), now);
            && o.reply.change.Some?
            && AfterCancelPlan(o.state, Some(o.reply.change.value.schedule)).state
            == s.(sequence := s.sequence + 1, planQuote := None)
  {
  }

  // ---------------------------------------------------------------- trials

  lemma {:induction false} TrialDatesFromCreation(states: seq<State>, calls: seq<Call>, created: int, i: nat)
    requires IsRun(states, calls, created) && i < |states|
    ensures states[i].trialActive ==> states[i].trialStart == Some(created)
  {
    if i > 0 {
      TrialDatesFromCreation(states, calls, created, i - 1);
      assert Follows(states[i - 1], calls[i - 1], states[i], created);
      TrialStep(states[i - 1], calls[i - 1], states[i], created);
    }
  }

  lemma TrialStep(s: State, call: Call, s': State, created: int)
    requires Follows(s, call, s', created)
    ensures s'.trialActive ==> s'.trialStart == Some(created) || (s.trialActive && s'.trialStart == s.trialStart)
  {
    match call.request
    case StartTrial(_) =>
    case ConfirmCheckout(_) =>
    case Checkout(target, confirmation) => CheckoutKeepsTrial(s, target, confirmation, call.now);
    case _ => assert s'.trialActive == s.trialActive && s'.trialStart == s.trialStart;
  }

  lemma CheckoutKeepsTrial(s: State, target: Option<Plan>, confirmation: Option<Token>, now: int)
    ensures var s' := AfterCheckout(s, target, confirmation, now).state;
            s'.trialActive == s.trialActive && s'.trialStart == s.trialStart
  {
  }

  /**
   During a trial a purchase is locked for exactly seven days from the creation of the simulation,
   whenever in the run the trial began.
   */
  lemma TrialLocksSevenDaysIff(
      states: seq<State>, calls: seq<Call>, created: int, i: nat, target: Plan, token: Option<Token>, now: int)
    requires IsRun(states, calls, created) && i < |states| && states[i].trialActive && !target.Free?
    ensures AfterCheckout(states[i], Some(target), token, now).reply == Failed(409, "paid_purchase_locked")
        <==> now < created + WAIT_MS
    ensures now >= created + WAIT_MS ==> AfterCheckout(states[i], Some(target), token, now).reply.CheckoutAt?
  {
    TrialDatesFromCreation(states, calls, created, i);
  }

  // ---------------------------------------------------------------- what does not hold

  /** The call puts the organization on the solo plan whatever is pending. */
  predicate ForcesSolo(s: State, request: Request) {
    || request == StartTrial(Some(Solo))
    || (request.ConfirmCheckout? && request.session.Some? && request.session.value in s.checkouts &&
        s.checkouts[request.session.value].Solo?)
  }

  /**
   A pending change of a team plan keeps the plan at team under exactly the calls that do not confirm
   a solo checkout or start a solo trial: those two never look at the pending change.
   */
  lemma PendingTeamKeptIff(s: State, request: Request, now: int, created: int)
    requires Good(s) && s.pendingPlan.Some? && s.plan.Team?
    ensures Next(s, request, now, created).state.plan.Team? <==> !ForcesSolo(s, request)
  {
  }

  /** A run that ends with a pending move from team to solo on a plan that is solo already. */
  lemma PendingOnSoloPlan() returns (states: seq<State>, calls: seq<Call>)
    ensures IsRun(states, calls, 0)
    ensures states[|states| - 1].pendingPlan.Some? && states[|states| - 1].plan.Solo?
  {
    calls := [Call(PreviewPlan, 0), Call(ConfirmPlan(Some(PlanToken(100))), 1),
              Call(Checkout(Some(Solo), None), 2), Call(ConfirmCheckout(Some(SessionId(102))), 3)];
    var s1 := Next(Init(), calls[0].request, 0, 0).state;
    var s2 := Next(s1, calls[1].request, 1, 0).state;
    var s3 := Next(s2, calls[2].request, 2, 0).state;
    var s4 := Next(s3, calls[3].request, 3, 0).state;
    states := [Init(), s1, s2, s3, s4];
    assert s2.pendingPlan.Some?;
    assert s3.checkouts == map[SessionId(102) := Solo];
    assert Follows(Init(), calls[0], s1, 0) && Follows(s1, calls[1], s2, 0);
    assert Follows(s2, calls[2], s3, 0) && Follows(s3, calls[3], s4, 0);
  }

  lemma OnlyCheckoutAdds(s: State, call: Call, s': State, created: int)
    requires Follows(s, call, s', created)
    ensures || s'.checkouts == s.checkouts
            || (call.request.Checkout? && call.request.target.Some? &&
                s'.checkouts == s.checkouts[SessionId(s.sequence) := call.request.target.value])
  {
  }

  lemma SessionsGrow(s: State, call: Call, s': State, created: int, id: Token)
    requires Good(s) && Follows(s, call, s', created) && id in s.checkouts
    ensures id in s'.checkouts && s'.checkouts[id] == s.checkouts[id]
  {
    OnlyCheckoutAdds(s, call, s', created);
  }

  lemma {:induction false} SessionStays(states: seq<State>, calls: seq<Call>, created: int, id: Token, i: nat, j: nat)
    requires IsRun(states, calls, created) && i <= j < |states| && id in states[i].checkouts
    ensures id in states[j].checkouts && states[j].checkouts[id] == states[i].checkouts[id]
    decreases j
  {
    if i < j {
      SessionStays(states, calls, created, id, i, j - 1);
      RunIsGood(states, calls, created, j - 1);
      SessionsGrow(states[j - 1], calls[j - 1], states[j], created, id);
    }
  }

  /**
   Checkout sessions, unlike confirmation tokens, are never used up: at every later point of the run
   confirming one sets the plan it was opened for, however often it was confirmed before.
   */
  lemma SessionWorksForever(states: seq<State>, calls: seq<Call>, created: int, id: Token, i: nat, j: nat, now: int)
    requires IsRun(states, calls, created) && i <= j < |states| && id in states[i].checkouts
    ensures Next(states[j], ConfirmCheckout(Some(id)), now, created).state.plan == states[i].checkouts[id]
    ensures !Next(states[j], ConfirmCheckout(Some(id)), now, created).state.trialActive
  {
    SessionStays(states, calls, created, id, i, j);
  }

  predicate TotalFits(s: State) {
    s.pendingReduction.Some? ==>
      s.pendingReduction.value.total == Included(s.plan) + s.pendingReduction.value.additional
  }

  /** The announced total of a scheduled reduction stays right exactly while the plan does. */
  lemma ReductionTotalFitsIff(s: State, request: Request, now: int, created: int)
    requires Good(s) && TotalFits(s)
    requires s.pendingReduction.Some? && Next(s, request, now, created).state.pendingReduction == s.pendingReduction
    ensures TotalFits(Next(s, request, now, created).state) <==> Next(s, request, now, created).state.plan == s.plan
  {
  }

  // ---------------------------------------------------------------- the simulation itself

  /** The state the handler closes over, updated in place by each route. */
  class Simulation {
    const created: int
    var sequence: nat
    var plan: Plan
    var additional: int
    var planQuote: Option<Quote>
    var upgradeQuote: Option<Quote>
    var pendingPlan: Option<Change>
    var pendingReduction: Option<Reduction>
    var trialStart: Option<int>
    var trialActive: bool
    var checkouts: map<Token, Plan>

    function View(): State
      reads this
    {
      State(sequence, plan, additional, planQuote, upgradeQuote, pendingPlan, pendingReduction, trialStart,
            trialActive, checkouts)
    }

    constructor (created: int)
      ensures View() == Init() && this.created == created && Good(View())
    {
      this.created := created;
      sequence, plan, additional := 100, Team, 1;
      planQuote, upgradeQuote, pendingPlan, pendingReduction := None, None, None, None;
      trialStart, trialActive, checkouts := None, false, map[];
    }

    /** Draws the next number of the shared counter. */
    method Draw() returns (n: nat)
      modifies this`sequence
      ensures n == old(sequence) && sequence == n + 1
    {
      n := sequence;
      sequence := sequence + 1;
    }

    method OfferPlanChange(now: int) returns (reply: Reply)
      requires Good(View())
      modifies this
      ensures Outcome(View(), reply) == Next(old(View()), PreviewPlan, now, created) && Good(View())
      ensures reply.Quoted? ==> planQuote == Some(reply.quote) && !Minted(old(View()), reply.quote.token)
    {
      if plan != Team || trialActive || pendingReduction.Some? || pendingPlan.Some? {
        return Failed(409, "plan_change_not_allowed");
      }
      var n := Draw();
      var quote := Quote(PlanToken(n), now + QUOTE_MS, additional);
      planQuote := Some(quote);
      return Quoted(quote, 499 + additional * 99);
    }

    method Confirm(token: Token, now: int) returns (reply: Reply)
      requires Good(View())
      modifies this
      ensures Outcome(View(), reply) == Next(old(View()), ConfirmPlan(Some(token)), now, created) && Good(View())
      ensures reply.PendingChange? ==> pendingPlan.Some? && pendingReduction.None?
      ensures additional == old(additional) && plan == old(plan)
    {
      if pendingPlan.Some? {
        return PendingChange(pendingPlan);
      }
      if planQuote.None? || planQuote.value.token != token || planQuote.value.expires <= now
        || planQuote.value.additional != additional || plan != Team || pendingReduction.Some?
      {
        return Failed(409, "plan_change_confirmation_required");
      }
      var n := Draw();
      pendingPlan := Some(Change(ScheduleId(n), additional));
      return PendingChange(pendingPlan);
    }

    method Cancel(schedule: Token) returns (reply: Reply)
      requires Good(View())
      modifies this
      ensures Outcome(View(), reply) == Next(old(View()), CancelPlan(Some(schedule)), 0, created) && Good(View())
      ensures reply == PendingChange(None) ==> planQuote.None? && pendingPlan.None?
    {
      if pendingPlan.None? || pendingPlan.value.schedule != schedule {
        return Failed(409, "plan_change_not_found");
      }
      pendingPlan := None;
      planQuote := None;
      return PendingChange(None);
    }

    method OfferUpgrade(now: int) returns (reply: Reply)
      requires Good(View())
      modifies this
      ensures Outcome(View(), reply) == Next(old(View()), PreviewUpgrade, now, created) && Good(View())
      ensures reply.Quoted? ==> upgradeQuote == Some(reply.quote) && !Minted(old(View()), reply.quote.token)
    {
      if plan != Solo || trialActive || pendingReduction.Some? {
        return Failed(409, "checkout_not_allowed");
      }
      var n := Draw();
      var quote := Quote(QuoteToken(n), now + QUOTE_MS, additional);
      upgradeQuote := Some(quote);
      return Quoted(quote, 1900 + additional * 199);
    }

    method StartCheckout(target: Plan, confirmation: Option<Token>, now: int) returns (reply: Reply)
      requires Good(View()) && target != Free
      modifies this
      ensures Outcome(View(), reply) == Next(old(View()), Checkout(Some(target), confirmation), now, created)
      ensures Good(View())
      ensures plan != old(plan) ==> reply.Upgraded? && target == Team && upgradeQuote.None?
    {
      CheckoutKeepsGood(View(), Some(target), confirmation, now);
      if trialActive && !MayPurchase(trialStart, now) {
        return Failed(409, "paid_purchase_locked");
      }
      if plan == Solo && !trialActive && target == Team {
        reply := Upgrade(confirmation, now);
        return;
      }
      var n := Draw();
      checkouts := checkouts[SessionId(n) := target];
      return CheckoutAt(SessionId(n));
    }

    /** A plan already paid for moves up on a confirmed quote, which is used up. */
    method Upgrade(confirmation: Option<Token>, now: int) returns (reply: Reply)
      modifies this`plan, this`upgradeQuote
      ensures if QuoteStands(old(upgradeQuote), confirmation, now, additional)
              then plan == Team && upgradeQuote == None && reply == Upgraded
              else View() == old(View()) && reply == Failed(409, "upgrade_confirmation_required")
    {
      if upgradeQuote.None? || confirmation != Some(upgradeQuote.value.token) || now >= upgradeQuote.value.expires
        || additional != upgradeQuote.value.additional
      {
        return Failed(409, "upgrade_confirmation_required");
      }
      plan := Team;
      upgradeQuote := None;
      return Upgraded;
    }

    method FinishCheckout(session: Token) returns (reply: Reply)
      requires Good(View())
      modifies this
      ensures Outcome(View(), reply) == Next(old(View()), ConfirmCheckout(Some(session)), 0, created) && Good(View())
    {
      if session !in checkouts {
        return Failed(404, "mock_record_not_found");
      }
      plan := checkouts[session];
      trialActive := false;
      return Billing;
    }

    method SetUnits(op: CapacityOp, units: int) returns (reply: Reply)
      requires Good(View())
      modifies this
      ensures Outcome(View(), reply) == Next(old(View()), SetCapacity(op, Some(units)), 0, created) && Good(View())
      ensures pendingPlan.Some? ==> View() == old(View())
    {
      if pendingPlan.Some? {
        return Failed(409, "billing_change_in_progress");
      }
      if units < 0 || 100 < units {
        return Failed(400, "invalid_mock_payload");
      }
      match op {
        case Increase =>
          additional := units;
          pendingReduction := None;
        case Reduce => pendingReduction := Some(Reduction(units, Included(plan) + units));
        case OtherOp => return Unhandled;
      }
      return Billing;
    }
  }
}
