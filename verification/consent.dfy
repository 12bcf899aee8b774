/**
 Completing a consent interaction: the prior grant is revoked, a provider grant saved, a stored
 grant created, and the new grant revoked again if the interaction cannot be finished.  Every call
 to a store or the provider may fail, before or after its effect.
 */
module Consent {
  import opened Prelude

  datatype Grant = Grant(provider: nat, user: string, organization: string, scopes: set<string>, active: bool)

  /** `provider` holds the product scopes of the saved provider grants, in order. */
  datatype State = State(grants: map<nat, Grant>, provider: map<nat, seq<string>>, nextGrant: nat, nextProvider: nat)

  datatype Interaction = Interaction(uid: string, productScopes: seq<string>, account: Option<string>,
                                     prior: Option<nat>)

  datatype Session = Session(user: string, organization: string, verified: bool)

  datatype Request = Request(id: string, session: Option<Session>, allow: bool, scopes: seq<string>)

  datatype Lookup = Named | Unnamed | LookupFails

  datatype Write = Lands | FailsBefore | FailsAfter

  datatype Finish = GoodUrl | BadUrl | FinishFails

  /** How the provider and the stores answer one call. */
  datatype Answers = Answers(interaction: Option<Interaction>, organization: Lookup, revokePrior: Write, save: Write,
                             create: Write, finish: Finish, compensate: Write)

  datatype Error =
    | InteractionInvalid
    | SessionInvalid
    | SessionMismatch
    | OrganizationUnavailable
    | ScopesInvalid
    | CallFailed

  datatype Outcome = Outcome(state: State, result: Result<Finish, Error>)

  const OIDC_SCOPES: seq<string> := ["openid", "email"]

  // ---------------------------------------------------------------- scopes

  predicate AllIn(xs: seq<string>, ys: seq<string>) {
    forall i | 0 <= i < |xs| :: xs[i] in ys
  }

  function Chosen(requested: seq<string>, selected: seq<string>): Option<seq<string>> {
    if NoRepeats(selected) && AllIn(selected, requested) then Some(Filter(x => x in selected, requested)) else None
  }

  lemma {:induction false} FilterKeepsDistinct(keep: string -> bool, xs: seq<string>)
    requires NoRepeats(xs)
    ensures NoRepeats(Filter(keep, xs))
  {
    if xs != [] {
      var rest := Filter(keep, xs[1..]);
      FilterKeepsDistinct(keep, xs[1..]);
      forall k | 0 <= k < |rest| ensures rest[k] != xs[0] {
        FilterMember(keep, xs[1..], rest[k]);
        assert rest[k] in xs[1..];
      }
    }
  }

  /** Where the `k`-th kept element stood. */
  lemma {:induction false} FilterPosition(keep: string -> bool, xs: seq<string>, k: nat, m: nat)
    returns (i: nat, j: nat)
    requires k < m < |Filter(keep, xs)|
    ensures i < j < |xs| && xs[i] == Filter(keep, xs)[k] && xs[j] == Filter(keep, xs)[m]
  {
    var rest := Filter(keep, xs[1..]);
    if !keep(xs[0]) {
      i, j := FilterPosition(keep, xs[1..], k, m);
      i, j := i + 1, j + 1;
    } else if k == 0 {
      assert Filter(keep, xs)[m] == rest[m - 1] && rest[m - 1] in rest;
      FilterMember(keep, xs[1..], rest[m - 1]);
      var n :| 0 <= n < |xs[1..]| && xs[1..][n] == rest[m - 1];
      i, j := 0, n + 1;
    } else {
      i, j := FilterPosition(keep, xs[1..], k - 1, m - 1);
      i, j := i + 1, j + 1;
    }
  }

  /**
   A selection is accepted exactly when it repeats nothing and asks for nothing that was not requested;
   then the result holds the selected scopes, no others.
   */
  lemma ChosenIsSelection(requested: seq<string>, selected: seq<string>, scope: string)
    ensures Chosen(requested, selected).Some? <==>
              |selected| == |Elements(selected)| && forall s | s in selected :: s in requested
    ensures Chosen(requested, selected).Some? ==> (scope in Chosen(requested, selected).value <==> scope in selected)
  {
    DistinctIffSetSize(selected);
    FilterMember(x => x in selected, requested, scope);
    assert AllIn(selected, requested) <==> forall s | s in selected :: s in requested;
  }

  function Elements(xs: seq<string>): set<string> {
    set x | x in xs
  }

  lemma PrependDistinct(x: string, xs: seq<string>)
    ensures NoRepeats([x] + xs) <==> NoRepeats(xs) && x !in xs
    ensures Elements([x] + xs) == Elements(xs) + {x}
  {
    var all := [x] + xs;
    if NoRepeats(all) {
      forall i, j | 0 <= i < j < |xs| ensures xs[i] != xs[j] {
        assert all[i + 1] != all[j + 1];
      }
      forall i | 0 <= i < |xs| ensures xs[i] != x {
        assert all[0] != all[i + 1];
      }
    }
  }

  lemma {:induction false} DistinctIffSetSize(xs: seq<string>)
    ensures NoRepeats(xs) <==> |xs| == |Elements(xs)|
    ensures |Elements(xs)| <= |xs|
  {
    if xs == [] {
      assert Elements(xs) == {};
    } else {
      DistinctIffSetSize(xs[1..]);
      PrependDistinct(xs[0], xs[1..]);
      assert xs == [xs[0]] + xs[1..];
      assert xs[0] in xs[1..] ==> Elements(xs) == Elements(xs[1..]);
    }
  }

  /** Accepted scopes keep the order of the request, and repeat nothing if the request does not. */
  lemma ChosenKeepsOrder(requested: seq<string>, selected: seq<string>, k: nat, m: nat) returns (i: nat, j: nat)
    requires Chosen(requested, selected).Some? && k < m < |Chosen(requested, selected).value|
    ensures var chosen := Chosen(requested, selected).value;
            i < j < |requested| && requested[i] == chosen[k] && requested[j] == chosen[m]
    ensures NoRepeats(requested) ==> NoRepeats(Chosen(requested, selected).value)
  {
    i, j := FilterPosition(x => x in selected, requested, k, m);
    if NoRepeats(requested) {
      FilterKeepsDistinct(x => x in selected, requested);
    }
  }

  // ---------------------------------------------------------------- the steps

  /** Revoking a provider grant deactivates every stored grant made for it. */
  function Without(grants: map<nat, Grant>, provider: nat): map<nat, Grant> {
    map g | g in grants :: if grants[g].provider == provider then grants[g].(active := false) else grants[g]
  }

  /** The store refuses scopes that repeat or are not known to it, and keeps them as a set. */
  predicate Storable(scopes: seq<string>, known: set<string>) {
    NoRepeats(scopes) && forall s | s in scopes :: s in known
  }

  /** Everything that is checked before anything is written. */
  function Admitted(env: Answers, request: Request): Result<seq<string>, Error> {
    if env.interaction.None? then Err(CallFailed)
    else if env.interaction.value.uid != request.id then Err(InteractionInvalid)
    else if !request.allow then Ok([])
    else if request.session.None? || !request.session.value.verified then Err(SessionInvalid)
    else if env.interaction.value.account.Some? && env.interaction.value.account.value != request.session.value.user
      then Err(SessionMismatch)
    else if env.organization.LookupFails? then Err(CallFailed)
    else if env.organization.Unnamed? then Err(OrganizationUnavailable)
    else
      match Chosen(env.interaction.value.productScopes, request.scopes)
      case Some(scopes) => Ok(scopes)
      case None => Err(ScopesInvalid)
  }

  function AfterRevoke(s: State, prior: Option<nat>, w: Write): State {
    if prior.Some? && !w.FailsBefore? then s.(grants := Without(s.grants, prior.value)) else s
  }

  function AfterSave(s: State, scopes: seq<string>, w: Write): State {
    if w.FailsBefore? then s
    else s.(provider := s.provider[s.nextProvider := scopes], nextProvider := s.nextProvider + 1)
  }

  function AfterCreate(s: State, grant: Grant, w: Write): State {
    if w.FailsBefore? then s
    else s.(grants := s.grants[s.nextGrant := grant], nextGrant := s.nextGrant + 1)
  }

  function AfterCompensation(s: State, id: nat, w: Write): State {
    if id in s.grants && !w.FailsBefore? then s.(grants := s.grants[id := s.grants[id].(active := false)]) else s
  }

  function NewGrant(provider: nat, session: Session, scopes: seq<string>): Grant {
    Grant(provider, session.user, session.organization, set s | s in OIDC_SCOPES + scopes, true)
  }

  /** From the created grant to the reply. */
  function Finishing(s: State, id: nat, env: Answers): Outcome {
    if env.finish.GoodUrl? then Outcome(s, Ok(GoodUrl))
    else Outcome(AfterCompensation(s, id, env.compensate), Err(CallFailed))
  }

  function Creating(s: State, provider: nat, env: Answers, session: Session, scopes: seq<string>, known: set<string>):
    Outcome
  {
    if !Storable(OIDC_SCOPES + scopes, known) then Outcome(s, Err(ScopesInvalid))
    else
      var s1 := AfterCreate(s, NewGrant(provider, session, scopes), env.create);
      if env.create.Lands? then Finishing(s1, s.nextGrant, env) else Outcome(s1, Err(CallFailed))
  }

  function Allowing(s: State, env: Answers, session: Session, prior: Option<nat>, scopes: seq<string>,
                    known: set<string>): Outcome
  {
    var s1 := AfterRevoke(s, prior, env.revokePrior);
    if prior.Some? && !env.revokePrior.Lands? then Outcome(s1, Err(CallFailed))
    else
      var s2 := AfterSave(s1, scopes, env.save);
      if env.save.Lands? then Creating(s2, s1.nextProvider, env, session, scopes, known)
      else Outcome(s2, Err(CallFailed))
  }

  function Complete(s: State, env: Answers, request: Request, known: set<string>): Outcome {
    match Admitted(env, request)
    case Err(e) => Outcome(s, Err(e))
    case Ok(scopes) =>
      if !request.allow then Outcome(s, if env.finish.GoodUrl? then Ok(GoodUrl) else Err(CallFailed))
      else Allowing(s, env, request.session.value, env.interaction.value.prior, scopes, known)
  }

  // ---------------------------------------------------------------- which calls succeed

  /** The interaction is the one that was asked for. */
  predicate Matches(env: Answers, request: Request) {
    env.interaction.Some? && env.interaction.value.uid == request.id
  }

  /** A verified session of the account, if any, that the interaction was begun with. */
  predicate SessionFits(interaction: Interaction, session: Option<Session>) {
    && session.Some? && session.value.verified
    && (interaction.account == None || interaction.account == Some(session.value.user))
  }

  /** The selection, in the order of the request. */
  function Selected(interaction: Interaction, request: Request): seq<string> {
    Filter(x => x in request.scopes, interaction.productScopes)
  }

  predicate SelectionFits(interaction: Interaction, request: Request) {
    NoRepeats(request.scopes) && forall x | x in request.scopes :: x in interaction.productScopes
  }

  /** The store knows the scopes of the new grant and none is repeated. */
  predicate StoreTakes(scopes: seq<string>, known: set<string>) {
    && NoRepeats(["openid", "email"] + scopes)
    && "openid" in known && "email" in known && forall x | x in scopes :: x in known
  }

  predicate AllLands(env: Answers, prior: Option<nat>) {
    (prior.Some? ==> env.revokePrior.Lands?) && env.save.Lands? && env.create.Lands? && env.finish.GoodUrl?
  }

  lemma ChosenIsSelected(interaction: Interaction, request: Request)
    ensures Chosen(interaction.productScopes, request.scopes) ==
              if SelectionFits(interaction, request) then Some(Selected(interaction, request)) else None
  {
  }

  lemma StoreTakesIff(scopes: seq<string>, known: set<string>)
    ensures Storable(OIDC_SCOPES + scopes, known) <==> StoreTakes(scopes, known)
  {
    var all := ["openid", "email"] + scopes;
    assert all[0] == "openid" && all[1] == "email";
    forall x | x in scopes ensures x in all {
    }
  }

  /**
   An allowing call succeeds exactly when the interaction matches, the session fits it, the organization
   is named, the selection was requested, the store takes the scopes, and every call lands.
   */
  lemma AllowSucceedsIff(s: State, env: Answers, request: Request, known: set<string>)
    requires request.allow
    ensures Complete(s, env, request, known).result.Ok? <==>
              && Matches(env, request) && SessionFits(env.interaction.value, request.session)
              && env.organization.Named? && SelectionFits(env.interaction.value, request)
              && StoreTakes(Selected(env.interaction.value, request), known)
              && AllLands(env, env.interaction.value.prior)
  {
    if Matches(env, request) {
      ChosenIsSelected(env.interaction.value, request);
      StoreTakesIff(Selected(env.interaction.value, request), known);
    }
  }

  /** A denial succeeds exactly when the interaction matches and the reply is a good address. */
  lemma DenySucceedsIff(s: State, env: Answers, request: Request, known: set<string>)
    requires !request.allow
    ensures Complete(s, env, request, known).result.Ok? <==> Matches(env, request) && env.finish.GoodUrl?
    ensures Matches(env, request) && !env.finish.GoodUrl? ==>
              Complete(s, env, request, known).result == Err(CallFailed)
  {
  }

  /** Each failed check has its own error, and the first of them is the one reported. */
  lemma RefusalTells(s: State, env: Answers, request: Request, known: set<string>)
    ensures var r := Complete(s, env, request, known).result;
            && (env.interaction == None ==> r == Err(CallFailed))
            && (env.interaction.Some? && !Matches(env, request) ==> r == Err(InteractionInvalid))
            && (Matches(env, request) && request.allow ==>
                  var interaction := env.interaction.value;
                  && (r == Err(SessionInvalid) <==> request.session == None || !request.session.value.verified)
                  && (r == Err(SessionMismatch) <==>
                        request.session.Some? && request.session.value.verified &&
                        !SessionFits(interaction, request.session))
                  && (SessionFits(interaction, request.session) ==>
                        && (env.organization == LookupFails ==> r == Err(CallFailed))
                        && (r == Err(OrganizationUnavailable) <==> env.organization == Unnamed)
                        && (env.organization == Named && !SelectionFits(interaction, request) ==>
                              r == Err(ScopesInvalid) && Complete(s, env, request, known).state == s)))
  {
    if Matches(env, request) {
      ChosenIsSelected(env.interaction.value, request);
    }
  }

  /** Past the checks, a call fails with the scopes when only the store refuses them, and otherwise as the call did. */
  lemma WritesTell(s: State, env: Answers, request: Request, known: set<string>)
    requires request.allow && Matches(env, request) && SessionFits(env.interaction.value, request.session)
    requires env.organization.Named? && SelectionFits(env.interaction.value, request)
    ensures var r := Complete(s, env, request, known).result;
            var reached := (env.interaction.value.prior.Some? ==> env.revokePrior.Lands?) && env.save.Lands?;
            && (r == Err(ScopesInvalid) <==> reached && !StoreTakes(Selected(env.interaction.value, request), known))
            && (r.Err? ==> r.error.ScopesInvalid? || r.error.CallFailed?)
  {
    ChosenIsSelected(env.interaction.value, request);
    StoreTakesIff(Selected(env.interaction.value, request), known);
  }

  // ---------------------------------------------------------------- what a call leaves behind

  ghost predicate Good(s: State) {
    && (forall g | g in s.grants :: g < s.nextGrant && s.grants[g].provider < s.nextProvider)
    && (forall g, h | g in s.grants && h in s.grants && g != h :: s.grants[g].provider != s.grants[h].provider)
    && (forall p | p in s.provider :: p < s.nextProvider)
  }

  /** Stored grants made by a call that are active after it. */
  function NewlyActive(s: State, s': State): set<nat> {
    set g | g in s'.grants && g !in s.grants && s'.grants[g].active
  }

  /** Everything before the creation of the stored grant succeeds. */
  predicate ReachesCreate(env: Answers, request: Request, known: set<string>) {
    && Admitted(env, request).Ok? && request.allow
    && (env.interaction.value.prior.Some? ==> env.revokePrior.Lands?) && env.save.Lands?
    && Storable(OIDC_SCOPES + Admitted(env, request).value, known)
  }

  lemma CreatingNew(s: State, provider: nat, env: Answers, session: Session, scopes: seq<string>, known: set<string>)
    requires s.nextGrant !in s.grants && Storable(OIDC_SCOPES + scopes, known)
    ensures var o := Creating(s, provider, env, session, scopes, known);
            && NewlyActive(s, o.state) ==
               (if env.create.FailsAfter? || (env.create.Lands? && (env.finish.GoodUrl? || env.compensate.FailsBefore?))
                then {s.nextGrant} else {})
            && forall g | g in s.grants :: g in o.state.grants && o.state.grants[g] == s.grants[g]
  {
  }

  /**
   A call that throws leaves an active grant of its own in exactly two cases: creating it took effect
   though it was reported as failed, or finishing failed and the compensating revocation did not land.
   */
  lemma ThrowLeavesGrantIff(s: State, env: Answers, request: Request, known: set<string>)
    requires Good(s) && Complete(s, env, request, known).result.Err?
    ensures NewlyActive(s, Complete(s, env, request, known).state) != {} <==>
              (&& ReachesCreate(env, request, known)
               && (env.create.FailsAfter? || (env.create.Lands? && env.compensate.FailsBefore?)))
  {
    var s' := Complete(s, env, request, known).state;
    if ReachesCreate(env, request, known) {
      var s1 := AfterRevoke(s, env.interaction.value.prior, env.revokePrior);
      var s2 := AfterSave(s1, Admitted(env, request).value, env.save);
      CreatingNew(s2, s1.nextProvider, env, request.session.value, Admitted(env, request).value, known);
      assert s2.grants.Keys == s.grants.Keys;
      assert NewlyActive(s, s') == NewlyActive(s2, s');
    } else {
      assert s'.grants.Keys == s.grants.Keys;
      assert NewlyActive(s, s') == {};
    }
  }

  /** With a compensating revocation that lands, and creation all or nothing, a throw leaves none. */
  lemma ThrowLeavesNone(s: State, env: Answers, request: Request, known: set<string>)
    requires Good(s) && Complete(s, env, request, known).result.Err?
    requires !env.compensate.FailsBefore? && !env.create.FailsAfter?
    ensures NewlyActive(s, Complete(s, env, request, known).state) == {}
  {
    ThrowLeavesGrantIff(s, env, request, known);
  }

  /**
   An allowed call that returns leaves exactly one new grant, active, for the session's user and
   organization and the chosen scopes, backed by a provider grant with those scopes in requested order;
   the prior grant is inactive and every other grant is as it was.
   */
  lemma AllowLeavesExactlyOne(s: State, env: Answers, request: Request, known: set<string>)
    requires Good(s) && request.allow && Complete(s, env, request, known).result.Ok?
    ensures request.session.Some? && env.interaction.Some?
    ensures Chosen(env.interaction.value.productScopes, request.scopes).Some?
    ensures var s' := Complete(s, env, request, known).state;
            var chosen := Chosen(env.interaction.value.productScopes, request.scopes).value;
            var session := request.session.value;
            var g := s.nextGrant;
            && s'.grants.Keys == s.grants.Keys + {g} && g !in s.grants && NewlyActive(s, s') == {g}
            && s'.grants[g] == Grant(s.nextProvider, session.user, session.organization,
                                     {"openid", "email"} + (set x | x in chosen), true)
            && s'.provider == s.provider[s.nextProvider := chosen]
            && forall o | o in s.grants :: s'.grants[o] ==
                 if env.interaction.value.prior == Some(s.grants[o].provider) then s.grants[o].(active := false)
                 else s.grants[o]
  {
    var chosen := Chosen(env.interaction.value.productScopes, request.scopes).value;
    assert (set x | x in OIDC_SCOPES + chosen) == {"openid", "email"} + (set x | x in chosen);
    var s1 := AfterRevoke(s, env.interaction.value.prior, env.revokePrior);
    var s2 := AfterSave(s1, chosen, env.save);
    CreatingNew(s2, s1.nextProvider, env, request.session.value, chosen, known);
    assert s2.grants.Keys == s.grants.Keys;
    assert NewlyActive(s, Complete(s, env, request, known).state) ==
           NewlyActive(s2, Complete(s, env, request, known).state);
  }

  /** Denying, or failing a check, writes nothing at all. */
  lemma DenyWritesNothing(s: State, env: Answers, request: Request, known: set<string>)
    requires !request.allow || Admitted(env, request).Err?
    ensures Complete(s, env, request, known).state == s
  {
  }

  /**
   A write of any kind takes the matching interaction, a verified session of the account it was begun
   with, a named organization, and scopes among those requested.
   */
  lemma AnyWriteIsAuthorized(s: State, env: Answers, request: Request, known: set<string>)
    requires Complete(s, env, request, known).state != s
    ensures request.allow && env.interaction.Some? && env.interaction.value.uid == request.id
    ensures request.session.Some? && request.session.value.verified && env.organization.Named?
    ensures env.interaction.value.account.None? || env.interaction.value.account.value == request.session.value.user
    ensures forall scope | scope in request.scopes :: scope in env.interaction.value.productScopes
  {
    var requested := env.interaction.value.productScopes;
    if Admitted(env, request).Ok? {
      forall scope | scope in request.scopes ensures scope in requested {
        ChosenIsSelection(requested, request.scopes, scope);
      }
    }
  }

  lemma RevokeKeepsGood(s: State, prior: Option<nat>, w: Write)
    requires Good(s)
    ensures Good(AfterRevoke(s, prior, w))
  {
  }

  lemma SaveKeepsGood(s: State, scopes: seq<string>, w: Write)
    requires Good(s)
    ensures Good(AfterSave(s, scopes, w))
    ensures forall g | g in s.grants :: AfterSave(s, scopes, w).grants[g].provider != s.nextProvider
  {
  }

  lemma CreateKeepsGood(s: State, grant: Grant, w: Write)
    requires Good(s) && grant.provider < s.nextProvider
    requires forall g | g in s.grants :: s.grants[g].provider != grant.provider
    ensures Good(AfterCreate(s, grant, w))
  {
  }

  lemma CompensationKeepsGood(s: State, id: nat, w: Write)
    requires Good(s)
    ensures Good(AfterCompensation(s, id, w))
  {
  }

  lemma CreatingKeepsGood(
      s: State, provider: nat, env: Answers, session: Session, scopes: seq<string>, known: set<string>)
    requires Good(s) && provider < s.nextProvider
    requires forall g | g in s.grants :: s.grants[g].provider != provider
    ensures Good(Creating(s, provider, env, session, scopes, known).state)
  {
    var grant := NewGrant(provider, session, scopes);
    CreateKeepsGood(s, grant, env.create);
    CompensationKeepsGood(AfterCreate(s, grant, env.create), s.nextGrant, env.compensate);
  }

  /** In every sequence of calls no two stored grants share a provider grant. */
  lemma CompleteKeepsGood(s: State, env: Answers, request: Request, known: set<string>)
    requires Good(s)
    ensures Good(Complete(s, env, request, known).state)
  {
    if Admitted(env, request).Ok? && request.allow {
      var scopes, prior := Admitted(env, request).value, env.interaction.value.prior;
      var s1 := AfterRevoke(s, prior, env.revokePrior);
      RevokeKeepsGood(s, prior, env.revokePrior);
      SaveKeepsGood(s1, scopes, env.save);
      if env.save.Lands? {
        CreatingKeepsGood(AfterSave(s1, scopes, env.save), s1.nextProvider, env, request.session.value, scopes, known);
      }
    }
  }

  // ---------------------------------------------------------------- what a failure costs

  /** The call gets as far as revoking the prior grant and that revocation takes effect. */
  predicate RevokesPrior(env: Answers, request: Request) {
    Admitted(env, request).Ok? && request.allow && !env.revokePrior.FailsBefore?
  }

  /** A grant there was before is inactive after the call exactly when it was, or was revoked as the prior one. */
  lemma OldGrantLostIff(s: State, env: Answers, request: Request, known: set<string>, g: nat)
    requires Good(s) && g in s.grants && env.interaction.Some?
    ensures var s' := Complete(s, env, request, known).state;
            && g in s'.grants
            && (!s'.grants[g].active <==>
                  !s.grants[g].active ||
                  (env.interaction.value.prior == Some(s.grants[g].provider) && RevokesPrior(env, request)))
  {
  }

  /**
   A throwing call takes the active prior grant and leaves no new one in its place exactly when the
   revocation landed and no grant was created that outlived the call.
   */
  lemma NeitherGrantIff(s: State, env: Answers, request: Request, known: set<string>, g: nat)
    requires Good(s) && g in s.grants && s.grants[g].active && env.interaction.Some?
    requires env.interaction.value.prior == Some(s.grants[g].provider)
    requires Complete(s, env, request, known).result.Err?
    ensures var s' := Complete(s, env, request, known).state;
            && g in s'.grants
            && (!s'.grants[g].active && NewlyActive(s, s') == {} <==>
                  && RevokesPrior(env, request)
                  && !(ReachesCreate(env, request, known)
                       && (env.create.FailsAfter? || (env.create.Lands? && env.compensate.FailsBefore?))))
  {
    OldGrantLostIff(s, env, request, known, g);
    ThrowLeavesGrantIff(s, env, request, known);
  }

  /** The user's only grant is revoked, saving its replacement fails, and the user is left with none. */
  lemma PriorIsLostOnFailure(known: set<string>)
    ensures var s := State(map[0 := Grant(0, "u", "o", {}, true)], map[], 1, 1);
            var asked := Interaction("i", [], None, Some(0));
            var env := Answers(Some(asked), Named, Lands, FailsBefore, Lands, GoodUrl, Lands);
            var o := Complete(s, env, Request("i", Some(Session("u", "o", true)), true, []), known);
            && Good(s) && o.result.Err?
            && o.state.grants == map[0 := Grant(0, "u", "o", {}, false)]
  {
    var s := State(map[0 := Grant(0, "u", "o", {}, true)], map[], 1, 1);
    assert Without(s.grants, 0) == map[0 := Grant(0, "u", "o", {}, false)];
  }

  predicate Orphan(s: State, p: nat) {
    p in s.provider && forall g | g in s.grants :: s.grants[g].provider != p
  }

  lemma CreatingOrphan(
      s: State, p: nat, env: Answers, session: Session, scopes: seq<string>, known: set<string>)
    requires Good(s) && p in s.provider && forall g | g in s.grants :: s.grants[g].provider != p
    ensures Orphan(Creating(s, p, env, session, scopes, known).state, p) <==>
              (env.create.FailsBefore? || !Storable(OIDC_SCOPES + scopes, known))
  {
    var s' := Creating(s, p, env, session, scopes, known).state;
    if !env.create.FailsBefore? && Storable(OIDC_SCOPES + scopes, known) {
      assert s.nextGrant in s'.grants && s'.grants[s.nextGrant].provider == p;
    } else {
      assert s' == s;
    }
  }

  /** A provider grant is left without a stored grant exactly when saving took effect and creating did not. */
  lemma OrphanIff(s: State, env: Answers, request: Request, known: set<string>)
    requires Good(s)
    ensures Orphan(Complete(s, env, request, known).state, s.nextProvider) <==>
              (&& Admitted(env, request).Ok? && request.allow
               && (env.interaction.value.prior.Some? ==> env.revokePrior.Lands?)
               && (|| env.save.FailsAfter?
                   || (env.save.Lands? && (env.create.FailsBefore?
                       || !Storable(OIDC_SCOPES + Admitted(env, request).value, known)))))
  {
    if Admitted(env, request).Ok? && request.allow {
      var scopes, prior := Admitted(env, request).value, env.interaction.value.prior;
      var s1 := AfterRevoke(s, prior, env.revokePrior);
      RevokeKeepsGood(s, prior, env.revokePrior);
      SaveKeepsGood(s1, scopes, env.save);
      if env.save.Lands? {
        CreatingOrphan(AfterSave(s1, scopes, env.save), s.nextProvider, env, request.session.value, scopes, known);
      }
    }
  }

  // ---------------------------------------------------------------- the call

  /** The stores the call writes to, one write after the other. */
  class Authorization {
    const known: set<string>
    var grants: map<nat, Grant>
    var provider: map<nat, seq<string>>
    var nextGrant: nat
    var nextProvider: nat

    function View(): State
      reads this
    {
      State(grants, provider, nextGrant, nextProvider)
    }

    constructor (known: set<string>)
      ensures this.known == known && View() == State(map[], map[], 0, 0)
    {
      this.known := known;
      grants, provider, nextGrant, nextProvider := map[], map[], 0, 0;
    }

    method RevokeByProvider(p: nat, w: Write) returns (ok: bool)
      modifies this`grants
      ensures View() == AfterRevoke(old(View()), Some(p), w) && ok == w.Lands?
    {
      if !w.FailsBefore? {
        grants := Without(grants, p);
      }
      return w.Lands?;
    }

    method SaveProviderGrant(scopes: seq<string>, w: Write) returns (id: Option<nat>)
      modifies this`provider, this`nextProvider
      ensures View() == AfterSave(old(View()), scopes, w)
      ensures id == if w.Lands? then Some(old(nextProvider)) else None
    {
      id := if w.Lands? then Some(nextProvider) else None;
      if !w.FailsBefore? {
        provider := provider[nextProvider := scopes];
        nextProvider := nextProvider + 1;
      }
    }

    method CreateGrant(grant: Grant, scopes: seq<string>, w: Write) returns (r: Result<nat, Error>)
      modifies this`grants, this`nextGrant
      ensures View() == if Storable(scopes, known) then AfterCreate(old(View()), grant, w) else old(View())
      ensures r == if !Storable(scopes, known) then Err(ScopesInvalid)
                   else if w.Lands? then Ok(old(nextGrant)) else Err(CallFailed)
    {
      if !Storable(scopes, known) {
        return Err(ScopesInvalid);
      }
      r := if w.Lands? then Ok(nextGrant) else Err(CallFailed);
      if !w.FailsBefore? {
        grants := grants[nextGrant := grant];
        nextGrant := nextGrant + 1;
      }
    }

    method RevokeGrant(id: nat, w: Write)
      modifies this`grants
      ensures View() == AfterCompensation(old(View()), id, w)
    {
      if id in grants && !w.FailsBefore? {
        grants := grants[id := grants[id].(active := false)];
      }
    }

    method Decide(env: Answers, request: Request) returns (r: Result<Finish, Error>)
      requires Good(View())
      modifies this
      ensures Outcome(View(), r) == Complete(old(View()), env, request, known) && Good(View())
    {
      ghost var s := View();
      CompleteKeepsGood(s, env, request, known);
      var admitted := Admitted(env, request);
      if admitted.Err? {
        return Err(admitted.error);
      }
      if !request.allow {
        return if env.finish.GoodUrl? then Ok(GoodUrl) else Err(CallFailed);
      }
      var scopes, prior, session := admitted.value, env.interaction.value.prior, request.session.value;
      assert Outcome(s, Err(CallFailed)).state == View();
      if prior.Some? {
        var ok := RevokeByProvider(prior.value, env.revokePrior);
        if !ok {
          return Err(CallFailed);
        }
      }
      ghost var s1 := View();
      var saved := SaveProviderGrant(scopes, env.save);
      if saved.None? {
        return Err(CallFailed);
      }
      ghost var s2 := View();
      assert Complete(s, env, request, known) == Creating(s2, s1.nextProvider, env, session, scopes, known);
      var created := CreateGrant(NewGrant(saved.value, session, scopes), OIDC_SCOPES + scopes, env.create);
      if created.Err? {
        return Err(created.error);
      }
      if env.finish.GoodUrl? {
        return Ok(GoodUrl);
      }
      RevokeGrant(created.value, env.compensate);
      return Err(CallFailed);
    }
  }
}
