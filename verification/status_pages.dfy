/**
 Publication of status pages.  Saving stores a selection of projects and checks; reading a public
 link shows that selection as far as live projects and checks still carry it.
 */
module StatusPages {
  import opened Prelude

  datatype Scope = Scope(owner: string, organization: string)

  datatype Check = Check(project: nat, deleted: bool)

  datatype Selection = Selection(project: nat, checks: seq<nat>)

  datatype Settings = Settings(enabled: bool, projects: seq<Selection>)

  datatype Page = Page(publicId: nat, scope: Scope, settings: Settings)

  /** Identifiers are drawn fresh: records from `nextId`, links from `nextPublic`. */
  datatype State = State(projects: map<nat, Scope>, checks: map<nat, Check>, pages: map<nat, Page>, session: Scope,
                         nextId: nat, nextPublic: nat)

  datatype Shown = Shown(project: nat, checks: set<nat>)

  // ---------------------------------------------------------------- settings

  function Ids(sels: seq<Selection>): seq<nat> {
    if sels == [] then [] else [sels[0].project] + Ids(sels[1..])
  }

  function AllChecks(sels: seq<Selection>): seq<nat> {
    if sels == [] then [] else sels[0].checks + AllChecks(sels[1..])
  }

  ghost predicate Distinct(xs: multiset<nat>) {
    forall x | x in xs :: xs[x] == 1
  }

  ghost predicate SchemaOk(settings: Settings) {
    && 1 <= |settings.projects| <= 50
    && (forall sel | sel in settings.projects :: |sel.checks| <= 50)
    && Distinct(multiset(Ids(settings.projects))) && Distinct(multiset(AllChecks(settings.projects)))
    && |AllChecks(settings.projects)| <= 500
  }

  // ---------------------------------------------------------------- what a page shows

  predicate InScope(s: State, project: nat, scope: Scope) {
    project in s.projects && s.projects[project] == scope
  }

  predicate Exists(s: State, project: nat, check: nat) {
    check in s.checks && s.checks[check].project == project && !s.checks[check].deleted
  }

  function Present(s: State, project: nat): nat -> bool {
    (c: nat) => Exists(s, project, c)
  }

  function Cut(s: State, sel: Selection): Selection {
    Selection(sel.project, Filter(Present(s, sel.project), sel.checks))
  }

  function CutAll(s: State, scope: Scope, sels: seq<Selection>): seq<Selection> {
    if sels == [] then []
    else (if InScope(s, sels[0].project, scope) then [Cut(s, sels[0])] else []) + CutAll(s, scope, sels[1..])
  }

  predicate Mentions(sels: seq<Selection>, project: nat) {
    exists i | 0 <= i < |sels| :: sels[i].project == project
  }

  /** The saved settings as they stand now; the anchor is put first should it be missing. */
  function Current(s: State, anchor: nat, page: Page): Settings {
    var cut := CutAll(s, page.scope, page.settings.projects);
    Settings(page.settings.enabled, if Mentions(cut, anchor) then cut else [Selection(anchor, [])] + cut)
  }

  function ShowAll(s: State, sels: seq<Selection>): seq<Shown> {
    if sels == [] then []
    else ([Shown(sels[0].project, set c | c in s.checks && Exists(s, sels[0].project, c) && c in sels[0].checks)]
          + ShowAll(s, sels[1..]))
  }

  function Projection(s: State, anchor: nat, page: Page): Option<seq<Shown>> {
    if !InScope(s, anchor, page.scope) then None
    else Some(ShowAll(s, Current(s, anchor, page).projects))
  }

  predicate Publishes(s: State, anchor: nat, link: nat) {
    anchor in s.pages && s.pages[anchor].publicId == link && s.pages[anchor].settings.enabled
  }

  ghost function Public(s: State, link: nat): Option<seq<Shown>> {
    if exists a :: Publishes(s, a, link) then
      var a :| Publishes(s, a, link);
      Projection(s, a, s.pages[a])
    else None
  }

  // ---------------------------------------------------------------- steps

  datatype Step =
    | AddProject(scope: Scope)
    | SetOwner(project: nat, owner: string)
    | RemoveProject(project: nat)
    | AddCheck(project: nat)
    | SetDeleted(check: nat, deleted: bool)
    | RemoveCheck(check: nat)
    | SignIn(session: Scope)
    | Save(anchor: nat, settings: Settings)

  predicate SelectionOk(s: State, scope: Scope, sel: Selection) {
    InScope(s, sel.project, scope) && forall c | c in sel.checks :: Exists(s, sel.project, c)
  }

  predicate SomeCheck(settings: Settings) {
    exists i | 0 <= i < |settings.projects| :: settings.projects[i].checks != []
  }

  ghost predicate SaveOk(s: State, anchor: nat, settings: Settings) {
    && InScope(s, anchor, s.session) && SchemaOk(settings)
    && settings.projects[0].project == anchor
    && (settings.enabled ==> SomeCheck(settings))
    && forall i | 0 <= i < |settings.projects| :: SelectionOk(s, s.session, settings.projects[i])
  }

  /** A link survives while its page still belongs to the project's owner and organization. */
  predicate KeepsLink(s: State, anchor: nat) {
    anchor in s.pages && InScope(s, anchor, s.pages[anchor].scope)
  }

  function AfterSave(s: State, anchor: nat, settings: Settings): State {
    var link := if KeepsLink(s, anchor) then s.pages[anchor].publicId else s.nextPublic;
    s.(pages := s.pages[anchor := Page(link, s.session, settings)],
       nextPublic := if KeepsLink(s, anchor) then s.nextPublic else s.nextPublic + 1)
  }

  ghost function Next(s: State, step: Step): State {
    match step
    case AddProject(scope) => s.(projects := s.projects[s.nextId := scope], nextId := s.nextId + 1)
    case SetOwner(p, owner) =>
      if p in s.projects then s.(projects := s.projects[p := s.projects[p].(owner := owner)]) else s
    case RemoveProject(p) => s.(projects := s.projects - {p})
    case AddCheck(p) => s.(checks := s.checks[s.nextId := Check(p, false)], nextId := s.nextId + 1)
    case SetDeleted(c, deleted) =>
      if c in s.checks then s.(checks := s.checks[c := s.checks[c].(deleted := deleted)]) else s
    case RemoveCheck(c) => s.(checks := s.checks - {c})
    case SignIn(session) => s.(session := session)
    case Save(anchor, settings) => if SaveOk(s, anchor, settings) then AfterSave(s, anchor, settings) else s
  }

  ghost predicate PageOk(page: Page, anchor: nat, nextPublic: nat) {
    page.publicId < nextPublic && SchemaOk(page.settings) && page.settings.projects[0].project == anchor
  }

  ghost predicate PagesOk(pages: map<nat, Page>, nextPublic: nat) {
    && (forall a | a in pages :: PageOk(pages[a], a, nextPublic))
    && (forall a, b | a in pages && b in pages && a != b :: pages[a].publicId != pages[b].publicId)
  }

  ghost predicate Good(s: State) {
    PagesOk(s.pages, s.nextPublic) && forall c | c in s.checks :: c < s.nextId
  }

  lemma PageStored(pages: map<nat, Page>, nextPublic: nat, anchor: nat, page: Page, later: nat)
    requires PagesOk(pages, nextPublic) && nextPublic <= later && PageOk(page, anchor, later)
    requires (anchor in pages && page.publicId == pages[anchor].publicId) || page.publicId == nextPublic
    ensures PagesOk(pages[anchor := page], later)
  {
    forall a | a in pages ensures PageOk(pages[a], a, later) {
      assert PageOk(pages[a], a, nextPublic);
    }
  }

  lemma StepKeepsGood(s: State, step: Step)
    requires Good(s)
    ensures Good(Next(s, step))
  {
    if step.Save? && SaveOk(s, step.anchor, step.settings) {
      var s' := AfterSave(s, step.anchor, step.settings);
      if step.anchor in s.pages {
        assert PageOk(s.pages[step.anchor], step.anchor, s.nextPublic);
      }
      PageStored(s.pages, s.nextPublic, step.anchor, s'.pages[step.anchor], s'.nextPublic);
    }
  }

  /** What an edit of the records makes of a project's scope. */
  predicate ScopeAfter(s: State, step: Step, p: nat, scope: Scope) {
    match step
    case AddProject(added) => if p == s.nextId then scope == added else InScope(s, p, scope)
    case SetOwner(q, owner) =>
      if p == q then p in s.projects && scope == Scope(owner, s.projects[p].organization) else InScope(s, p, scope)
    case RemoveProject(q) => p != q && InScope(s, p, scope)
    case _ => InScope(s, p, scope)
  }

  /** What it makes of a project's check. */
  predicate ExistsAfter(s: State, step: Step, p: nat, c: nat) {
    match step
    case AddCheck(q) => if c == s.nextId then p == q else Exists(s, p, c)
    case SetDeleted(d, deleted) =>
      if c == d then c in s.checks && s.checks[c].project == p && !deleted else Exists(s, p, c)
    case RemoveCheck(d) => c != d && Exists(s, p, c)
    case _ => Exists(s, p, c)
  }

  /** Every edit takes effect at once, and on the record it names only; pages are changed by saves alone. */
  lemma EditsAct(s: State, step: Step, p: nat, c: nat, scope: Scope)
    ensures var s' := Next(s, step);
            && (InScope(s', p, scope) <==> ScopeAfter(s, step, p, scope))
            && (Exists(s', p, c) <==> ExistsAfter(s, step, p, c))
            && s'.session == (if step.SignIn? then step.session else s.session)
            && s'.nextId == s.nextId + (if step.AddProject? || step.AddCheck? then 1 else 0)
            && (!step.Save? ==> s'.pages == s.pages && s'.nextPublic == s.nextPublic)
  {
  }

  predicate Starts(s: State) {
    s.pages == map[] && forall c | c in s.checks :: c < s.nextId
  }

  ghost predicate IsRun(states: seq<State>, steps: seq<Step>) {
    && |states| == |steps| + 1 && Starts(states[0])
    && forall i | 0 <= i < |steps| :: Follows(states[i], steps[i], states[i + 1])
  }

  ghost predicate Follows(s: State, step: Step, s': State) {
    s' == Next(s, step)
  }

  lemma StartIsGood(s: State)
    requires Starts(s)
    ensures Good(s)
  {
  }

  lemma {:induction false} RunIsGood(states: seq<State>, steps: seq<Step>, i: nat)
    requires IsRun(states, steps) && i < |states|
    ensures Good(states[i])
  {
    if i == 0 {
      StartIsGood(states[0]);
    } else {
      RunIsGood(states, steps, i - 1);
      assert Follows(states[i - 1], steps[i - 1], states[i]);
      GoodFollows(states[i - 1], steps[i - 1], states[i]);
    }
  }

  lemma GoodFollows(s: State, step: Step, s': State)
    requires Good(s) && Follows(s, step, s')
    ensures Good(s')
  {
    StepKeepsGood(s, step);
  }

  /** The limits of a publication: projects, checks of each, checks in all, and nothing listed twice. */
  ghost predicate WithinLimits(sels: seq<Selection>) {
    && 1 <= |sels| <= 50 && (forall k | 0 <= k < |sels| :: |sels[k].checks| <= 50) && |AllChecks(sels)| <= 500
    && (forall p :: multiset(Ids(sels))[p] <= 1) && (forall c :: multiset(AllChecks(sels))[c] <= 1)
  }

  /**
   New settings are taken exactly when the page's project belongs to the session and comes first, the
   limits are kept, a published page has a check, and every selected project and check is there in the same
   scope.
   */
  lemma SavedIff(s: State, anchor: nat, settings: Settings)
    requires anchor !in s.pages || s.pages[anchor].settings != settings
    ensures var s' := Next(s, Save(anchor, settings));
            anchor in s'.pages && s'.pages[anchor].settings == settings <==>
              && anchor in s.projects && s.projects[anchor] == s.session && WithinLimits(settings.projects)
              && settings.projects[0].project == anchor
              && (settings.enabled ==> exists k | 0 <= k < |settings.projects| :: |settings.projects[k].checks| > 0)
              && forall k | 0 <= k < |settings.projects| ::
                   var sel := settings.projects[k];
                   && sel.project in s.projects && s.projects[sel.project] == s.session
                   && forall c | c in sel.checks ::
                        c in s.checks && s.checks[c].project == sel.project && !s.checks[c].deleted
  {
    LimitsAreSchema(settings);
    assert (forall k | 0 <= k < |settings.projects| :: SelectionOk(s, s.session, settings.projects[k])) <==>
           forall k | 0 <= k < |settings.projects| ::
             var sel := settings.projects[k];
             && sel.project in s.projects && s.projects[sel.project] == s.session
             && forall c | c in sel.checks ::
                  c in s.checks && s.checks[c].project == sel.project && !s.checks[c].deleted;
  }

  lemma LimitsAreSchema(settings: Settings)
    ensures SchemaOk(settings) <==> WithinLimits(settings.projects)
  {
    var sels := settings.projects;
    assert (forall sel | sel in sels :: |sel.checks| <= 50) <==> forall k | 0 <= k < |sels| :: |sels[k].checks| <= 50;
  }

  // ---------------------------------------------------------------- the last save decides

  /** The selected projects still in scope, each with the selected checks that still exist. */
  function Expected(s: State, scope: Scope, sels: seq<Selection>): seq<Shown> {
    if sels == [] then []
    else
      var live := set c | c in s.checks && c in sels[0].checks && Exists(s, sels[0].project, c);
      (if InScope(s, sels[0].project, scope) then [Shown(sels[0].project, live)] else [])
      + Expected(s, scope, sels[1..])
  }

  lemma CutMembers(s: State, sel: Selection)
    ensures forall c: nat :: c in Cut(s, sel).checks <==> c in sel.checks && Exists(s, sel.project, c)
  {
    forall c: nat ensures c in Cut(s, sel).checks <==> c in sel.checks && Exists(s, sel.project, c) {
      FilterMember(Present(s, sel.project), sel.checks, c);
    }
  }

  lemma {:induction false} ShowCut(s: State, scope: Scope, sels: seq<Selection>)
    ensures ShowAll(s, CutAll(s, scope, sels)) == Expected(s, scope, sels)
  {
    if sels != [] {
      ShowCut(s, scope, sels[1..]);
      if InScope(s, sels[0].project, scope) {
        var cut, rest := Cut(s, sels[0]), CutAll(s, scope, sels[1..]);
        CutMembers(s, sels[0]);
        assert CutAll(s, scope, sels) == [cut] + rest && ([cut] + rest)[1..] == rest;
        assert (set c | c in s.checks && Exists(s, cut.project, c) && c in cut.checks)
            == (set c | c in s.checks && c in sels[0].checks && Exists(s, sels[0].project, c));
      } else {
        assert CutAll(s, scope, sels) == CutAll(s, scope, sels[1..]);
      }
    }
  }

  /** A page's own project comes first whatever was edited since, so the anchor is never put back. */
  lemma AnchorAlwaysPresent(s: State, anchor: nat)
    requires Good(s) && anchor in s.pages && InScope(s, anchor, s.pages[anchor].scope)
    ensures var page := s.pages[anchor];
            && Current(s, anchor, page).projects == CutAll(s, page.scope, page.settings.projects)
            && |Current(s, anchor, page).projects| > 0 && Current(s, anchor, page).projects[0].project == anchor
  {
    assert PageOk(s.pages[anchor], anchor, s.nextPublic);
    assert CutAll(s, s.pages[anchor].scope, s.pages[anchor].settings.projects)[0].project == anchor;
  }

  /** No two pages answer to one link. */
  lemma OnlyPublisher(s: State, a: nat, b: nat, link: nat)
    requires Good(s) && Publishes(s, a, link) && Publishes(s, b, link)
    ensures a == b
  {
  }

  lemma PublicIsExpected(s: State, anchor: nat)
    requires Good(s) && anchor in s.pages
    ensures var page := s.pages[anchor];
            Public(s, page.publicId) ==
            if page.settings.enabled && InScope(s, anchor, page.scope)
            then Some(Expected(s, page.scope, page.settings.projects)) else None
  {
    var page := s.pages[anchor];
    if page.settings.enabled {
      assert Publishes(s, anchor, page.publicId);
      if InScope(s, anchor, page.scope) {
        AnchorAlwaysPresent(s, anchor);
        ShowCut(s, page.scope, page.settings.projects);
      }
    }
  }

  /** Step `i` saves `settings` for the anchor and no later save for it succeeds before `j`. */
  ghost predicate LastSaved(states: seq<State>, steps: seq<Step>, anchor: nat, settings: Settings, i: nat, j: nat)
    requires |states| == |steps| + 1
  {
    && i < j <= |steps| && steps[i] == Save(anchor, settings) && SaveOk(states[i], anchor, settings)
    && forall k | i < k < j :: !Resaves(states[k], steps[k], anchor)
  }

  ghost predicate Resaves(s: State, step: Step, anchor: nat) {
    step.Save? && step.anchor == anchor && SaveOk(s, anchor, step.settings)
  }

  lemma {:induction false} PageStays(
      states: seq<State>, steps: seq<Step>, anchor: nat, settings: Settings, i: nat, j: nat)
    requires IsRun(states, steps) && LastSaved(states, steps, anchor, settings, i, j)
    ensures anchor in states[j].pages
    ensures states[j].pages[anchor] == Next(states[i], steps[i]).pages[anchor]
    decreases j
  {
    assert Follows(states[j - 1], steps[j - 1], states[j]);
    if i < j - 1 {
      PageStays(states, steps, anchor, settings, i, j - 1);
      assert !Resaves(states[j - 1], steps[j - 1], anchor);
    }
  }

  /**
   Over any run, the link of a page shows exactly what its last save selected, cut to the projects still
   under the owner and organization of that save and to their checks that still exist; it shows nothing
   when that save disabled the page or the page's own project has left the scope.
   */
  lemma PublicShowsLastSave(
      states: seq<State>, steps: seq<Step>, anchor: nat, settings: Settings, i: nat, j: nat)
    requires IsRun(states, steps) && LastSaved(states, steps, anchor, settings, i, j)
    ensures anchor in states[j].pages
    ensures var scope := states[i].session;
            Public(states[j], states[j].pages[anchor].publicId) ==
            if settings.enabled && InScope(states[j], anchor, scope)
            then Some(Expected(states[j], scope, settings.projects)) else None
  {
    PageStays(states, steps, anchor, settings, i, j);
    RunIsGood(states, steps, j);
    PublicIsExpected(states[j], anchor);
  }

  lemma {:induction false} ExpectedFrom(s: State, scope: Scope, sels: seq<Selection>, k: nat) returns (i: nat)
    requires k < |Expected(s, scope, sels)|
    ensures i < |sels| && InScope(s, sels[i].project, scope)
    ensures Expected(s, scope, sels)[k].project == sels[i].project
    ensures forall c | c in Expected(s, scope, sels)[k].checks :: c in sels[i].checks && Exists(s, sels[i].project, c)
  {
    var rest := Expected(s, scope, sels[1..]);
    if InScope(s, sels[0].project, scope) {
      if k == 0 {
        i := 0;
      } else {
        assert Expected(s, scope, sels)[k] == rest[k - 1];
        i := ExpectedFrom(s, scope, sels[1..], k - 1);
        i := i + 1;
      }
    } else {
      i := ExpectedFrom(s, scope, sels[1..], k);
      i := i + 1;
    }
  }

  /** A check that came after the last save never appears, nor does one that is gone or hidden now. */
  lemma ShownWasSelectable(
      states: seq<State>, steps: seq<Step>, anchor: nat, settings: Settings, i: nat, j: nat, k: nat, check: nat)
    requires IsRun(states, steps) && LastSaved(states, steps, anchor, settings, i, j)
    requires anchor in states[j].pages
    requires var view := Public(states[j], states[j].pages[anchor].publicId);
             view.Some? && k < |view.value| && check in view.value[k].checks
    ensures check < states[i].nextId
    ensures check in states[i].checks && !states[i].checks[check].deleted
    ensures check in states[j].checks && !states[j].checks[check].deleted
    ensures var project := Public(states[j], states[j].pages[anchor].publicId).value[k].project;
            && states[i].checks[check].project == states[j].checks[check].project == project
            && InScope(states[i], project, states[i].session) && InScope(states[j], project, states[i].session)
  {
    PublicShowsLastSave(states, steps, anchor, settings, i, j);
    var n := ExpectedFrom(states[j], states[i].session, settings.projects, k);
    assert SelectionOk(states[i], states[i].session, settings.projects[n]);
    RunIsGood(states, steps, i);
  }

  // ---------------------------------------------------------------- links

  /** Saving keeps the link exactly when the page still belongs to the project's scope. */
  lemma SaveKeepsLinkIff(s: State, anchor: nat, settings: Settings)
    requires Good(s) && SaveOk(s, anchor, settings) && anchor in s.pages
    ensures Next(s, Save(anchor, settings)).pages[anchor].publicId == s.pages[anchor].publicId
        <==> s.pages[anchor].scope == s.projects[anchor]
  {
    assert PageOk(s.pages[anchor], anchor, s.nextPublic);
  }

  ghost predicate Retired(s: State, link: nat) {
    link < s.nextPublic && forall a | a in s.pages :: s.pages[a].publicId != link
  }

  /** The link that a save replaced is retired. */
  lemma ReplacedLinkRetires(s: State, anchor: nat, settings: Settings)
    requires Good(s) && SaveOk(s, anchor, settings) && anchor in s.pages && !KeepsLink(s, anchor)
    ensures Retired(Next(s, Save(anchor, settings)), s.pages[anchor].publicId)
  {
    assert PageOk(s.pages[anchor], anchor, s.nextPublic);
  }

  lemma RetiredStays(s: State, step: Step, link: nat)
    requires Retired(s, link)
    ensures Retired(Next(s, step), link)
  {
  }

  /** A retired link shows nothing for the rest of the run. */
  lemma {:induction false} RetiredForGood(states: seq<State>, steps: seq<Step>, link: nat, i: nat, j: nat)
    requires IsRun(states, steps) && i <= j < |states| && Retired(states[i], link)
    ensures Retired(states[j], link) && Public(states[j], link).None?
    decreases j
  {
    if i < j {
      RetiredForGood(states, steps, link, i, j - 1);
      assert Follows(states[j - 1], steps[j - 1], states[j]);
      RetiredStays(states[j - 1], steps[j - 1], link);
    }
    assert forall a :: !Publishes(states[j], a, link);
  }

  // ---------------------------------------------------------------- saving back what is read

  lemma {:induction false} FilterSmaller(keep: nat -> bool, xs: seq<nat>)
    ensures multiset(Filter(keep, xs)) <= multiset(xs)
  {
    if xs != [] {
      FilterSmaller(keep, xs[1..]);
      assert xs == [xs[0]] + xs[1..];
    }
  }

  lemma HeadOf(sel: Selection, rest: seq<Selection>)
    ensures Ids([sel] + rest) == [sel.project] + Ids(rest)
    ensures AllChecks([sel] + rest) == sel.checks + AllChecks(rest)
  {
    assert ([sel] + rest)[1..] == rest;
  }

  lemma AppendSmaller(a: seq<nat>, b: seq<nat>, c: seq<nat>, d: seq<nat>)
    requires multiset(a) <= multiset(c) && multiset(b) <= multiset(d)
    ensures multiset(a + b) <= multiset(c + d)
  {
  }

  lemma {:induction false} CutIdsSmaller(s: State, scope: Scope, sels: seq<Selection>)
    ensures |CutAll(s, scope, sels)| <= |sels|
    ensures multiset(Ids(CutAll(s, scope, sels))) <= multiset(Ids(sels))
  {
    if sels != [] {
      var head, rest := Cut(s, sels[0]), CutAll(s, scope, sels[1..]);
      CutIdsSmaller(s, scope, sels[1..]);
      HeadOf(head, rest);
      var id := [sels[0].project];
      var kept := if InScope(s, sels[0].project, scope) then id else [];
      assert Ids(CutAll(s, scope, sels)) == kept + Ids(rest) by {
        assert [] + rest == rest && [] + Ids(rest) == Ids(rest);
      }
      AppendSmaller(kept, Ids(rest), id, Ids(sels[1..]));
    }
  }

  lemma {:induction false} CutChecksSmaller(s: State, scope: Scope, sels: seq<Selection>)
    ensures multiset(AllChecks(CutAll(s, scope, sels))) <= multiset(AllChecks(sels))
  {
    if sels != [] {
      var head, rest := Cut(s, sels[0]), CutAll(s, scope, sels[1..]);
      CutChecksSmaller(s, scope, sels[1..]);
      FilterSmaller(Present(s, sels[0].project), sels[0].checks);
      HeadOf(head, rest);
      var kept := if InScope(s, sels[0].project, scope) then head.checks else [];
      assert AllChecks(CutAll(s, scope, sels)) == kept + AllChecks(rest) by {
        assert [] + rest == rest && [] + AllChecks(rest) == AllChecks(rest);
      }
      AppendSmaller(kept, AllChecks(rest), sels[0].checks, AllChecks(sels[1..]));
    }
  }

  lemma {:induction false} CutItems(s: State, scope: Scope, sels: seq<Selection>, k: nat) returns (i: nat)
    requires k < |CutAll(s, scope, sels)|
    ensures i < |sels| && CutAll(s, scope, sels)[k] == Cut(s, sels[i]) && InScope(s, sels[i].project, scope)
  {
    if InScope(s, sels[0].project, scope) && k == 0 {
      i := 0;
    } else {
      i := CutItems(s, scope, sels[1..], if InScope(s, sels[0].project, scope) then k - 1 else k);
      i := i + 1;
    }
  }

  lemma SmallerDistinct(a: multiset<nat>, b: multiset<nat>)
    requires a <= b && Distinct(b)
    ensures Distinct(a) && |a| <= |b|
  {
    assert b == a + (b - a);
  }

  lemma CurrentSchemaOk(s: State, anchor: nat)
    requires Good(s) && anchor in s.pages && InScope(s, anchor, s.pages[anchor].scope)
    ensures SchemaOk(Current(s, anchor, s.pages[anchor]))
  {
    var page := s.pages[anchor];
    var sels := page.settings.projects;
    var cut := CutAll(s, page.scope, sels);
    AnchorAlwaysPresent(s, anchor);
    assert PageOk(s.pages[anchor], anchor, s.nextPublic);
    CutIdsSmaller(s, page.scope, sels);
    CutChecksSmaller(s, page.scope, sels);
    SmallerDistinct(multiset(Ids(cut)), multiset(Ids(sels)));
    SmallerDistinct(multiset(AllChecks(cut)), multiset(AllChecks(sels)));
    CutSizes(s, page.scope, sels);
  }

  lemma CutSizes(s: State, scope: Scope, sels: seq<Selection>)
    requires forall sel | sel in sels :: |sel.checks| <= 50
    ensures forall sel | sel in CutAll(s, scope, sels) :: |sel.checks| <= 50
  {
    var cut := CutAll(s, scope, sels);
    forall sel | sel in cut ensures |sel.checks| <= 50 {
      var k :| 0 <= k < |cut| && cut[k] == sel;
      var i := CutItems(s, scope, sels, k);
      assert sels[i] in sels;
    }
  }

  lemma CurrentSelectionsOk(s: State, anchor: nat, k: nat)
    requires Good(s) && anchor in s.pages && InScope(s, anchor, s.pages[anchor].scope)
    requires k < |Current(s, anchor, s.pages[anchor]).projects|
    ensures SelectionOk(s, s.pages[anchor].scope, Current(s, anchor, s.pages[anchor]).projects[k])
  {
    var page := s.pages[anchor];
    AnchorAlwaysPresent(s, anchor);
    var i := CutItems(s, page.scope, page.settings.projects, k);
    CutMembers(s, page.settings.projects[i]);
  }

  /**
   The owner may save back the settings just read exactly when the page is disabled or a check is left
   in them.
   */
  lemma SaveBackIff(s: State, anchor: nat)
    requires Good(s) && anchor in s.pages && InScope(s, anchor, s.session) && s.pages[anchor].scope == s.session
    ensures var read := Current(s, anchor, s.pages[anchor]);
            SaveOk(s, anchor, read) <==> (read.enabled ==> SomeCheck(read))
  {
    var read := Current(s, anchor, s.pages[anchor]);
    AnchorAlwaysPresent(s, anchor);
    CurrentSchemaOk(s, anchor);
    forall k | 0 <= k < |read.projects| ensures SelectionOk(s, s.session, read.projects[k]) {
      CurrentSelectionsOk(s, anchor, k);
    }
  }

  lemma {:induction false} CutFixed(s: State, scope: Scope, sels: seq<Selection>)
    requires forall i | 0 <= i < |sels| :: SelectionOk(s, scope, sels[i])
    ensures CutAll(s, scope, sels) == sels
  {
    if sels != [] {
      assert SelectionOk(s, scope, sels[0]);
      FilterFixed(Present(s, sels[0].project), sels[0].checks);
      CutFixed(s, scope, sels[1..]);
    }
  }

  lemma {:induction false} SameShown(s: State, s': State, sels: seq<Selection>)
    requires s'.checks == s.checks
    ensures ShowAll(s', sels) == ShowAll(s, sels)
  {
    if sels != [] {
      SameShown(s, s', sels[1..]);
      assert (set c | c in s.checks && Exists(s, sels[0].project, c) && c in sels[0].checks)
          == (set c | c in s'.checks && Exists(s', sels[0].project, c) && c in sels[0].checks);
    }
  }

  lemma SelectionSame(s: State, s': State, scope: Scope, sel: Selection)
    requires s'.projects == s.projects && s'.checks == s.checks && SelectionOk(s, scope, sel)
    ensures SelectionOk(s', scope, sel)
  {
    forall c | c in sel.checks ensures Exists(s', sel.project, c) {
      assert Exists(s, sel.project, c);
    }
  }

  lemma SavedBack(s: State, anchor: nat)
    requires anchor in s.pages && s.pages[anchor].scope == s.session
    requires SaveOk(s, anchor, Current(s, anchor, s.pages[anchor]))
    ensures var read := Current(s, anchor, s.pages[anchor]);
            Next(s, Save(anchor, read)) == s.(pages := s.pages[anchor := s.pages[anchor].(settings := read)])
  {
  }

  lemma CutOfCurrent(s: State, s': State, anchor: nat, read: Settings)
    requires s'.projects == s.projects && s'.checks == s.checks && SaveOk(s, anchor, read)
    ensures CutAll(s', s.session, read.projects) == read.projects
  {
    forall i | 0 <= i < |read.projects| ensures SelectionOk(s', s.session, read.projects[i]) {
      SelectionSame(s, s', s.session, read.projects[i]);
    }
    CutFixed(s', s.session, read.projects);
  }

  /** Saving back what was read keeps the link and what it shows, and reads the same again. */
  lemma SaveBackChangesNothingShown(s: State, anchor: nat)
    requires Good(s) && anchor in s.pages && s.pages[anchor].scope == s.session
    requires SaveOk(s, anchor, Current(s, anchor, s.pages[anchor]))
    ensures var read := Current(s, anchor, s.pages[anchor]);
            var s' := Next(s, Save(anchor, read));
            && anchor in s'.pages && s'.pages[anchor].publicId == s.pages[anchor].publicId
            && Public(s', s.pages[anchor].publicId) == Public(s, s.pages[anchor].publicId)
            && Current(s', anchor, s'.pages[anchor]) == read
  {
    var page := s.pages[anchor];
    var read := Current(s, anchor, page);
    var s' := Next(s, Save(anchor, read));
    SavedBack(s, anchor);
    CutOfCurrent(s, s', anchor, read);
    StepKeepsGood(s, Save(anchor, read));
    AnchorAlwaysPresent(s, anchor);
    AnchorAlwaysPresent(s', anchor);
    PublicIsExpected(s, anchor);
    PublicIsExpected(s', anchor);
    assert Expected(s', s.session, read.projects) == Expected(s, s.session, page.settings.projects) by {
      ShowCut(s, s.session, page.settings.projects);
      ShowCut(s', s.session, read.projects);
      SameShown(s, s', read.projects);
    }
  }

  // ---------------------------------------------------------------- the routes

  datatype Reply = Shows(view: seq<Shown>) | Saved(page: Page) | Missing | OwnerRequired | Invalid

  /** The page store beside the records it is read against. */
  class PageStore {
    var projects: map<nat, Scope>
    var checks: map<nat, Check>
    var pages: map<nat, Page>
    var session: Scope
    var nextId: nat
    var nextPublic: nat

    function View(): State
      reads this
    {
      State(projects, checks, pages, session, nextId, nextPublic)
    }

    constructor (s: State)
      requires Starts(s)
      ensures View() == s && Good(View())
    {
      projects, checks, pages, session, nextId, nextPublic := s.projects, s.checks, s.pages, s.session, s.nextId,
                                                              s.nextPublic;
    }

    /** Looks up every selected project and check. */
    method AllSelectable(settings: Settings) returns (ok: bool)
      ensures ok <==> forall i | 0 <= i < |settings.projects| :: SelectionOk(View(), session, settings.projects[i])
    {
      var i := 0;
      while i < |settings.projects|
        invariant 0 <= i <= |settings.projects|
        invariant forall k | 0 <= k < i :: SelectionOk(View(), session, settings.projects[k])
      {
        if !SelectionOk(View(), session, settings.projects[i]) {
          return false;
        }
        i := i + 1;
      }
      return true;
    }

    /** A body that does not parse is `None`; nothing is stored before everything was looked up. */
    method SaveSettings(anchor: nat, body: Option<Settings>) returns (r: Reply)
      requires Good(View()) && (body.Some? ==> SchemaOk(body.value))
      modifies this`pages, this`nextPublic
      ensures View() == if body.Some? then Next(old(View()), Save(anchor, body.value)) else old(View())
      ensures r.Saved? <==> body.Some? && SaveOk(old(View()), anchor, body.value)
      ensures r.Saved? ==> anchor in pages && r.page == pages[anchor] && r.page.settings == body.value
      ensures r.Missing? <==> anchor !in projects
      ensures r.OwnerRequired? <==> anchor in projects && projects[anchor] != session
    {
      if anchor !in projects {
        return Missing;
      }
      if projects[anchor] != session {
        return OwnerRequired;
      }
      if body.None? {
        return Invalid;
      }
      var settings := body.value;
      if settings.projects[0].project != anchor || (settings.enabled && !SomeCheck(settings)) {
        return Invalid;
      }
      var ok := AllSelectable(settings);
      if !ok {
        return Invalid;
      }
      Store(anchor, settings);
      return Saved(pages[anchor]);
    }

    /** A page of the same scope keeps its link; any other gets a fresh one. */
    method Store(anchor: nat, settings: Settings)
      requires anchor in projects && projects[anchor] == session
      modifies this`pages, this`nextPublic
      ensures View() == AfterSave(old(View()), anchor, settings)
    {
      var link := nextPublic;
      if anchor in pages && pages[anchor].scope == projects[anchor] {
        link := pages[anchor].publicId;
      } else {
        nextPublic := nextPublic + 1;
      }
      pages := pages[anchor := Page(link, projects[anchor], settings)];
    }

    method Read(link: nat) returns (r: Reply)
      requires Good(View())
      ensures match Public(View(), link)
              case Some(view) => r == Shows(view)
              case None => r == Missing
    {
      if !(exists a | a in pages :: Publishes(View(), a, link)) {
        return Missing;
      }
      var anchor :| anchor in pages && Publishes(View(), anchor, link);
      var shown := Projection(View(), anchor, pages[anchor]);
      return if shown.Some? then Shows(shown.value) else Missing;
    }
  }
}
