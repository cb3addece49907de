/** Promotion to the catalog, the default theme and what a page resolves to. */
module ThemeCatalog {
  import opened Prelude
  import opened Ordering
  import opened ThemeModel
  import opened ThemeSteps

  // ---------------------------------------------------------------- requests

  /** Why a promotion request is turned down. */
  function CreateRefused(w: World, setup: Setup, owner: User, t: Id): Option<ThemeError> {
    if t !in w.themes || w.themes[t].catalog || w.themes[t].owner != Some(owner) then Some(NotFound)
    else if !w.themes[t].enabled || w.themes[t].current == None then Some(NotEligible)
    else if Reserved(setup, w.themes[t].slug) then Some(ReservedSlug)
    else if CatalogSlugTaken(w, w.themes[t].slug, t) then Some(SlugConflict)
    else if HasPending(w, t) then Some(Taken)
    else None
  }

  lemma CreateKeeps(w: World, setup: Setup, owner: User, t: Id, q: Id)
    requires Rows(w, setup) && q !in w.requests && CreateRefused(w, setup, owner, t) == None
    ensures var w' := w.(requests := w.requests[q := Request(t, owner, w.themes[t].current.value, Pending)]);
            Preserves(w, w', setup) && NoNewOwned(w, w')
  {
    hide HasPending, CatalogSlugTaken, Reserved;
    var r := Request(t, owner, w.themes[t].current.value, Pending);
    RequestedRows(w, setup, q, r);
    hide Rows, Advances, DefaultUsable;
    if DefaultUsable(w) {
      SameDefault(w, w.(requests := w.requests[q := r]));
    }
  }

  /** The one pending request of an owner's theme. */
  function PendingOf(w: World, owner: User, t: Id): set<Id> {
    set q | q in w.requests && w.requests[q].theme == t && w.requests[q].owner == owner && w.requests[q].status.Pending?
  }

  lemma SettleKeeps(w: World, setup: Setup, q: Id, status: RequestStatus)
    requires Rows(w, setup) && q in w.requests && !status.Pending?
    ensures Preserves(w, Settle(w, q, status), setup) && NoNewOwned(w, Settle(w, q, status))
  {
    hide Rows, Advances, DefaultUsable;
    SettledRows(w, setup, q, status);
    if DefaultUsable(w) {
      SameDefault(w, Settle(w, q, status));
    }
  }

  /** What an approval still needs. That the theme's pointer is the submitted
      version is not among it: it cannot have moved. */
  predicate Approvable(w: World, setup: Setup, q: Id) {
    && q in w.requests && w.requests[q].status.Pending?
    && w.requests[q].theme in w.themes && w.themes[w.requests[q].theme].enabled
    && w.requests[q].version in w.versions && w.versions[w.requests[q].version].active
    && !Reserved(setup, w.themes[w.requests[q].theme].slug)
    && !CatalogSlugTaken(w, w.themes[w.requests[q].theme].slug, w.requests[q].theme)
  }

  /** Nothing that happens while a request is pending moves the pointer. */
  lemma SubmittedIsCurrent(w: World, setup: Setup, q: Id)
    requires Rows(w, setup) && q in w.requests && w.requests[q].status.Pending?
    ensures var r := w.requests[q];
            && r.theme in w.themes && !w.themes[r.theme].catalog && w.themes[r.theme].owner == Some(r.owner)
            && w.themes[r.theme].current == Some(r.version)
            && r.version in w.versions && w.versions[r.version].theme == r.theme
  {
    assert Submitted(w.themes, w.requests[q]);
  }

  lemma ApproveKeeps(w: World, setup: Setup, q: Id)
    requires Rows(w, setup) && Approvable(w, setup, q)
    ensures var w' := Settle(Promote(w, w.requests[q].theme), q, Approved);
            Preserves(w, w', setup) && NoNewOwned(w, w')
  {
    var t := w.requests[q].theme;
    var mid := Settle(w, q, Approved);
    var w' := Settle(Promote(w, t), q, Approved);
    SubmittedIsCurrent(w, setup, q);
    SettledRows(w, setup, q, Approved);
    assert w' == Promote(mid, t);
    hide Rows, Advances, DefaultUsable, HasPending, Reserved, CatalogSlugTaken;
    PromotedRows(mid, setup, t);
    AdvancesChain(w, mid, w');
    if DefaultUsable(w) {
      SameDefault(w, mid);
      PromotedDefault(mid, t);
    }
  }

  // ------------------------------------------------------------ default theme

  function Defaults(w: World): set<Id> {
    set t | t in w.themes && w.themes[t].isDefault
  }

  /** AssertDefaultThemeUsable counts the defaults, then joins. */
  lemma OneDefault(w: World)
    ensures DefaultUsable(w) <==> |Defaults(w)| == 1 && exists d :: d in Defaults(w) && IsUsableDefault(w, d)
  {
    if DefaultUsable(w) {
      var d: Id :| IsUsableDefault(w, d) && forall u :: u in w.themes && w.themes[u].isDefault ==> u == d;
      assert Defaults(w) == {d};
    } else if |Defaults(w)| == 1 {
      var d :| d in Defaults(w);
      assert |Defaults(w) - {d}| == 0;
      forall u | u in w.themes && w.themes[u].isDefault ensures u == d {
        assert u in Defaults(w);
        assert u !in Defaults(w) - {d};
      }
    }
  }

  function EligibleCatalog(w: World): set<Id> {
    set t | t in w.themes && w.themes[t].catalog && Eligible(w, t, None)
  }

  /** ORDER BY CASE WHEN id = baseline THEN 0 ELSE 1 END, id */
  function ReplacementOrder(w: World, setup: Setup): SortKeys {
    map t | t in w.themes :: if t == setup.baseline then 0 else 1
  }

  function Replacement(w: World, setup: Setup): (t: Id)
    requires EligibleCatalog(w) != {}
    ensures t in EligibleCatalog(w)
    ensures setup.baseline in EligibleCatalog(w) ==> t == setup.baseline
    ensures setup.baseline !in EligibleCatalog(w) ==> forall u :: u in EligibleCatalog(w) ==> t <= u
  {
    First(EligibleCatalog(w), ReplacementOrder(w, setup))
  }

  lemma HealKeeps(w: World, setup: Setup, t: Id)
    requires Rows(w, setup) && t in EligibleCatalog(w)
    ensures var w' := MakeDefault(w, t);
            Preserves(w, w', setup) && DefaultUsable(w') && KillSwitchKept(w, w') && NoNewOwned(w, w')
  {
    MadeDefaultRows(w, setup, t);
    MadeDefaultUsable(w, t);
  }

  /** A seeded theme never has a pending request, so a sync may move its pointer. */
  lemma SeededNotPending(w: World, setup: Setup, t: Id)
    requires Rows(w, setup) && t in setup.builtin
    ensures t in w.themes && !HasPending(w, t)
  {}

  // ---------------------------------------------------------------- resolving

  /** An enabled theme with an active version, of the catalog or the actor's own. */
  ghost predicate MayServe(w: World, t: Id, actor: Option<User>) {
    && t in w.themes && w.themes[t].enabled
    && (w.themes[t].catalog || (actor.Some? && w.themes[t].owner == actor))
    && exists v :: v in w.versions && w.themes[t].current == Some(v) && w.versions[v].theme == t && w.versions[v].active
  }

  /** The requested theme if it may serve, else the one that took over from it if
      that may, else a default; an error only if there is none of these. */
  ghost predicate Honoured(w: World, setup: Setup, theme: Option<Id>, actor: Option<User>, r: Result<Id, ThemeError>) {
    if theme.Some? && MayServe(w, theme.value, actor) then r == Ok(w.themes[theme.value].current.value)
    else if theme.Some? && theme.value in setup.aliases && MayServe(w, setup.aliases[theme.value], actor)
    then r == Ok(w.themes[setup.aliases[theme.value]].current.value)
    else match r
         case Ok(v) => exists d :: MayServe(w, d, None) && w.themes[d].isDefault && w.themes[d].current == Some(v)
         case Err(_) => forall d :: MayServe(w, d, None) ==> !w.themes[d].isDefault
  }

  /** The candidate themes, in order: the one asked for, then its alias. */
  function Candidates(setup: Setup, theme: Option<Id>): seq<Option<Id>> {
    if theme.Some? && theme.value in setup.aliases then [theme, Some(setup.aliases[theme.value])] else [theme]
  }

  predicate CandidateEligible(w: World, c: Option<Id>, actor: Option<User>) {
    c.Some? && Eligible(w, c.value, actor)
  }

  /** What ResolveEligibleVersion may answer: the first eligible candidate's
      current version, else the default theme's. */
  ghost predicate Resolves(w: World, setup: Setup, theme: Option<Id>, actor: Option<User>, v: Id) {
    var cs := Candidates(setup, theme);
    if CandidateEligible(w, cs[0], actor) then w.themes[cs[0].value].current == Some(v)
    else if |cs| > 1 && CandidateEligible(w, cs[1], actor) then w.themes[cs[1].value].current == Some(v)
    else exists d :: d in w.themes && w.themes[d].isDefault && Eligible(w, d, None) && w.themes[d].current == Some(v)
  }

  lemma MayServeIs(w: World, t: Id, actor: Option<User>)
    ensures MayServe(w, t, actor) <==> Eligible(w, t, actor)
  {}

  /** Trying the candidates in turn honours the request. */
  lemma ResolvesHonours(w: World, setup: Setup, theme: Option<Id>, actor: Option<User>, r: Result<Id, ThemeError>)
    requires r.Ok? ==> Resolves(w, setup, theme, actor, r.value)
    requires r.Err? ==> forall v :: !Resolves(w, setup, theme, actor, v)
    ensures Honoured(w, setup, theme, actor, r)
  {
    forall t, a ensures MayServe(w, t, a) <==> Eligible(w, t, a) {
      MayServeIs(w, t, a);
    }
    hide MayServe;
    assert forall t, a :: Eligible(w, t, a) ==> w.themes[t].current.Some?;
    hide Eligible;
    if theme.Some? && MayServe(w, theme.value, actor) {
      assert r.Ok? by {
        assert Resolves(w, setup, theme, actor, w.themes[theme.value].current.value);
      }
    } else if theme.Some? && theme.value in setup.aliases && MayServe(w, setup.aliases[theme.value], actor) {
      assert r.Ok? by {
        assert Resolves(w, setup, theme, actor, w.themes[setup.aliases[theme.value]].current.value);
      }
    } else if r.Err? {
      forall d | MayServe(w, d, None) ensures !w.themes[d].isDefault {
        assert w.themes[d].isDefault ==> Resolves(w, setup, theme, actor, w.themes[d].current.value);
      }
    }
  }

  /** Whatever it answers is the active current version of a theme the actor may use. */
  lemma ResolvedServes(w: World, setup: Setup, theme: Option<Id>, actor: Option<User>, v: Id)
    requires Resolves(w, setup, theme, actor, v)
    ensures v in w.versions && w.versions[v].active
    ensures exists t :: (Eligible(w, t, actor) || Eligible(w, t, None)) && w.themes[t].current == Some(v)
  {
    var cs := Candidates(setup, theme);
    if CandidateEligible(w, cs[0], actor) {
      assert Eligible(w, cs[0].value, actor);
    } else if |cs| > 1 && CandidateEligible(w, cs[1], actor) {
      assert Eligible(w, cs[1].value, actor);
    }
  }

  /** With a usable default there is always an answer, and only one. */
  lemma ResolvesOnce(w: World, setup: Setup, theme: Option<Id>, actor: Option<User>)
    requires DefaultUsable(w)
    ensures exists v :: Resolves(w, setup, theme, actor, v)
    ensures forall u, v :: Resolves(w, setup, theme, actor, u) && Resolves(w, setup, theme, actor, v) ==> u == v
  {
    var d :| IsUsableDefault(w, d) && forall u :: u in w.themes && w.themes[u].isDefault ==> u == d;
    var cs := Candidates(setup, theme);
    if CandidateEligible(w, cs[0], actor) {
      assert Resolves(w, setup, theme, actor, w.themes[cs[0].value].current.value);
    } else if |cs| > 1 && CandidateEligible(w, cs[1], actor) {
      assert Resolves(w, setup, theme, actor, w.themes[cs[1].value].current.value);
    } else {
      assert Eligible(w, d, None);
      assert Resolves(w, setup, theme, actor, w.themes[d].current.value);
    }
  }

  lemma TheDefault(w: World, d: Id)
    requires |Defaults(w)| == 1 && d in Defaults(w)
    ensures forall e :: e in Defaults(w) ==> e == d
  {
    assert |Defaults(w) - {d}| == 0;
    forall e | e in Defaults(w) ensures e == d {
      assert e !in Defaults(w) - {d};
    }
  }

  lemma InCatalog(w: World, t: Id)
    requires t in EligibleCatalog(w)
    ensures t in w.themes
  {}

  lemma Healed(w: World, t: Id)
    requires t in w.themes
    ensures var cleared := map u | u in w.themes :: if w.themes[u].isDefault then w.themes[u].(isDefault := false)
            else w.themes[u];
            cleared[t := cleared[t].(isDefault := true)] == MakeDefault(w, t).themes
  {}

  lemma DefaultOnlyThemes(w: World, t: Id)
    requires t in w.themes
    ensures MakeDefault(w, t) == w.(themes := MakeDefault(w, t).themes)
  {}

  lemma PreservesRows(w: World, w': World, setup: Setup)
    requires Preserves(w, w', setup)
    ensures Rows(w', setup)
  {}

  lemma PreservesChain(a: World, b: World, c: World, setup: Setup)
    requires Preserves(a, b, setup) && Preserves(b, c, setup) && NoNewOwned(a, b) && NoNewOwned(b, c)
    ensures Preserves(a, c, setup) && NoNewOwned(a, c)
  {
    hide Rows, DefaultUsable;
    AdvancesChain(a, b, c);
  }

  /** Statuses and pointers through a sync in which no version disappears. */
  lemma KillSwitchChain(a: World, b: World, c: World)
    requires KillSwitchKept(a, b) && KillSwitchKept(b, c) && Pointers(c.themes, c.versions)
    requires a.versions.Keys <= b.versions.Keys <= c.versions.Keys && b.themes.Keys <= c.themes.Keys
    ensures KillSwitchKept(a, c)
  {}

  lemma SyncedKillSwitch(a: World, b: World, setup: Setup, t: Id, c: Compiled, w': World, v: Id)
    requires KillSwitchKept(a, b) && a.versions.Keys <= b.versions.Keys
    requires Rows(w', setup) && Upserted(b, t, c, w', v)
    ensures KillSwitchKept(a, w') && a.versions.Keys <= w'.versions.Keys
  {
    UpsertedKillSwitch(b, t, c, w', v);
    assert Pointers(w'.themes, w'.versions);
    hide Rows, Upserted, KillSwitchKept;
    KillSwitchChain(a, b, w');
  }

  lemma HealedKillSwitch(a: World, b: World, c: World, setup: Setup)
    requires KillSwitchKept(a, b) && KillSwitchKept(b, c) && a.versions.Keys <= b.versions.Keys
    requires Rows(c, setup) && c.versions == b.versions && c.themes.Keys == b.themes.Keys
    ensures KillSwitchKept(a, c)
  {
    assert Pointers(c.themes, c.versions);
    hide Rows, KillSwitchKept;
    KillSwitchChain(a, b, c);
  }

  lemma SyncedOne(a: World, b: World, setup: Setup, t: Id, c: Compiled, w': World, v: Id)
    requires Preserves(a, b, setup) && NoNewOwned(a, b) && Rows(b, setup)
    requires Upserted(b, t, c, w', v) && !HasPending(b, t)
    ensures Rows(w', setup) && Preserves(a, w', setup) && NoNewOwned(a, w')
  {
    hide Rows, DefaultUsable, Advances, HasPending;
    UpsertedRows(b, setup, t, c, w', v);
    if DefaultUsable(b) {
      UpsertedDefault(b, t, c, w', v);
    }
    PreservesChain(a, b, w', setup);
  }

  lemma PublishKeeps(w: World, setup: Setup, s: Id, v: Id)
    requires Rows(w, setup) && s !in w.snapshots && v in w.versions
    ensures var w' := w.(snapshots := w.snapshots[s := v]); Preserves(w, w', setup) && NoNewOwned(w, w')
  {
    hide Rows, DefaultUsable, Advances;
    PublishedRows(w, setup, s, v);
    if DefaultUsable(w) {
      SameDefault(w, w.(snapshots := w.snapshots[s := v]));
    }
  }
}
