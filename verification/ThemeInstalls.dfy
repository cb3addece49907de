/** Installing, upgrading and reclaiming private themes: what a transaction may
    do to the rows, and that it keeps the invariants. */
module ThemeInstalls {
  import opened Prelude
  import opened ThemeModel
  import opened ThemeSteps

  datatype Installed = Installed(theme: Id, slug: string, version: Id, upgraded: bool)

  /** The rows `scope = 'private' AND owner_id = ? AND slug = ?`. */
  function PrivateThemes(w: World, owner: User, slug: string): set<Id> {
    set t | t in w.themes && !w.themes[t].catalog && w.themes[t].owner == Some(owner) && w.themes[t].slug == slug
  }

  /** Why upsertVersionTx fails. */
  function UpsertError(w: World, t: Id, c: Compiled): Option<ThemeError> {
    if !c.complete then Some(Malformed)
    else if t !in w.themes then Some(NotFound)
    else if VersionsWith(w, t, c.hash) == {} && c.version in w.versions then Some(Taken)
    else None
  }

  /** A newId install succeeds on top of `base`, the rows after any reclaim. */
  ghost predicate Fresh(base: World, owner: User, slug: string, t: Id, c: Compiled, w': World, v: Id) {
    Upserted(base.(themes := base.themes[t := NewPrivate(slug, owner)]), t, c, w', v)
  }

  // ------------------------------------------------------------ reclaiming

  lemma DeleteMore(w: World, gone: set<Id>, t: Id)
    ensures DeleteThemes(DeleteThemes(w, gone), {t}) == DeleteThemes(w, gone + {t})
  {}

  lemma DeleteNone(w: World)
    ensures DeleteThemes(w, {}) == w
  {}

  /** Deleting other themes leaves what is asked about a theme as it was. */
  lemma OthersUntouched(w: World, gone: set<Id>, t: Id)
    requires t !in gone
    ensures Referenced(DeleteThemes(w, gone), t) <==> Referenced(w, t)
    ensures HasDisabledVersion(DeleteThemes(w, gone), t) <==> HasDisabledVersion(w, t)
  {
    var w' := DeleteThemes(w, gone);
    if Referenced(w, t) {
      var s :| s in w.snapshots && w.snapshots[s] in w.versions && w.versions[w.snapshots[s]].theme == t;
      assert w'.snapshots[s] in w'.versions;
    }
    if HasDisabledVersion(w, t) {
      var v :| v in w.versions && w.versions[v].theme == t && !w.versions[v].active;
      assert v in w'.versions;
    }
  }

  lemma RevokeThenDelete(w: World, t: Id)
    ensures DeleteThemes(RevokePending(w, t), {t}) == DeleteThemes(w, {t})
  {}

  // ------------------------------------------------------------ installing

  /** The rows a new install is made on: reclaimed only under quota pressure. */
  function InstallBase(w: World, owner: User, quota: int): World {
    if |Owned(w, owner)| >= quota then DeleteThemes(w, Reclaimable(w, owner)) else w
  }

  /** The rows with the new theme in, its version still to come. */
  function Seeded(w: World, owner: User, slug: string, quota: int, newId: Id): World {
    var base := InstallBase(w, owner, quota);
    base.(themes := base.themes[newId := NewPrivate(slug, owner)])
  }

  /** The quota refuses exactly when the themes that cannot be reclaimed fill it;
      with room an install succeeds exactly when the package compiles and its
      version can be inserted. */
  ghost predicate NewOutcome(w: World, owner: User, slug: string, quota: int, newId: Id,
                             compile: Id -> Option<Compiled>,
                             w': World, r: Result<Installed, ThemeError>) {
    && (r == Err(Quota) <==> |Owned(w, owner) - Reclaimable(w, owner)| >= quota)
    && (r.Ok? <==>
          && |Owned(w, owner) - Reclaimable(w, owner)| < quota
          && compile(newId).Some?
              && UpsertError(Seeded(w, owner, slug, quota, newId), newId, compile(newId).value) == None)
    && (r.Ok? ==>
          && compile(newId).Some? && r.value == Installed(newId, slug, r.value.version, false)
          && Fresh(InstallBase(w, owner, quota), owner, slug, newId, compile(newId).value, w', r.value.version)
          && |Owned(w', owner)| <= quota)
  }

  ghost predicate UpgradeOutcome(w: World, t: Id, slug: string, compile: Id -> Option<Compiled>, w': World,
                                 r: Result<Installed, ThemeError>) {
    && (HasPending(w, t) <==> r == Err(RequestPending))
    && (r.Ok? <==> !HasPending(w, t) && compile(t).Some? && UpsertError(w, t, compile(t).value) == None)
    && (r.Ok? ==>
          && t in w'.themes && w'.themes[t].enabled
          && compile(t).Some? && r.value == Installed(t, slug, r.value.version, true)
          && exists mid: World :: t in mid.themes && Upserted(w, t, compile(t).value, mid, r.value.version)
              && w' == Enable(mid, t, true))
  }

  ghost predicate InstallOutcome(w: World, owner: User, slug: string, quota: int, newId: Id,
                                 compile: Id -> Option<Compiled>,
                                 w': World, r: Result<Installed, ThemeError>) {
    if PrivateThemes(w, owner, slug) == {} then NewOutcome(w, owner, slug, quota, newId, compile, w', r)
    else exists t :: PrivateThemes(w, owner, slug) == {t} && UpgradeOutcome(w, t, slug, compile, w', r)
  }

  lemma Unchanged(w: World, setup: Setup)
    requires Rows(w, setup)
    ensures Preserves(w, w, setup) && KillSwitchKept(w, w) && NoNewOwned(w, w)
  {
    AdvancesSelf(w);
  }

  lemma OneOfAName(w: World, setup: Setup, owner: User, slug: string, t: Id)
    requires Rows(w, setup) && t in PrivateThemes(w, owner, slug)
    ensures PrivateThemes(w, owner, slug) == {t}
  {}

  lemma QuotaCounts(w: World, owner: User, quota: int)
    ensures |Owned(DeleteThemes(w, Reclaimable(w, owner)), owner)| == |Owned(w, owner) - Reclaimable(w, owner)|
    ensures |Owned(w, owner) - Reclaimable(w, owner)| <= |Owned(w, owner)|
  {
    assert Owned(DeleteThemes(w, Reclaimable(w, owner)), owner) == Owned(w, owner) - Reclaimable(w, owner);
  }

  lemma BaseFacts(w: World, setup: Setup, owner: User, slug: string, quota: int, newId: Id)
    requires Rows(w, setup) && newId !in w.themes && PrivateThemes(w, owner, slug) == {}
    ensures var base := InstallBase(w, owner, quota);
            && Rows(base, setup) && (DefaultUsable(w) ==> DefaultUsable(base)) && Advances(w, base)
            && newId !in base.themes
            && (forall u :: u in base.themes && base.themes[u].owner == Some(owner) ==> base.themes[u].slug != slug)
  {
    hide Rows, Advances, DefaultUsable, Referenced, HasDisabledVersion;
    BaseNames(w, setup, owner, slug, quota);
    if |Owned(w, owner)| >= quota {
      DeletedRows(w, setup, Reclaimable(w, owner));
      if DefaultUsable(w) {
        DeletedDefault(w, Reclaimable(w, owner));
      }
    } else {
      AdvancesSelf(w);
    }
  }

  lemma BaseNames(w: World, setup: Setup, owner: User, slug: string, quota: int)
    requires Rows(w, setup) && PrivateThemes(w, owner, slug) == {}
    ensures var base := InstallBase(w, owner, quota);
            forall u :: u in base.themes && base.themes[u].owner == Some(owner) ==> base.themes[u].slug != slug
  {
    forall u | u in w.themes && w.themes[u].owner == Some(owner) ensures w.themes[u].slug != slug {
      assert u !in PrivateThemes(w, owner, slug);
    }
  }

  lemma NoneOfFresh(w: World, setup: Setup, newId: Id, slug: string, owner: User, hash: Hash)
    requires Rows(w, setup) && newId !in w.themes
    ensures var mid := w.(themes := w.themes[newId := NewPrivate(slug, owner)]);
            !HasPending(mid, newId) && VersionsWith(mid, newId, hash) == {}
  {}

  lemma InstalledNew(w: World, setup: Setup, owner: User, slug: string, quota: int, newId: Id, c: Compiled, w': World,
                     v: Id)
    requires Rows(w, setup) && newId !in w.themes && PrivateThemes(w, owner, slug) == {}
    requires Fresh(InstallBase(w, owner, quota), owner, slug, newId, c, w', v)
    ensures Preserves(w, w', setup) && KillSwitchKept(w, w')
    ensures w'.themes.Keys == InstallBase(w, owner, quota).themes.Keys + {newId}
  {
    hide Rows, Advances, DefaultUsable, Upserted, KillSwitchKept, PrivateThemes, InstallBase, HasPending, VersionsWith;
    var base := InstallBase(w, owner, quota);
    var row := NewPrivate(slug, owner);
    var mid := base.(themes := base.themes[newId := row]);
    BaseFacts(w, setup, owner, slug, quota, newId);
    NoneOfFresh(base, setup, newId, slug, owner, c.hash);
    InsertPrivateRows(base, setup, newId, slug, owner);
    UpsertedRows(mid, setup, newId, c, w', v);
    AdvancesChain(w, base, mid);
    AdvancesChain(w, mid, w');
    if DefaultUsable(w) {
      PutThemeDefault(base, newId, row);
      UpsertedDefault(mid, newId, c, w', v);
    }
    NewKillSwitch(w, owner, slug, quota, newId, c, w', v);
  }

  lemma NewKillSwitch(w: World, owner: User, slug: string, quota: int, newId: Id, c: Compiled, w': World, v: Id)
    requires newId !in w.themes
    requires var base := InstallBase(w, owner, quota);
             VersionsWith(base.(themes := base.themes[newId := NewPrivate(slug, owner)]), newId, c.hash) == {}
    requires Fresh(InstallBase(w, owner, quota), owner, slug, newId, c, w', v)
    ensures KillSwitchKept(w, w') && w'.themes.Keys == InstallBase(w, owner, quota).themes.Keys + {newId}
  {
    var base := InstallBase(w, owner, quota);
    var mid := base.(themes := base.themes[newId := NewPrivate(slug, owner)]);
    forall u | u in w.versions && u in w'.versions ensures w'.versions[u].active == w.versions[u].active {
      if u !in base.versions {
        assert w.versions[u].theme in Reclaimable(w, owner);
      }
    }
    hide Reclaimable;
    assert HasActiveCurrent(w', newId);
  }

  lemma Upgraded(w: World, setup: Setup, t: Id, c: Compiled, mid: World, v: Id)
    requires Rows(w, setup) && t in w.themes && !HasPending(w, t) && Upserted(w, t, c, mid, v)
    ensures t in mid.themes && Preserves(w, Enable(mid, t, true), setup) && KillSwitchKept(w, Enable(mid, t, true))
  {
    hide Rows, Advances, DefaultUsable, KillSwitchKept, HasPending;
    UpsertedRows(w, setup, t, c, mid, v);
    EnabledRows(mid, setup, t, true);
    AdvancesChain(w, mid, Enable(mid, t, true));
    if DefaultUsable(w) {
      UpsertedDefault(w, t, c, mid, v);
      EnabledDefault(mid, t);
    }
    UpsertedKillSwitch(w, t, c, mid, v);
    EnabledKillSwitch(w, mid, t);
  }

  lemma EnabledKillSwitch(w: World, mid: World, t: Id)
    requires KillSwitchKept(w, mid) && t in mid.themes
    ensures KillSwitchKept(w, Enable(mid, t, true))
  {}

  lemma MakeFresh(base: World, owner: User, slug: string, t: Id, c: Compiled, w': World, v: Id)
    requires Upserted(base.(themes := base.themes[t := NewPrivate(slug, owner)]), t, c, w', v)
    ensures Fresh(base, owner, slug, t, c, w', v)
  {}

  lemma UpsertErrors(w: World, t: Id, c: Compiled)
    ensures var e := UpsertError(w, t, c); e.Some? ==> e.value != Quota && e.value != Empty && e.value != RequestPending
  {}

  lemma NewRefused(w: World, owner: User, slug: string, quota: int, newId: Id, compile: Id -> Option<Compiled>)
    requires |Owned(w, owner) - Reclaimable(w, owner)| >= quota
    ensures NewOutcome(w, owner, slug, quota, newId, compile, w, Err(Quota))
  {}

  lemma NewFailed(w: World, owner: User, slug: string, quota: int, newId: Id, compile: Id -> Option<Compiled>,
                  e: ThemeError)
    requires |Owned(w, owner) - Reclaimable(w, owner)| < quota && e != Quota
    requires compile(newId).Some?
             ==> UpsertError(Seeded(w, owner, slug, quota, newId), newId, compile(newId).value).Some?
    ensures NewOutcome(w, owner, slug, quota, newId, compile, w, Err(e))
  {}

  lemma NewDone(w: World, owner: User, slug: string, quota: int, newId: Id, compile: Id -> Option<Compiled>, w': World,
                v: Id)
    requires |Owned(w, owner) - Reclaimable(w, owner)| < quota && newId !in w.themes
    requires compile(newId).Some?
             && UpsertError(Seeded(w, owner, slug, quota, newId), newId, compile(newId).value) == None
    requires Fresh(InstallBase(w, owner, quota), owner, slug, newId, compile(newId).value, w', v)
    ensures NewOutcome(w, owner, slug, quota, newId, compile, w', Ok(Installed(newId, slug, v, false)))
  {
    hide Reclaimable, Upserted, Owned, DeleteThemes;
    FreshWithinQuota(w, owner, slug, quota, newId, compile(newId).value, w', v);
  }

  lemma FreshWithinQuota(w: World, owner: User, slug: string, quota: int, newId: Id, c: Compiled, w': World, v: Id)
    requires |Owned(w, owner) - Reclaimable(w, owner)| < quota
    requires Fresh(InstallBase(w, owner, quota), owner, slug, newId, c, w', v)
    ensures |Owned(w', owner)| <= quota
  {
    hide Reclaimable, Upserted, Owned, DeleteThemes;
    QuotaCounts(w, owner, quota);
    var base := InstallBase(w, owner, quota);
    UpsertedOwners(Seeded(w, owner, slug, quota, newId), newId, c, w', v, owner);
    InsertedOwners(base, newId, slug, owner);
    CardAtMostOneMore(Owned(w', owner), Owned(base, owner), newId);
  }

  lemma UpsertedOwners(w: World, t: Id, c: Compiled, w': World, v: Id, owner: User)
    requires Upserted(w, t, c, w', v)
    ensures Owned(w', owner) == Owned(w, owner)
  {}

  lemma InsertedOwners(w: World, t: Id, slug: string, owner: User)
    ensures Owned(w.(themes := w.themes[t := NewPrivate(slug, owner)]), owner) <= Owned(w, owner) + {t}
  {}

  lemma CardAtMostOneMore(a: set<Id>, b: set<Id>, x: Id)
    requires a <= b + {x}
    ensures |a| <= |b| + 1
  {
    if x in a {
      SubsetSize(a - {x}, b);
    } else {
      SubsetSize(a, b);
    }
  }

  lemma RemainingThemes(w: World, gone: set<Id>, t: Id)
    ensures DeleteThemes(w, gone + {t}).themes == w.themes - (gone + {t})
    ensures DeleteThemes(w, gone).themes == w.themes - gone
  {}
}
