/** Each elementary write of the theme tables keeps the invariants, under the
    guard its caller checks. */
module ThemeSteps {
  import opened Prelude
  import opened ThemeModel

  // ------------------------------------------------------------------- themes

  lemma InsertPrivateRows(w: World, setup: Setup, t: Id, slug: string, owner: User)
    requires Rows(w, setup) && t !in w.themes
    requires forall u :: u in w.themes && w.themes[u].owner == Some(owner) ==> w.themes[u].slug != slug
    ensures var w' := w.(themes := w.themes[t := NewPrivate(slug, owner)]); Rows(w', setup) && Advances(w, w')
  {
    hide RequestsOwned, SnapshotsHeld;
    var themes := w.themes[t := NewPrivate(slug, owner)];
    assert themes.Keys == w.themes.Keys + {t};
    hide VersionsOwned, PendingFaithful, Reserved;
  }

  /** Rewriting a row without moving its pointer, scope or slug. */
  lemma PutThemeRows(w: World, setup: Setup, t: Id, row: Theme)
    requires Rows(w, setup) && t in w.themes
    requires row.slug == w.themes[t].slug && row.catalog == w.themes[t].catalog && row.owner == w.themes[t].owner
    requires row.current == w.themes[t].current || !HasPending(w, t)
    requires row.current.Some? ==> row.current.value in w.versions && w.versions[row.current.value].theme == t
    ensures var w' := w.(themes := w.themes[t := row]); Rows(w', setup) && Advances(w, w')
  {
    hide RequestsOwned, SnapshotsHeld, VersionsOwned, PendingFaithful;
    assert w.themes[t := row].Keys == w.themes.Keys;
    PutThemePending(w, t, row);
    hide Reserved, HasPending;
  }

  lemma PutThemePending(w: World, t: Id, row: Theme)
    requires PendingFaithful(w.themes, w.requests) && t in w.themes
    requires row.catalog == w.themes[t].catalog && row.owner == w.themes[t].owner
    requires row.current == w.themes[t].current || !HasPending(w, t)
    ensures PendingFaithful(w.themes[t := row], w.requests)
  {}

  lemma PutThemeDefault(w: World, t: Id, row: Theme)
    requires DefaultUsable(w)
             && (t in w.themes ==> row.catalog == w.themes[t].catalog && row.isDefault == w.themes[t].isDefault)
    requires t !in w.themes ==> !row.isDefault
    requires row.isDefault ==>
               row.enabled && row.current.Some? && row.current.value in w.versions
               && w.versions[row.current.value].theme == t && w.versions[row.current.value].active
    ensures DefaultUsable(w.(themes := w.themes[t := row]))
  {
    var w' := w.(themes := w.themes[t := row]);
    var d :| IsUsableDefault(w, d) && forall u :: u in w.themes && w.themes[u].isDefault ==> u == d;
    assert IsUsableDefault(w', d);
    assert forall u :: u in w'.themes && w'.themes[u].isDefault ==> u == d;
  }

  lemma PromotedRows(w: World, setup: Setup, t: Id)
    requires Rows(w, setup) && t in w.themes && !HasPending(w, t)
    requires !Reserved(setup, w.themes[t].slug) && !CatalogSlugTaken(w, w.themes[t].slug, t)
    ensures Rows(Promote(w, t), setup) && Advances(w, Promote(w, t))
  {
    hide RequestsOwned, SnapshotsHeld, VersionsOwned, PendingFaithful;
    assert Promote(w, t).themes.Keys == w.themes.Keys;
    PromotedPending(w, t);
    hide Reserved, HasPending, SlugsDistinct;
  }

  lemma PromotedPending(w: World, t: Id)
    requires PendingFaithful(w.themes, w.requests) && t in w.themes && !HasPending(w, t)
    ensures PendingFaithful(Promote(w, t).themes, w.requests)
  {}

  lemma PromotedDefault(w: World, t: Id)
    requires DefaultUsable(w) && t in w.themes && !w.themes[t].catalog
    ensures DefaultUsable(Promote(w, t))
  {
    var d :| IsUsableDefault(w, d) && forall u :: u in w.themes && w.themes[u].isDefault ==> u == d;
    assert IsUsableDefault(Promote(w, t), d);
  }

  lemma MadeDefaultRows(w: World, setup: Setup, t: Id)
    requires Rows(w, setup) && t in w.themes
    ensures Rows(MakeDefault(w, t), setup) && Advances(w, MakeDefault(w, t))
  {
    hide RequestsOwned, SnapshotsHeld, VersionsOwned, PendingFaithful, SlugsDistinct;
    assert MakeDefault(w, t).themes.Keys == w.themes.Keys;
    MadeDefaultPending(w, t);
    MadeDefaultSlugs(w, t);
    hide Reserved;
  }

  lemma MadeDefaultPending(w: World, t: Id)
    requires PendingFaithful(w.themes, w.requests) && t in w.themes
    ensures PendingFaithful(MakeDefault(w, t).themes, w.requests)
  {}

  lemma MadeDefaultSlugs(w: World, t: Id)
    requires SlugsDistinct(w.themes) && t in w.themes
    ensures SlugsDistinct(MakeDefault(w, t).themes)
  {}

  /** Clearing the old default and setting an eligible catalog theme. */
  lemma MadeDefaultUsable(w: World, t: Id)
    requires t in w.themes && w.themes[t].catalog && w.themes[t].enabled && HasActiveCurrent(w, t)
    ensures DefaultUsable(MakeDefault(w, t))
  {
    assert IsUsableDefault(MakeDefault(w, t), t);
  }

  // ----------------------------------------------------------------- versions

  lemma InsertVersionRows(w: World, setup: Setup, v: Id, row: Version)
    requires Rows(w, setup) && v !in w.versions && row.theme in w.themes && VersionsWith(w, row.theme, row.hash) == {}
    ensures var w' := w.(versions := w.versions[v := row]); Rows(w', setup) && Advances(w, w')
  {
    hide Scopes, SlugsDistinct, CatalogKept, PendingFaithful, VersionsOwned, Pointers;
    InsertVersionOwned(w, v, row);
    InsertVersionPointers(w.themes, w.versions, v, row);
  }

  lemma InsertVersionOwned(w: World, v: Id, row: Version)
    requires VersionsOwned(w.themes.Keys, w.versions) && row.theme in w.themes
             && VersionsWith(w, row.theme, row.hash) == {}
    ensures VersionsOwned(w.themes.Keys, w.versions[v := row])
  {
    assert forall u :: u in w.versions && w.versions[u].theme == row.theme && w.versions[u].hash == row.hash
            ==> u in VersionsWith(w, row.theme, row.hash);
  }

  lemma InsertVersionPointers(themes: Themes, versions: Versions, v: Id, row: Version)
    requires Pointers(themes, versions) && v !in versions
    ensures Pointers(themes, versions[v := row])
  {}

  lemma EnabledRows(w: World, setup: Setup, t: Id, enabled: bool)
    requires Rows(w, setup) && t in w.themes
    ensures Rows(Enable(w, t, enabled), setup) && Advances(w, Enable(w, t, enabled))
  {
    hide Advances, Scopes, SlugsDistinct, CatalogKept, VersionsOwned, RequestsOwned, PendingFaithful, SnapshotsHeld;
    assert Pointers(w.themes, w.versions);
    hide Rows;
    PutThemeRows(w, setup, t, w.themes[t].(enabled := enabled));
  }

  lemma EnabledDefault(w: World, t: Id)
    requires DefaultUsable(w) && t in w.themes
    ensures DefaultUsable(Enable(w, t, true))
  {
    var d :| IsUsableDefault(w, d) && forall u :: u in w.themes && w.themes[u].isDefault ==> u == d;
    assert IsUsableDefault(Enable(w, t, true), d);
  }

  lemma DisabledDefault(w: World, t: Id)
    requires DefaultUsable(w) && t in w.themes && !w.themes[t].isDefault
    ensures DefaultUsable(Enable(w, t, false))
  {
    var d :| IsUsableDefault(w, d) && forall u :: u in w.themes && w.themes[u].isDefault ==> u == d;
    assert IsUsableDefault(Enable(w, t, false), d);
  }

  lemma PrivateIsNotDefault(w: World, t: Id)
    requires DefaultUsable(w) && t in w.themes && !w.themes[t].catalog
    ensures !w.themes[t].isDefault
  {}

  lemma StatusRows(w: World, setup: Setup, v: Id, active: bool)
    requires Rows(w, setup) && v in w.versions
    ensures Rows(SetStatus(w, v, active), setup) && Advances(w, SetStatus(w, v, active))
  {
    hide Scopes, SlugsDistinct, CatalogKept, PendingFaithful, VersionsOwned;
    assert SetStatus(w, v, active).versions.Keys == w.versions.Keys;
    StatusOwned(w, v, active);
  }

  lemma StatusOwned(w: World, v: Id, active: bool)
    requires VersionsOwned(w.themes.Keys, w.versions) && v in w.versions
    ensures VersionsOwned(w.themes.Keys, SetStatus(w, v, active).versions)
  {}

  lemma StatusDefault(w: World, v: Id, active: bool)
    requires DefaultUsable(w) && v in w.versions
    requires active || forall t :: t in w.themes && w.themes[t].isDefault ==> w.themes[t].current != Some(v)
    ensures DefaultUsable(SetStatus(w, v, active))
  {
    var d :| IsUsableDefault(w, d) && forall u :: u in w.themes && w.themes[u].isDefault ==> u == d;
    assert IsUsableDefault(SetStatus(w, v, active), d);
  }

  /** upsertVersionTx: a new or known version becomes current unless disabled. */
  lemma UpsertedRows(w: World, setup: Setup, t: Id, c: Compiled, w': World, v: Id)
    requires Rows(w, setup) && Upserted(w, t, c, w', v) && !HasPending(w, t)
    ensures Rows(w', setup) && Advances(w, w')
  {
    hide Rows, Advances;
    if VersionsWith(w, t, c.hash) == {} {
      var row := Version(t, c.hash, c.css, true);
      var w1 := w.(versions := w.versions[v := row]);
      InsertVersionRows(w, setup, v, row);
      PutThemeRows(w1, setup, t, w1.themes[t].(current := Some(v)));
      AdvancesChain(w, w1, w');
    } else if w.versions[v].active {
      PutThemeRows(w, setup, t, w.themes[t].(current := Some(v)));
    } else {
      AdvancesSelf(w);
    }
  }

  lemma AdvancesSelf(w: World)
    ensures Advances(w, w)
  {}

  lemma AdvancesChain(a: World, b: World, c: World)
    requires Advances(a, b) && Advances(b, c)
    ensures Advances(a, c)
  {}

  lemma UpsertedDefault(w: World, t: Id, c: Compiled, w': World, v: Id)
    requires DefaultUsable(w) && Upserted(w, t, c, w', v)
    ensures DefaultUsable(w')
  {
    var d :| IsUsableDefault(w, d) && forall u :: u in w.themes && w.themes[u].isDefault ==> u == d;
    assert IsUsableDefault(w', d);
  }

  /** A re-import never revives a disabled version. */
  lemma UpsertedKillSwitch(w: World, t: Id, c: Compiled, w': World, v: Id)
    requires Upserted(w, t, c, w', v)
    ensures KillSwitchKept(w, w')
  {}

  // ----------------------------------------------------------------- deletion

  lemma DeletedRows(w: World, setup: Setup, gone: set<Id>)
    requires Rows(w, setup)
    requires forall t :: t in gone && t in w.themes ==> !w.themes[t].catalog && !Referenced(w, t)
    ensures Rows(DeleteThemes(w, gone), setup) && Advances(w, DeleteThemes(w, gone))
  {
    DeletedSnapshots(w, gone);
    DeletedRequests(w, gone);
    hide Advances, VersionsOwned, RequestsOwned, PendingFaithful, SnapshotsHeld, Reserved;
  }

  lemma DeletedSnapshots(w: World, gone: set<Id>)
    requires SnapshotsHeld(w.versions.Keys, w.snapshots) && VersionsOwned(w.themes.Keys, w.versions)
    requires forall t :: t in gone && t in w.themes ==> !Referenced(w, t)
    ensures SnapshotsHeld(DeleteThemes(w, gone).versions.Keys, w.snapshots) && Advances(w, DeleteThemes(w, gone))
  {
    forall s | s in w.snapshots && w.snapshots[s] in w.versions
      ensures w.snapshots[s] in DeleteThemes(w, gone).versions
    {
      if w.versions[w.snapshots[s]].theme in gone {
        assert Referenced(w, w.versions[w.snapshots[s]].theme);
      }
    }
  }

  lemma DeletedRequests(w: World, gone: set<Id>)
    requires RequestsOwned(w.versions, w.requests) && PendingFaithful(w.themes, w.requests)
    ensures RequestsOwned(DeleteThemes(w, gone).versions, DeleteThemes(w, gone).requests)
    ensures PendingFaithful(DeleteThemes(w, gone).themes, DeleteThemes(w, gone).requests)
  {}

  lemma DeletedDefault(w: World, gone: set<Id>)
    requires DefaultUsable(w)
    requires forall t :: t in gone && t in w.themes ==> !w.themes[t].catalog
    ensures DefaultUsable(DeleteThemes(w, gone))
  {
    var d :| IsUsableDefault(w, d) && forall u :: u in w.themes && w.themes[u].isDefault ==> u == d;
    assert IsUsableDefault(DeleteThemes(w, gone), d);
  }

  // ------------------------------------------------------ requests, snapshots

  lemma RevokedRows(w: World, setup: Setup, t: Id)
    requires Rows(w, setup)
    ensures Rows(RevokePending(w, t), setup) && Advances(w, RevokePending(w, t))
    ensures !HasPending(RevokePending(w, t), t)
  {
    hide Scopes, SlugsDistinct, CatalogKept, VersionsOwned, Pointers, SnapshotsHeld;
  }

  lemma SettledRows(w: World, setup: Setup, q: Id, status: RequestStatus)
    requires Rows(w, setup) && q in w.requests && !status.Pending?
    ensures Rows(Settle(w, q, status), setup) && Advances(w, Settle(w, q, status))
    ensures w.requests[q].status.Pending? ==> !HasPending(Settle(w, q, status), w.requests[q].theme)
  {
    hide Scopes, SlugsDistinct, CatalogKept, VersionsOwned, Pointers, SnapshotsHeld;
  }

  lemma RequestedRows(w: World, setup: Setup, q: Id, r: Request)
    requires Rows(w, setup) && q !in w.requests && r.status.Pending?
    requires Submitted(w.themes, r) && !HasPending(w, r.theme)
    ensures var w' := w.(requests := w.requests[q := r]); Rows(w', setup) && Advances(w, w')
  {
    hide Scopes, SlugsDistinct, CatalogKept, VersionsOwned, SnapshotsHeld;
  }

  lemma PublishedRows(w: World, setup: Setup, s: Id, v: Id)
    requires Rows(w, setup) && s !in w.snapshots && v in w.versions
    ensures var w' := w.(snapshots := w.snapshots[s := v]); Rows(w', setup) && Advances(w, w')
  {
    hide Scopes, SlugsDistinct, CatalogKept, VersionsOwned, Pointers, RequestsOwned, PendingFaithful;
  }

  /** Default usability only looks at themes and versions. */
  lemma SameDefault(w: World, w': World)
    requires DefaultUsable(w) && w'.themes == w.themes && w'.versions == w.versions
    ensures DefaultUsable(w')
  {
    var d :| IsUsableDefault(w, d) && forall u :: u in w.themes && w.themes[u].isDefault ==> u == d;
    assert IsUsableDefault(w', d);
  }
}
