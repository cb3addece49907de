/** What installs, patches and requests do to single rows, told by the rows. */
module ThemeLaws {
  import opened Prelude
  import opened Text
  import opened ThemeModel
  import opened ThemeInstalls
  import opened ThemePatches
  import opened ThemeCatalog

  /** The version is switched off. */
  predicate Off(versions: Versions, v: Id) {
    v in versions && !versions[v].active
  }

  lemma UpsertedOff(w: World, t: Id, c: Compiled, w': World, v: Id)
    requires Upserted(w, t, c, w', v)
    ensures forall u :: Off(w.versions, u) ==> Off(w'.versions, u) && w'.versions[u] == w.versions[u]
  {}

  /** No install, not even one that makes room by deleting abandoned themes, forgets
      a version that was switched off. */
  lemma InstallRemembers(w: World, setup: Setup, owner: User, slug: string, quota: int, newId: Id,
                         compile: Id -> Option<Compiled>, w': World, r: Result<Installed, ThemeError>)
    requires Rows(w, setup) && r.Ok? && InstallOutcome(w, owner, slug, quota, newId, compile, w', r)
    ensures forall v :: Off(w.versions, v) ==> Off(w'.versions, v) && w'.versions[v] == w.versions[v]
  {
    hide Rows, Upserted, Off, Referenced, UpsertError, Owned;
    if PrivateThemes(w, owner, slug) == {} {
      var base := InstallBase(w, owner, quota);
      BaseRemembers(w, owner, quota);
      UpsertedOff(base.(themes := base.themes[newId := NewPrivate(slug, owner)]), newId, compile(newId).value, w',
          r.value.version);
    } else {
      var t :| PrivateThemes(w, owner, slug) == {t} && UpgradeOutcome(w, t, slug, compile, w', r);
      var mid: World :| t in mid.themes && Upserted(w, t, compile(t).value, mid, r.value.version)
          && w' == Enable(mid, t, true);
      UpsertedOff(w, t, compile(t).value, mid, r.value.version);
    }
  }

  lemma BaseRemembers(w: World, owner: User, quota: int)
    ensures var base := InstallBase(w, owner, quota);
            forall v :: Off(w.versions, v) ==> Off(base.versions, v) && base.versions[v] == w.versions[v]
  {
    hide Referenced, Owned;
    forall v | Off(w.versions, v)
      ensures v in InstallBase(w, owner, quota).versions
              && InstallBase(w, owner, quota).versions[v] == w.versions[v]
    {
      assert w.versions[v].theme in w.themes ==> HasDisabledVersion(w, w.versions[v].theme);
    }
  }

  /** What making room deletes: the owner's switched-off private themes of which no
      snapshot holds a version and no version was switched off, and nothing else. */
  lemma ReclaimedAre(w: World, owner: User, t: Id)
    requires t in w.themes
    ensures t !in DeleteThemes(w, Reclaimable(w, owner)).themes <==>
            && w.themes[t].owner == Some(owner) && !w.themes[t].catalog && !w.themes[t].enabled
            && (forall s :: s in w.snapshots && w.snapshots[s] in w.versions
                  ==> w.versions[w.snapshots[s]].theme != t)
            && (forall v :: v in w.versions && w.versions[v].theme == t ==> w.versions[v].active)
  {}

  /** An accepted patch sets what it names: making a theme the default unmakes every
      other and switches the theme on; nothing it does not name is touched. */
  lemma PatchMeans(w: World, t: Id, patch: ThemePatch)
    requires PatchRefused(w, t, patch) == None
    ensures var w' := Patched(w, t, patch);
            && t in w.themes && w'.themes.Keys == w.themes.Keys && w'.versions.Keys == w.versions.Keys
            && w' == w.(themes := w'.themes, versions := w'.versions)
            && (forall u :: u in w.themes ==>
                  && w'.themes[u] == w.themes[u].(enabled := w'.themes[u].enabled, isDefault := w'.themes[u].isDefault)
                  && w'.themes[u].isDefault == (if patch.isDefault == Some(true) then u == t
                                                else w.themes[u].isDefault)
                  && w'.themes[u].enabled == (if u != t then w.themes[u].enabled
                                              else if patch.enabled.Some? then patch.enabled.value
                                              else patch.isDefault == Some(true) || w.themes[u].enabled))
            && (forall v :: v in w.versions ==>
                  w'.versions[v] == if patch.active.Some? && w.themes[t].current == Some(v)
                                    then w.versions[v].(active := patch.active.value) else w.versions[v])
  {
    assert t in w.themes;
    hide PatchRefused, Patched, MakeDefault;
    PatchParts(w, t, patch);
    PromotedThemes(w, t, patch);
    SwitchedThemes(PatchPromotes(w, t, patch), t, patch);
    SwitchedVersions(PatchSwitches(PatchPromotes(w, t, patch), t, patch), t, patch);
  }

  lemma PromotedThemes(w: World, t: Id, patch: ThemePatch)
    requires t in w.themes
    ensures var w' := PatchPromotes(w, t, patch);
            && w'.themes.Keys == w.themes.Keys && w' == w.(themes := w'.themes)
            && forall u :: u in w.themes ==>
                 && w'.themes[u].isDefault == (if patch.isDefault == Some(true) then u == t else w.themes[u].isDefault)
                 && w'.themes[u].enabled == (w.themes[u].enabled || (u == t && patch.isDefault == Some(true)))
                 && w'.themes[u] == w.themes[u].(enabled := w'.themes[u].enabled, isDefault := w'.themes[u].isDefault)
  {}

  lemma SwitchedThemes(w: World, t: Id, patch: ThemePatch)
    requires t in w.themes
    ensures var w' := PatchSwitches(w, t, patch);
            && w'.themes.Keys == w.themes.Keys && w' == w.(themes := w'.themes)
            && forall u :: u in w.themes ==>
                 w'.themes[u] == if u == t && patch.enabled.Some? then w.themes[u].(enabled := patch.enabled.value)
                                 else w.themes[u]
  {}

  lemma SwitchedVersions(w: World, t: Id, patch: ThemePatch)
    requires t in w.themes
    ensures var w' := PatchVersion(w, t, patch);
            && w'.versions.Keys == w.versions.Keys && w' == w.(versions := w'.versions)
            && forall v :: v in w.versions ==>
                 w'.versions[v] == if patch.active.Some? && w.themes[t].current == Some(v)
                                   then w.versions[v].(active := patch.active.value) else w.versions[v]
  {}

  /** A theme may be submitted exactly by the owner of a private, enabled theme with a
      version, whose name is neither reserved nor taken, and only once at a time. */
  lemma SubmittableIs(w: World, setup: Setup, owner: User, t: Id)
    ensures CreateRefused(w, setup, owner, t) == None <==>
            && t in w.themes && !w.themes[t].catalog && w.themes[t].owner == Some(owner)
            && w.themes[t].enabled && w.themes[t].current.Some?
            && (Lower(Trim(w.themes[t].slug)) == "" || Lower(Trim(w.themes[t].slug)) !in setup.names)
            && (forall u :: u in w.themes && u != t && w.themes[u].catalog ==> w.themes[u].slug != w.themes[t].slug)
            && (forall q :: q in w.requests && w.requests[q].theme == t ==> !w.requests[q].status.Pending?)
  {
    hide Lower, Trim;
  }
}
