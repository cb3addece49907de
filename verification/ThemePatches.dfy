/** Uninstalling, the kill switch and an admin's patch of a theme. */
module ThemePatches {
  import opened Prelude
  import opened ThemeModel
  import opened ThemeSteps

  // ---------------------------------------------------- uninstall, kill switch

  predicate OwnPrivate(w: World, owner: User, t: Id) {
    t in w.themes && !w.themes[t].catalog && w.themes[t].owner == Some(owner)
  }

  /** The version is the current one of the default theme. */
  predicate ServesAsDefault(w: World, v: Id) {
    exists t :: t in w.themes && w.themes[t].isDefault && w.themes[t].current == Some(v) && v in w.versions
        && w.versions[v].theme == t
  }

  lemma UninstallKeeps(w: World, setup: Setup, owner: User, t: Id)
    requires Rows(w, setup) && OwnPrivate(w, owner, t)
    ensures var w' := if Referenced(w, t) then Enable(RevokePending(w, t), t, false) else DeleteThemes(w, {t});
            Preserves(w, w', setup) && NoNewOwned(w, w')
    ensures Referenced(RevokePending(w, t), t) <==> Referenced(w, t)
    ensures RevokePending(w, t) == w.(requests := RevokePending(w, t).requests)
  {
    hide Rows, Advances, DefaultUsable, HasPending;
    if Referenced(w, t) {
      var mid := RevokePending(w, t);
      RevokedRows(w, setup, t);
      EnabledRows(mid, setup, t, false);
      AdvancesChain(w, mid, Enable(mid, t, false));
      if DefaultUsable(w) {
        SameDefault(w, mid);
        PrivateIsNotDefault(mid, t);
        DisabledDefault(mid, t);
      }
    } else {
      DeletedRows(w, setup, {t});
      if DefaultUsable(w) {
        DeletedDefault(w, {t});
      }
    }
  }

  lemma VersionHasTheme(w: World, setup: Setup, v: Id)
    requires Rows(w, setup) && v in w.versions
    ensures w.versions[v].theme in w.themes
  {}

  lemma StatusKeeps(w: World, setup: Setup, v: Id, active: bool)
    requires Rows(w, setup) && v in w.versions && (active || !ServesAsDefault(w, v))
    ensures Preserves(w, SetStatus(w, v, active), setup) && NoNewOwned(w, SetStatus(w, v, active))
  {
    StatusRows(w, setup, v, active);
    if DefaultUsable(w) && !active {
      forall t | t in w.themes && w.themes[t].isDefault ensures w.themes[t].current != Some(v) {
        assert Pointers(w.themes, w.versions);
      }
    }
    hide Rows, Advances, DefaultUsable;
    if DefaultUsable(w) {
      StatusDefault(w, v, active);
    }
  }

  // ------------------------------------------------------------ theme patches

  datatype ThemePatch = ThemePatch(enabled: Option<bool>, isDefault: Option<bool>, active: Option<bool>)

  predicate CurrentIsActive(w: World, t: Id)
    requires t in w.themes
  {
    w.themes[t].current.Some? && w.themes[t].current.value in w.versions && w.versions[w.themes[t].current.value].active
  }

  function Patched(w: World, t: Id, patch: ThemePatch): World {
    if t !in w.themes then w
    else
      var promoted := if patch.isDefault == Some(true) then Enable(MakeDefault(w, t), t, true) else w;
      var switched := if patch.enabled.Some? then Enable(promoted, t, patch.enabled.value) else promoted;
      var current := w.themes[t].current;
      if patch.active.Some? && current.Some? && current.value in w.versions
      then SetStatus(switched, current.value, patch.active.value) else switched
  }

  /** What the store itself refuses, its closing self-check included. */
  function PatchRefused(w: World, t: Id, patch: ThemePatch): Option<ThemeError> {
    if t !in w.themes then Some(NotFound)
    else
      var row := w.themes[t];
      if patch.isDefault == Some(true) && !row.catalog then Some(PrivateDefault)
      else if patch.isDefault == Some(false) && row.isDefault then Some(DefaultTheme)
      else if patch.enabled == Some(false) && row.isDefault && patch.isDefault != Some(true) then Some(DefaultTheme)
      else if patch.active == Some(false) && row.isDefault then Some(DefaultVersion)
      else if patch.active.Some? && row.current == None then Some(NoCurrentVersion)
      else if Patched(w, t, patch).themes[t].isDefault && !CurrentIsActive(Patched(w, t, patch), t)
          then Some(DefaultVersion)
      else None
  }

  /** A patch that makes a theme default and switches it off at once. */
  predicate Contradictory(patch: ThemePatch) {
    patch.isDefault == Some(true) && patch.enabled == Some(false)
  }

  /** What the service refuses before it calls the store. `seen` is the row it has
      read, in a query of its own that the store's transaction need not agree with. */
  function ServiceRefused(seen: Option<Theme>, patch: ThemePatch): Option<ThemeError> {
    if patch == ThemePatch(None, None, None) then Some(InvalidInput)
    else if Contradictory(patch) then Some(DefaultTheme)
    else if patch.isDefault == Some(true) && patch.active == Some(false) then Some(DefaultVersion)
    else if seen == None then Some(NotFound)
    else if seen.value.isDefault && patch.enabled == Some(false) && patch.isDefault != Some(false)
        then Some(DefaultTheme)
    else None
  }

  function PatchPromotes(w: World, t: Id, patch: ThemePatch): World
    requires t in w.themes
  {
    if patch.isDefault == Some(true) then Enable(MakeDefault(w, t), t, true) else w
  }

  function PatchSwitches(w: World, t: Id, patch: ThemePatch): World
    requires t in w.themes
  {
    if patch.enabled.Some? then Enable(w, t, patch.enabled.value) else w
  }

  function PatchVersion(w: World, t: Id, patch: ThemePatch): World
    requires t in w.themes
  {
    var current := w.themes[t].current;
    if patch.active.Some? && current.Some? && current.value in w.versions
    then SetStatus(w, current.value, patch.active.value) else w
  }

  lemma PatchPromotesRows(w: World, setup: Setup, t: Id, patch: ThemePatch)
    requires Rows(w, setup) && t in w.themes
    ensures Rows(PatchPromotes(w, t, patch), setup) && Advances(w, PatchPromotes(w, t, patch))
  {
    hide Rows, Advances;
    AdvancesSelf(w);
    if patch.isDefault == Some(true) {
      MadeDefaultRows(w, setup, t);
      EnabledRows(MakeDefault(w, t), setup, t, true);
      AdvancesChain(w, MakeDefault(w, t), Enable(MakeDefault(w, t), t, true));
    }
  }

  lemma PatchRows(w: World, setup: Setup, t: Id, patch: ThemePatch)
    requires Rows(w, setup) && t in w.themes
    ensures Rows(Patched(w, t, patch), setup) && Advances(w, Patched(w, t, patch))
  {
    hide Rows, Advances, PatchPromotes;
    PatchPromotesRows(w, setup, t, patch);
    PatchParts(w, t, patch);
    var w1 := PatchPromotes(w, t, patch);
    var w2 := PatchSwitches(w1, t, patch);
    AdvancesSelf(w1);
    AdvancesSelf(w2);
    if patch.enabled.Some? {
      EnabledRows(w1, setup, t, patch.enabled.value);
    }
    var current := w2.themes[t].current;
    if patch.active.Some? && current.Some? && current.value in w2.versions {
      StatusRows(w2, setup, current.value, patch.active.value);
    }
    AdvancesChain(w, w1, w2);
    AdvancesChain(w, w2, PatchVersion(w2, t, patch));
  }

  lemma PatchParts(w: World, t: Id, patch: ThemePatch)
    requires t in w.themes
    ensures var w1 := PatchPromotes(w, t, patch);
            t in w1.themes && Patched(w, t, patch) == PatchVersion(PatchSwitches(w1, t, patch), t, patch)
  {}

  lemma PatchOwners(w: World, t: Id, patch: ThemePatch)
    requires t in w.themes
    ensures NoNewOwned(w, Patched(w, t, patch))
  {
    hide Patched, MakeDefault;
    PatchParts(w, t, patch);
    DefaultOwners(w, t);
  }

  lemma DefaultOwners(w: World, t: Id)
    requires t in w.themes
    ensures MakeDefault(w, t).themes.Keys == w.themes.Keys
    ensures forall u :: u in w.themes ==> MakeDefault(w, t).themes[u].owner == w.themes[u].owner
  {}

  /** An accepted patch keeps the default usable exactly when it does not make a
      theme default and switch it off in one go; the store alone lets that by. */
  lemma PatchKeepsDefault(w: World, setup: Setup, t: Id, patch: ThemePatch)
    requires Sound(w, setup) && PatchRefused(w, t, patch) == None
    ensures DefaultUsable(Patched(w, t, patch)) <==> !Contradictory(patch)
  {
    assert Pointers(w.themes, w.versions);
    hide Rows;
    if patch.isDefault == Some(true) {
      PatchMovesDefault(w, t, patch);
    } else {
      PatchSparesDefault(w, t, patch);
    }
  }

  lemma PatchMovesDefault(w: World, t: Id, patch: ThemePatch)
    requires Pointers(w.themes, w.versions) && PatchRefused(w, t, patch) == None && patch.isDefault == Some(true)
    ensures DefaultUsable(Patched(w, t, patch)) <==> patch.enabled != Some(false)
  {
    var w' := Patched(w, t, patch);
    assert forall u :: u in w'.themes && w'.themes[u].isDefault ==> u == t;
    if patch.enabled != Some(false) {
      assert IsUsableDefault(w', t);
    }
  }

  lemma PatchSparesDefault(w: World, t: Id, patch: ThemePatch)
    requires Pointers(w.themes, w.versions) && DefaultUsable(w)
    requires PatchRefused(w, t, patch) == None && patch.isDefault != Some(true)
    ensures DefaultUsable(Patched(w, t, patch))
  {
    var d :| IsUsableDefault(w, d) && forall u :: u in w.themes && w.themes[u].isDefault ==> u == d;
    var w' := Patched(w, t, patch);
    assert IsUsableDefault(w', d);
    assert forall u :: u in w'.themes && w'.themes[u].isDefault ==> u == d;
  }

  lemma PatchKeeps(w: World, setup: Setup, t: Id, patch: ThemePatch)
    requires Rows(w, setup) && !Contradictory(patch) && PatchRefused(w, t, patch) == None
    ensures Preserves(w, Patched(w, t, patch), setup) && NoNewOwned(w, Patched(w, t, patch))
  {
    assert t in w.themes;
    hide Rows, Advances, DefaultUsable, Patched, PatchRefused;
    PatchRows(w, setup, t, patch);
    PatchOwners(w, t, patch);
    if DefaultUsable(w) {
      PatchKeepsDefault(w, setup, t, patch);
    }
  }

  /** A sound instance and a patch only the service stops. */
  lemma StoreNeedsService() returns (w: World, setup: Setup, patch: ThemePatch)
    ensures Sound(w, setup) && PatchRefused(w, 1, patch) == None && !DefaultUsable(Patched(w, 1, patch))
    ensures forall seen :: ServiceRefused(seen, patch) == Some(DefaultTheme)
  {
    setup := Setup({1}, {1}, {}, 1, map[], 3);
    w := World(map[1 := Theme("slate", true, None, true, true, Some(7))], map[7 := Version(1, 0, "", true)], map[],
        map[]);
    patch := ThemePatch(Some(false), Some(true), None);
    assert IsUsableDefault(w, 1);
    PatchKeepsDefault(w, setup, 1, patch);
  }
}
