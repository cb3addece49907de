/** internal/themes, internal/admin and internal/themecatalog: the transactions
    over the theme tables. An error leaves the rows as they were. */
module ThemeStore {
  import opened Prelude
  import opened Text
  import opened ThemeModel
  import opened ThemeInstalls
  import opened ThemePatches
  import opened ThemeCatalog
  import opened ThemeRuns

  class Store {
    var themes: Themes
    var versions: Versions
    var requests: map<Id, Request>
    var snapshots: map<Id, Id>
    const setup: Setup

    function State(): World
      reads this
    {
      World(themes, versions, requests, snapshots)
    }

    ghost predicate Valid()
      reads this
    {
      Rows(State(), setup)
    }

    /** Rollback. */
    method Restore(w: World)
      modifies this
      ensures State() == w
    {
      themes, versions, requests, snapshots := w.themes, w.versions, w.requests, w.snapshots;
    }

    method UpsertVersionTx(t: Id, c: Compiled) returns (r: Result<Id, ThemeError>)
      modifies this`themes, this`versions
      ensures r.Err? <==> UpsertError(old(State()), t, c).Some?
      ensures r.Err? ==> UpsertError(old(State()), t, c) == Some(r.error) && State() == old(State())
      ensures r.Ok? ==> Upserted(old(State()), t, c, State(), r.value)
    {
      if !c.complete { return Err(Malformed); }
      if t !in themes { return Err(NotFound); }
      var v := c.version;
      if VersionsWith(State(), t, c.hash) == {} {
        if c.version in versions { return Err(Taken); }
        versions := versions[v := Version(t, c.hash, c.css, true)];
      } else {
        v :| v in VersionsWith(State(), t, c.hash);
      }
      if !versions[v].active { return Ok(v); }
      themes := themes[t := themes[t].(current := Some(v))];
      return Ok(v);
    }

    /** Detach the pointer, then delete versions and row; requests cascade. */
    method DeleteThemeTx(t: Id)
      requires t in themes
      modifies this
      ensures State() == DeleteThemes(old(State()), {t})
    {
      themes := themes[t := themes[t].(current := None)];
      versions := map v | v in versions && versions[v].theme != t :: versions[v];
      requests := map q | q in requests && requests[q].theme != t :: requests[q];
      themes := themes - {t};
    }

    /** reclaimTombstones: deletes exactly the reclaimable themes. */
    method ReclaimTombstones(owner: User) returns (reclaimed: nat)
      modifies this
      ensures State() == DeleteThemes(old(State()), Reclaimable(old(State()), owner))
      ensures reclaimed == |Reclaimable(old(State()), owner)|
    {
      hide DeleteThemes, Referenced, HasDisabledVersion;
      ghost var w := State();
      var rest := set t | t in themes && Tombstone(State(), owner, t);
      ghost var gone: set<Id> := {};
      reclaimed := 0;
      DeleteNone(w);
      while rest != {}
        invariant State() == DeleteThemes(w, gone) && reclaimed == |gone|
        invariant gone <= Reclaimable(w, owner) && gone !! rest
        invariant forall t :: t in rest ==> t in themes && Tombstone(w, owner, t)
        invariant forall t :: t in Reclaimable(w, owner) ==> t in gone || t in rest
        decreases rest
      {
        var t :| t in rest;
        rest := rest - {t};
        OthersUntouched(w, gone, t);
        if Referenced(State(), t) || HasDisabledVersion(State(), t) {
          continue;
        }
        DeleteMore(w, gone, t);
        RemainingThemes(w, gone, t);
        DeleteThemeTx(t);
        gone := gone + {t};
        reclaimed := reclaimed + 1;
      }
      assert gone == Reclaimable(w, owner);
    }

    /** InstallPrivate: a new theme, or the same owner's theme of that name upgraded. */
    method InstallPrivate(owner: User, name: string, newId: Id, compile: Id -> Option<Compiled>)
      returns (r: Result<Installed, ThemeError>)
      requires Valid() && newId !in themes
      modifies this
      ensures Step(old(State()), State(), setup)
      ensures Preserves(old(State()), State(), setup) && KillSwitchKept(old(State()), State())
      ensures r.Err? ==> State() == old(State())
      ensures r == Err(Empty) <==> Trim(name) == ""
      ensures Trim(name) != ""
              ==> InstallOutcome(old(State()), owner, Trim(name), setup.quota, newId, compile, State(), r)
    {
      hide Rows, Preserves, KillSwitchKept, NewOutcome, UpgradeOutcome, Upserted, Reclaimable, Step;
      ghost var w := State();
      Unchanged(w, setup);
      Idle(w, setup);
      var slug := Trim(name);
      if slug == "" { return Err(Empty); }
      var found := PrivateThemes(State(), owner, slug);
      if found == {} {
        r := InstallNew(owner, slug, newId, compile);
      } else {
        var t :| t in found;
        r := Upgrade(owner, slug, t, compile);
        OneOfAName(w, setup, owner, slug, t);
      }
    }

    method InstallNew(owner: User, slug: string, newId: Id, compile: Id -> Option<Compiled>)
      returns (r: Result<Installed, ThemeError>)
      requires Valid() && newId !in themes && PrivateThemes(State(), owner, slug) == {} && slug != ""
      modifies this
      ensures Step(old(State()), State(), setup)
      ensures Preserves(old(State()), State(), setup) && KillSwitchKept(old(State()), State())
      ensures r.Err? ==> State() == old(State()) && r.error != Empty
      ensures NewOutcome(old(State()), owner, slug, setup.quota, newId, compile, State(), r)
    {
      hide Rows, Preserves, KillSwitchKept, Upserted, PrivateThemes, Reclaimable, DeleteThemes, Owned, NewOutcome,
           UpsertError, Fresh, VersionsWith, Step;
      ghost var w := State();
      var saved, quota := State(), setup.quota;
      Unchanged(w, setup);
      Idle(w, setup);
      QuotaCounts(w, owner, quota);
      var owned := |Owned(State(), owner)|;
      if owned >= quota {
        var n := ReclaimTombstones(owner);
        owned := |Owned(State(), owner)|;
        if owned >= quota {
          Restore(saved);
          NewRefused(w, owner, slug, quota, newId, compile);
          return Err(Quota);
        }
      }
      var compiled := compile(newId);
      if compiled.None? {
        Restore(saved);
        NewFailed(w, owner, slug, quota, newId, compile, CompileFailed);
        return Err(CompileFailed);
      }
      ghost var base := State();
      BaseFacts(w, setup, owner, slug, quota, newId);
      themes := themes[newId := NewPrivate(slug, owner)];
      var v := UpsertVersionTx(newId, compiled.value);
      if v.Err? {
        Restore(saved);
        UpsertErrors(base.(themes := base.themes[newId := NewPrivate(slug, owner)]), newId, compiled.value);
        NewFailed(w, owner, slug, quota, newId, compile, v.error);
        return Err(v.error);
      }
      MakeFresh(base, owner, slug, newId, compiled.value, State(), v.value);
      InstalledNew(w, setup, owner, slug, quota, newId, compiled.value, State(), v.value);
      NewDone(w, owner, slug, quota, newId, compile, State(), v.value);
      IsStep(w, Action.Install(owner, slug, newId, compiled.value, v.value), State(), setup);
      return Ok(Installed(newId, slug, v.value, false));
    }

    method Upgrade(owner: User, slug: string, t: Id, compile: Id -> Option<Compiled>)
      returns (r: Result<Installed, ThemeError>)
      requires Valid() && t in PrivateThemes(State(), owner, slug) && slug != ""
      modifies this
      ensures Step(old(State()), State(), setup)
      ensures Preserves(old(State()), State(), setup) && KillSwitchKept(old(State()), State())
      ensures r.Err? ==> State() == old(State()) && r.error != Empty && r.error != Quota
      ensures UpgradeOutcome(old(State()), t, slug, compile, State(), r)
    {
      hide Rows, Preserves, KillSwitchKept, Upserted, HasPending, Step;
      ghost var w := State();
      var saved := State();
      Unchanged(w, setup);
      Idle(w, setup);
      if HasPending(State(), t) { return Err(RequestPending); }
      var compiled := compile(t);
      if compiled.None? { return Err(CompileFailed); }
      var v := UpsertVersionTx(t, compiled.value);
      if v.Err? { return Err(v.error); }
      Upgraded(w, setup, t, compiled.value, State(), v.value);
      ghost var mid := State();
      themes := themes[t := themes[t].(enabled := true)];
      assert UpgradeTo(w, t, compiled.value, v.value, State()) by {
        assert State() == Enable(mid, t, true);
      }
      IsStep(w, Action.Upgrade(owner, slug, t, compiled.value, v.value), State(), setup);
      return Ok(Installed(t, slug, v.value, true));
    }

    /** UninstallPrivate: deleted outright, or kept as a tombstone while a
        published snapshot holds one of its versions. */
    method UninstallPrivate(owner: User, t: Id) returns (r: Result<bool, ThemeError>)
      requires Valid()
      modifies this
      ensures Step(old(State()), State(), setup)
      ensures Preserves(old(State()), State(), setup) && NoNewOwned(old(State()), State())
      ensures if !OwnPrivate(old(State()), owner, t) then r == Err(NotFound) && State() == old(State())
              else && r == Ok(!Referenced(old(State()), t))
                   && State() == if Referenced(old(State()), t) then Enable(RevokePending(old(State()), t), t, false)
                                 else DeleteThemes(old(State()), {t})
    {
      hide Rows, Preserves, NoNewOwned, RevokePending, DeleteThemes, Referenced, Step;
      ghost var w := State();
      Unchanged(w, setup);
      Idle(w, setup);
      if !OwnPrivate(State(), owner, t) { return Err(NotFound); }
      UninstallKeeps(w, setup, owner, t);
      IsStep(w, Uninstall(owner, t), Uninstalled(w, t), setup);
      requests := RevokePending(State(), t).requests;
      if Referenced(State(), t) {
        themes := themes[t := themes[t].(enabled := false)];
        return Ok(false);
      }
      RevokeThenDelete(w, t);
      DeleteThemeTx(t);
      return Ok(true);
    }

    /** SetVersionStatus: the kill switch of one version. */
    method SetVersionStatus(v: Id, active: bool) returns (r: Result<(), ThemeError>)
      requires Valid()
      modifies this
      ensures Step(old(State()), State(), setup)
      ensures Preserves(old(State()), State(), setup) && NoNewOwned(old(State()), State())
      ensures r.Err? ==> State() == old(State())
      ensures r == if v !in old(versions) then Err(NotFound)
                   else if !active && ServesAsDefault(old(State()), v) then Err(DefaultVersion) else Result.Ok(())
      ensures r.Ok? ==> State() == SetStatus(old(State()), v, active)
    {
      hide Rows, Preserves, NoNewOwned, Step;
      ghost var w := State();
      Unchanged(w, setup);
      Idle(w, setup);
      if v !in versions { return Err(NotFound); }
      VersionHasTheme(w, setup, v);
      var t := versions[v].theme;
      if !active && themes[t].isDefault && themes[t].current == Some(v) { return Err(DefaultVersion); }
      StatusKeeps(w, setup, v, active);
      IsStep(w, SwitchVersion(v, active), SetStatus(w, v, active), setup);
      versions := versions[v := versions[v].(active := active)];
      return Result.Ok(());
    }

    /** The store's half of a theme patch. */
    method PatchTheme(t: Id, patch: ThemePatch) returns (r: Result<(), ThemeError>)
      requires Valid()
      modifies this
      ensures r == (if PatchRefused(old(State()), t, patch).Some? then Err(PatchRefused(old(State()), t, patch).value)
              else Result.Ok(()))
      ensures State() == if r.Ok? then Patched(old(State()), t, patch) else old(State())
    {
      hide Rows;
      if t !in themes { return Err(NotFound); }
      var saved := State();
      var currentDefault, current := themes[t].isDefault, themes[t].current;
      if patch.isDefault == Some(true) && !themes[t].catalog { return Err(PrivateDefault); }
      if patch.isDefault == Some(true) {
        themes := map u | u in themes :: if themes[u].isDefault && u != t then themes[u].(isDefault := false)
            else themes[u];
        themes := themes[t := themes[t].(isDefault := true, enabled := true)];
        assert themes == Enable(MakeDefault(saved, t), t, true).themes;
      } else if patch.isDefault == Some(false) && currentDefault {
        return Err(DefaultTheme);
      }
      if patch.enabled.Some? {
        if currentDefault && !patch.enabled.value && patch.isDefault != Some(true) {
          return Err(DefaultTheme);
        }
        themes := themes[t := themes[t].(enabled := patch.enabled.value)];
      }
      if patch.active.Some? {
        if currentDefault && !patch.active.value {
          Restore(saved);
          return Err(DefaultVersion);
        }
        if current == None {
          Restore(saved);
          return Err(NoCurrentVersion);
        }
        if current.value in versions {
          versions := versions[current.value := versions[current.value].(active := patch.active.value)];
        }
      }
      if themes[t].isDefault && !CurrentIsActive(State(), t) {
        Restore(saved);
        return Err(DefaultVersion);
      }
      return Result.Ok(());
    }

    /** admin.Service.UpdateTheme: the cross-field guards on whatever row was read
        before, then the store's transaction. */
    method UpdateTheme(t: Id, patch: ThemePatch, seen: Option<Theme>) returns (r: Result<(), ThemeError>)
      requires Valid()
      modifies this
      ensures Step(old(State()), State(), setup)
      ensures Preserves(old(State()), State(), setup) && NoNewOwned(old(State()), State())
      ensures r.Err? ==> State() == old(State())
      ensures r.Ok? <==> ServiceRefused(seen, patch) == None && PatchRefused(old(State()), t, patch) == None
      ensures r.Ok? ==> State() == Patched(old(State()), t, patch)
    {
      hide Rows, Preserves, NoNewOwned, PatchRefused, Patched, Step;
      ghost var w := State();
      Unchanged(w, setup);
      Idle(w, setup);
      if patch == ThemePatch(None, None, None) { return Err(InvalidInput); }
      if patch.isDefault == Some(true) && patch.enabled == Some(false) { return Err(DefaultTheme); }
      if patch.isDefault == Some(true) && patch.active == Some(false) { return Err(DefaultVersion); }
      if seen == None { return Err(NotFound); }
      if seen.value.isDefault && patch.enabled == Some(false) && patch.isDefault != Some(false) {
        return Err(DefaultTheme);
      }
      r := PatchTheme(t, patch);
      if r.Ok? {
        PatchKeeps(w, setup, t, patch);
        IsStep(w, Patch(t, patch), State(), setup);
      }
    }

    // ------------------------------------------------------ catalog requests

    /** themecatalog.Create */
    method CreateRequest(q: Id, owner: User, t: Id) returns (r: Result<(), ThemeError>)
      requires Valid() && q !in requests
      modifies this
      ensures Step(old(State()), State(), setup)
      ensures Preserves(old(State()), State(), setup) && NoNewOwned(old(State()), State())
      ensures r == (if CreateRefused(old(State()), setup, owner, t).Some?
              then Err(CreateRefused(old(State()), setup, owner, t).value) else Result.Ok(()))
      ensures r.Ok? ==> old(themes)[t].current.Some?
                        && State() == old(State()).(requests := old(requests)[q := Request(t, owner,
                            old(themes)[t].current.value, Pending)])
      ensures r.Err? ==> State() == old(State())
    {
      hide Rows, Preserves, NoNewOwned, HasPending, CatalogSlugTaken, Reserved, Step;
      ghost var w := State();
      Unchanged(w, setup);
      Idle(w, setup);
      if t !in themes { return Err(NotFound); }
      var row := themes[t];
      if row.catalog || row.owner == None || row.owner != Some(owner) { return Err(NotFound); }
      if !row.enabled || row.current == None { return Err(NotEligible); }
      if Reserved(setup, row.slug) { return Err(ReservedSlug); }
      if CatalogSlugTaken(State(), row.slug, t) { return Err(SlugConflict); }
      if HasPending(State(), t) { return Err(Taken); }
      CreateKeeps(w, setup, owner, t, q);
      IsStep(w, Submit(q, owner, t), Submission(w, q, owner, t), setup);
      requests := requests[q := Request(t, owner, row.current.value, Pending)];
      return Result.Ok(());
    }

    method CancelPending(owner: User, t: Id) returns (r: Result<Id, ThemeError>)
      requires Valid()
      modifies this
      ensures Step(old(State()), State(), setup)
      ensures Preserves(old(State()), State(), setup) && NoNewOwned(old(State()), State())
      ensures r.Err? <==> PendingOf(old(State()), owner, t) == {}
      ensures r.Err? ==> r.error == NotFound && State() == old(State())
      ensures r.Ok?
              ==> r.value in PendingOf(old(State()), owner, t) && State() == Settle(old(State()), r.value, Revoked)
    {
      hide Rows, Preserves, NoNewOwned, Step;
      ghost var w := State();
      Unchanged(w, setup);
      Idle(w, setup);
      var found := PendingOf(State(), owner, t);
      if found == {} { return Err(NotFound); }
      var q :| q in found;
      SettleKeeps(w, setup, q, Revoked);
      IsStep(w, Close(q, Revoked), Settle(w, q, Revoked), setup);
      requests := requests[q := requests[q].(status := Revoked)];
      return Ok(q);
    }

    /** themecatalog.Review: an approval promotes exactly the submitted version. */
    method Review(q: Id, approve: bool) returns (r: Result<(), ThemeError>)
      requires Valid()
      modifies this
      ensures Step(old(State()), State(), setup)
      ensures Preserves(old(State()), State(), setup) && NoNewOwned(old(State()), State())
      ensures r.Err? ==> State() == old(State())
      ensures !approve ==> (r.Ok? <==> q in old(requests) && old(requests)[q].status.Pending?)
      ensures !approve && r.Ok? ==> State() == Settle(old(State()), q, Rejected)
      ensures approve ==> (r.Ok? <==> Approvable(old(State()), setup, q))
      ensures approve && r.Ok? ==>
                var t, v := old(requests)[q].theme, old(requests)[q].version;
                && State() == Settle(Promote(old(State()), t), q, Approved)
                && t in themes && themes[t].catalog && themes[t].current == Some(v) && HasActiveCurrent(State(), t)
    {
      hide Rows, Preserves, NoNewOwned, CatalogSlugTaken, Reserved, Step;
      ghost var w := State();
      Unchanged(w, setup);
      Idle(w, setup);
      if q !in requests { return Err(NotFound); }
      if !requests[q].status.Pending? { return Err(Transition); }
      var t, v := requests[q].theme, requests[q].version;
      SubmittedIsCurrent(w, setup, q);
      if approve {
        if !themes[t].enabled { return Err(Transition); }
        if themes[t].current == None || themes[t].current != Some(v) { return Err(Transition); }
        if !versions[v].active { return Err(Transition); }
        if Reserved(setup, themes[t].slug) { return Err(ReservedSlug); }
        if CatalogSlugTaken(State(), themes[t].slug, t) { return Err(SlugConflict); }
        ApproveKeeps(w, setup, q);
        IsStep(w, Approve(q), Settle(Promote(w, t), q, Approved), setup);
        themes := themes[t := themes[t].(catalog := true, owner := None)];
        requests := requests[q := requests[q].(status := Approved)];
        return Result.Ok(());
      }
      SettleKeeps(w, setup, q, Rejected);
      IsStep(w, Close(q, Rejected), Settle(w, q, Rejected), setup);
      requests := requests[q := requests[q].(status := Rejected)];
      return Result.Ok(());
    }

    // --------------------------------------------------------- default theme

    method AssertDefaultThemeUsable() returns (ok: bool)
      ensures ok <==> DefaultUsable(State())
    {
      hide DefaultUsable;
      OneDefault(State());
      var defaults := Defaults(State());
      if |defaults| != 1 { return false; }
      var d: Id :| d in defaults;
      TheDefault(State(), d);
      return IsUsableDefault(State(), d);
    }

    /** EnsureDefaultTheme: heals from any state with one eligible catalog theme. */
    method EnsureDefaultTheme() returns (ok: bool)
      requires Valid()
      modifies this`themes
      ensures Step(old(State()), State(), setup)
      ensures Preserves(old(State()), State(), setup) && NoNewOwned(old(State()), State())
              && KillSwitchKept(old(State()), State())
      ensures ok <==> DefaultUsable(State())
      ensures themes.Keys == old(themes).Keys
      ensures ok <==> DefaultUsable(old(State())) || EligibleCatalog(old(State())) != {}
      ensures !ok || DefaultUsable(old(State())) ==> State() == old(State())
      ensures ok && !DefaultUsable(old(State()))
              ==> State() == MakeDefault(old(State()), Replacement(old(State()), setup))
    {
      hide Rows, Preserves, NoNewOwned, KillSwitchKept, DefaultUsable, EligibleCatalog, Replacement, MakeDefault, Step;
      ghost var w := State();
      Unchanged(w, setup);
      Idle(w, setup);
      ok := AssertDefaultThemeUsable();
      if ok { return; }
      if EligibleCatalog(State()) == {} { return false; }
      var replacement := Replacement(State(), setup);
      HealKeeps(w, setup, replacement);
      InCatalog(w, replacement);
      IsStep(w, HealDefault, MakeDefault(w, replacement), setup);
      Healed(w, replacement);
      themes := map u | u in themes :: if themes[u].isDefault then themes[u].(isDefault := false) else themes[u];
      themes := themes[replacement := themes[replacement].(isDefault := true)];
      assert State() == MakeDefault(w, replacement) by { DefaultOnlyThemes(w, replacement); }
      ok := true;
    }

    /** SyncBuiltin: each package in its own transaction, then the default is healed. */
    method SyncBuiltin(packages: seq<(Id, Option<Compiled>)>) returns (ok: bool)
      requires Valid() && forall i :: 0 <= i < |packages| ==> packages[i].0 in setup.builtin
      modifies this
      ensures Preserves(old(State()), State(), setup) && NoNewOwned(old(State()), State())
      ensures KillSwitchKept(old(State()), State())
      ensures ok ==> DefaultUsable(State())
      ensures SyncOutcome(old(State()), packages, setup, State(), ok) && Reaches(old(State()), State(), setup)
    {
      hide Rows, Preserves, NoNewOwned, Upserted, DefaultUsable, UpsertError, KillSwitchKept, Step, Reaches, SyncedTo,
           PackageSynced, SyncOutcome, EligibleCatalog, MakeDefault;
      ghost var w := State();
      Unchanged(w, setup);
      ReachesItself(w, setup);
      SyncedNone(w, packages);
      for i := 0 to |packages|
        invariant Rows(State(), setup) && Preserves(w, State(), setup) && NoNewOwned(w, State())
        invariant KillSwitchKept(w, State()) && w.versions.Keys <= versions.Keys
        invariant SyncedTo(w, packages, i, State()) && Reaches(w, State(), setup)
      {
        ghost var before := State();
        var (t, compiled) := packages[i];
        if compiled.None? {
          SyncDone(w, packages, i, before, setup, before, false);
          return false;
        }
        SeededNotPending(before, setup, t);
        var v := UpsertVersionTx(t, compiled.value);
        if v.Err? {
          SyncDone(w, packages, i, before, setup, before, false);
          return false;
        }
        SyncedOne(w, before, setup, t, compiled.value, State(), v.value);
        SyncedKillSwitch(w, before, setup, t, compiled.value, State(), v.value);
        PackageTaken(w, before, setup, packages, i, v.value, State());
      }
      ghost var before := State();
      ok := EnsureDefaultTheme();
      SyncDone(w, packages, |packages|, before, setup, State(), ok);
      ReachesNext(w, before, State(), setup);
      PreservesChain(w, before, State(), setup);
      PreservesRows(before, State(), setup);
      HealedKillSwitch(w, before, State(), setup);
    }

    // -------------------------------------------------- resolving, publishing

    /** The requested theme, else the theme that took over a culled one, else the default. */
    method ResolveEligibleVersion(theme: Option<Id>, actor: Option<User>) returns (r: Result<Id, ThemeError>)
      ensures r.Ok? ==> Resolves(State(), setup, theme, actor, r.value)
      ensures r.Err? <==> !exists v :: Resolves(State(), setup, theme, actor, v)
      ensures Honoured(State(), setup, theme, actor, r)
    {
      hide Honoured;
      var candidates := Candidates(setup, theme);
      for i := 0 to |candidates|
        invariant forall j :: 0 <= j < i ==> !CandidateEligible(State(), candidates[j], actor)
      {
        if candidates[i].Some? && Eligible(State(), candidates[i].value, actor) {
          r := Ok(themes[candidates[i].value].current.value);
          assert Resolves(State(), setup, theme, actor, r.value);
          ResolvesHonours(State(), setup, theme, actor, r);
          return;
        }
      }
      var fallback := set d | d in themes && themes[d].isDefault && Eligible(State(), d, None);
      if fallback == {} {
        assert forall d :: d in themes && themes[d].isDefault && Eligible(State(), d, None) ==> d in fallback;
        r := Err(DefaultUnavailable);
        ResolvesHonours(State(), setup, theme, actor, r);
        return;
      }
      var d :| d in fallback;
      r := Ok(themes[d].current.value);
      assert Resolves(State(), setup, theme, actor, r.value);
      ResolvesHonours(State(), setup, theme, actor, r);
    }

    /** The theme half of Publish: resolve and lock a version in one transaction. */
    method PublishWithTheme(s: Id, theme: Option<Id>, actor: Option<User>) returns (r: Result<Id, ThemeError>)
      requires Valid() && s !in snapshots
      modifies this`snapshots
      ensures Step(old(State()), State(), setup)
      ensures Preserves(old(State()), State(), setup) && NoNewOwned(old(State()), State())
      ensures DefaultUsable(old(State())) ==> r.Ok?
      ensures Honoured(old(State()), setup, theme, actor, r)
      ensures r.Ok?
              ==> Resolves(old(State()), setup, theme, actor, r.value) && snapshots == old(snapshots)[s := r.value]
                        && r.value in versions && versions[r.value].active
      ensures r.Err? ==> State() == old(State())
    {
      hide Rows, Preserves, NoNewOwned, Resolves, Honoured, DefaultUsable, Step;
      ghost var w := State();
      Unchanged(w, setup);
      Idle(w, setup);
      r := ResolveEligibleVersion(theme, actor);
      if DefaultUsable(w) {
        ResolvesOnce(w, setup, theme, actor);
      }
      if r.Ok? {
        ResolvedServes(w, setup, theme, actor, r.value);
        PublishKeeps(w, setup, s, r.value);
        IsStep(w, LockVersion(s, r.value), Locked(w, s, r.value), setup);
        snapshots := snapshots[s := r.value];
      }
    }
  }
}
