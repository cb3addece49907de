/** The theme tables as a transition system: the transactions of four packages,
    and what follows for every run of them. */
module ThemeRuns {
  import opened Prelude
  import opened ThemeModel
  import opened ThemeInstalls
  import opened ThemePatches
  import opened ThemeCatalog

  datatype Action =
    | Install(owner: User, slug: string, theme: Id, package: Compiled, version: Id)
    | Upgrade(owner: User, slug: string, theme: Id, package: Compiled, version: Id)
    | Uninstall(owner: User, theme: Id)
    | SwitchVersion(version: Id, active: bool)
    | Patch(theme: Id, patch: ThemePatch)
    | Submit(request: Id, owner: User, theme: Id)
    | Close(request: Id, status: RequestStatus)
    | Approve(request: Id)
    | SyncPackage(theme: Id, package: Compiled, version: Id)
    | HealDefault
    | LockVersion(snapshot: Id, version: Id)

  ghost predicate UpgradeTo(w: World, t: Id, c: Compiled, v: Id, w': World) {
    exists mid: World :: t in mid.themes && Upserted(w, t, c, mid, v) && w' == Enable(mid, t, true)
  }

  /** Deleted, or kept as a tombstone with its pending request revoked. */
  function Uninstalled(w: World, t: Id): World
    requires t in w.themes
  {
    if Referenced(w, t) then Enable(RevokePending(w, t), t, false) else DeleteThemes(w, {t})
  }

  function Submission(w: World, q: Id, owner: User, t: Id): World
    requires t in w.themes && w.themes[t].current.Some?
  {
    w.(requests := w.requests[q := Request(t, owner, w.themes[t].current.value, Pending)])
  }

  function Locked(w: World, s: Id, v: Id): World {
    w.(snapshots := w.snapshots[s := v])
  }

  /** The guards of a transaction hold and these are the rows it leaves. */
  ghost predicate Takes(w: World, a: Action, w': World, setup: Setup) {
    match a
    case Install(owner, slug, t, c, v) =>
      && t !in w.themes && PrivateThemes(w, owner, slug) == {}
      && |Owned(w, owner) - Reclaimable(w, owner)| < setup.quota
      && Fresh(InstallBase(w, owner, setup.quota), owner, slug, t, c, w', v)
    case Upgrade(owner, slug, t, c, v) => t in PrivateThemes(w, owner, slug) && !HasPending(w, t)
        && UpgradeTo(w, t, c, v, w')
    case Uninstall(owner, t) => OwnPrivate(w, owner, t) && w' == Uninstalled(w, t)
    case SwitchVersion(v, active) => v in w.versions && (active || !ServesAsDefault(w, v))
        && w' == SetStatus(w, v, active)
    case Patch(t, patch) => !Contradictory(patch) && PatchRefused(w, t, patch) == None && w' == Patched(w, t, patch)
    case Submit(q, owner, t) => q !in w.requests && CreateRefused(w, setup, owner, t) == None
        && w' == Submission(w, q, owner, t)
    case Close(q, status) =>
      q in w.requests && w.requests[q].status.Pending? && (status.Rejected? || status.Revoked?)
          && w' == Settle(w, q, status)
    case Approve(q) => Approvable(w, setup, q) && w' == Settle(Promote(w, w.requests[q].theme), q, Approved)
    case SyncPackage(t, c, v) => t in setup.builtin && Upserted(w, t, c, w', v)
    case HealDefault => EligibleCatalog(w) != {} && w' == MakeDefault(w, Replacement(w, setup))
    case LockVersion(s, v) => s !in w.snapshots && v in w.versions && w.versions[v].active && w' == Locked(w, s, v)
  }

  /** One committed transaction, or one that was refused. */
  ghost predicate Step(w: World, w': World, setup: Setup) {
    w' == w || exists a: Action :: Takes(w, a, w', setup)
  }

  lemma Idle(w: World, setup: Setup)
    ensures Step(w, w, setup)
  {}

  lemma IsStep(w: World, a: Action, w': World, setup: Setup)
    requires Takes(w, a, w', setup)
    ensures Step(w, w', setup)
  {
    hide Takes;
  }

  // -------------------------------------------------------- the sync at start-up

  /** The first `n` packages have been installed, each in its own transaction. */
  ghost predicate SyncedTo(w: World, packages: seq<(Id, Option<Compiled>)>, n: nat, w': World)
    requires n <= |packages|
  {
    if n == 0 then w' == w
    else
      var package := packages[n - 1];
      exists mid: World, v: Id :: PackageSynced(mid, package, v, w') && SyncedTo(w, packages, n - 1, mid)
  }

  ghost predicate PackageSynced(w: World, package: (Id, Option<Compiled>), v: Id, w': World) {
    && package.1.Some? && UpsertError(w, package.0, package.1.value) == None
    && Upserted(w, package.0, package.1.value, w', v)
  }

  /** A package that does not compile, or whose version cannot be inserted, stops
      the sync; past the last one the default is healed. */
  ghost predicate SyncOutcome(w: World, packages: seq<(Id, Option<Compiled>)>, setup: Setup, w': World, ok: bool) {
    exists n: nat, mid: World :: n <= |packages| && SyncedTo(w, packages, n, mid)
        && SyncEnded(mid, packages, n, setup, w', ok)
  }

  ghost predicate SyncEnded(mid: World, packages: seq<(Id, Option<Compiled>)>, n: nat, setup: Setup, w': World,
                            ok: bool)
    requires n <= |packages|
  {
    if n < |packages| then
      && !ok && w' == mid
      && (packages[n].1.Some? ==> UpsertError(mid, packages[n].0, packages[n].1.value).Some?)
    else
      && ok == (DefaultUsable(mid) || EligibleCatalog(mid) != {})
      && w' == if ok && !DefaultUsable(mid) then MakeDefault(mid, Replacement(mid, setup)) else mid
  }

  lemma SyncedNone(w: World, packages: seq<(Id, Option<Compiled>)>)
    ensures SyncedTo(w, packages, 0, w)
  {}

  lemma SyncedMore(w: World, packages: seq<(Id, Option<Compiled>)>, n: nat, mid: World, w': World, v: Id)
    requires n < |packages| && SyncedTo(w, packages, n, mid) && PackageSynced(mid, packages[n], v, w')
    ensures SyncedTo(w, packages, n + 1, w')
  {
    hide PackageSynced;
  }

  lemma SyncDone(w: World, packages: seq<(Id, Option<Compiled>)>, n: nat, mid: World, setup: Setup, w': World, ok: bool)
    requires n <= |packages| && SyncedTo(w, packages, n, mid) && SyncEnded(mid, packages, n, setup, w', ok)
    ensures SyncOutcome(w, packages, setup, w', ok)
  {
    hide SyncedTo, SyncEnded;
  }

  /** Some run leads from these rows to those. */
  ghost predicate Reaches(w: World, w': World, setup: Setup) {
    exists states :: Run(states, setup) && states[0] == w && states[|states| - 1] == w'
  }

  lemma ReachesItself(w: World, setup: Setup)
    requires Rows(w, setup)
    ensures Reaches(w, w, setup)
  {
    assert Run([w], setup);
  }

  lemma ReachesNext(w: World, mid: World, w': World, setup: Setup)
    requires Reaches(w, mid, setup) && Step(mid, w', setup)
    ensures Reaches(w, w', setup)
  {
    hide Step, Rows;
    var states :| Run(states, setup) && states[0] == w && states[|states| - 1] == mid;
    var more := states + [w'];
    forall i | 0 <= i < |more| - 1 ensures Step(more[i], more[i + 1], setup) {
      if i < |states| - 1 {
        assert Step(states[i], states[i + 1], setup);
      }
    }
    assert Run(more, setup);
  }

  lemma PackageTaken(w: World, mid: World, setup: Setup, packages: seq<(Id, Option<Compiled>)>, n: nat, v: Id,
                     w': World)
    requires n < |packages| && packages[n].0 in setup.builtin && packages[n].1.Some?
    requires UpsertError(mid, packages[n].0, packages[n].1.value) == None
             && Upserted(mid, packages[n].0, packages[n].1.value, w', v)
    requires SyncedTo(w, packages, n, mid) && Reaches(w, mid, setup)
    ensures SyncedTo(w, packages, n + 1, w') && Reaches(w, w', setup)
  {
    hide Reaches, Step, Upserted, UpsertError;
    SyncedMore(w, packages, n, mid, w', v);
    IsStep(mid, SyncPackage(packages[n].0, packages[n].1.value, v), w', setup);
    ReachesNext(w, mid, w', setup);
  }

  // ------------------------------------------------------------------- the quota

  /** Whoever owns more themes than before stays within the quota. */
  ghost predicate QuotaStep(w: World, w': World, quota: int) {
    forall owner: User :: |Owned(w', owner)| <= quota || Owned(w', owner) <= Owned(w, owner)
  }

  lemma NoNewOwnedStep(w: World, w': World, quota: int)
    requires NoNewOwned(w, w')
    ensures QuotaStep(w, w', quota)
  {
    forall owner: User ensures Owned(w', owner) <= Owned(w, owner) {}
  }

  /** Only the installing owner gains a theme, and only within the quota. */
  lemma InstallWithinQuota(w: World, owner: User, slug: string, quota: int, t: Id, c: Compiled, w': World, v: Id)
    requires t !in w.themes && |Owned(w, owner) - Reclaimable(w, owner)| < quota
    requires Fresh(InstallBase(w, owner, quota), owner, slug, t, c, w', v)
    ensures QuotaStep(w, w', quota)
  {
    FreshWithinQuota(w, owner, slug, quota, t, c, w', v);
    hide Reclaimable;
    var seeded := Seeded(w, owner, slug, quota, t);
    forall other: User | other != owner ensures Owned(w', other) <= Owned(w, other) {
      UpsertedOwners(seeded, t, c, w', v, other);
    }
  }

  lemma UpgradeGainsNothing(w: World, t: Id, c: Compiled, v: Id, w': World, quota: int)
    requires UpgradeTo(w, t, c, v, w')
    ensures QuotaStep(w, w', quota)
  {
    var mid: World :| t in mid.themes && Upserted(w, t, c, mid, v) && w' == Enable(mid, t, true);
    forall other: User ensures Owned(w', other) <= Owned(w, other) {
      UpsertedOwners(w, t, c, mid, v, other);
    }
  }

  // ------------------------------------------------------------------ every step

  lemma PrivateActionKeeps(w: World, a: Action, w': World, setup: Setup)
    requires Rows(w, setup) && Takes(w, a, w', setup)
    requires a.Install? || a.Upgrade? || a.Uninstall?
    ensures Preserves(w, w', setup) && QuotaStep(w, w', setup.quota)
  {
    hide Rows, Preserves, QuotaStep, NoNewOwned, Fresh, InstallBase, Reclaimable, UpgradeTo, PrivateThemes, HasPending;
    match a {
      case Install(owner, slug, t, c, v) =>
        InstalledNew(w, setup, owner, slug, setup.quota, t, c, w', v);
        InstallWithinQuota(w, owner, slug, setup.quota, t, c, w', v);
      case Upgrade(owner, slug, t, c, v) =>
        UpgradeKeeps(w, setup, owner, slug, t, c, v, w');
        UpgradeGainsNothing(w, t, c, v, w', setup.quota);
      case Uninstall(owner, t) =>
        UninstallKeeps(w, setup, owner, t);
        NoNewOwnedStep(w, w', setup.quota);
    }
  }

  lemma UpgradeKeeps(w: World, setup: Setup, owner: User, slug: string, t: Id, c: Compiled, v: Id, w': World)
    requires Rows(w, setup) && t in PrivateThemes(w, owner, slug) && !HasPending(w, t) && UpgradeTo(w, t, c, v, w')
    ensures Preserves(w, w', setup)
  {
    var mid: World :| t in mid.themes && Upserted(w, t, c, mid, v) && w' == Enable(mid, t, true);
    hide Rows, Preserves, HasPending, Upserted;
    Upgraded(w, setup, t, c, mid, v);
  }

  lemma SyncedPackage(w: World, setup: Setup, t: Id, c: Compiled, v: Id, w': World)
    requires Rows(w, setup) && t in setup.builtin && Upserted(w, t, c, w', v)
    ensures Preserves(w, w', setup) && NoNewOwned(w, w')
  {
    Unchanged(w, setup);
    SeededNotPending(w, setup, t);
    hide Rows, Preserves, NoNewOwned, Upserted, HasPending;
    SyncedOne(w, w, setup, t, c, w', v);
  }

  lemma OtherActionKeeps(w: World, a: Action, w': World, setup: Setup)
    requires Rows(w, setup) && Takes(w, a, w', setup)
    requires !a.Install? && !a.Upgrade? && !a.Uninstall?
    ensures Preserves(w, w', setup) && NoNewOwned(w, w')
  {
    hide Rows, Preserves, NoNewOwned, Upserted, SetStatus, Patched, PatchRefused, CreateRefused, Approvable,
         ServesAsDefault, Promote, MakeDefault, EligibleCatalog, Replacement;
    match a {
      case SwitchVersion(v, active) => StatusKeeps(w, setup, v, active);
      case Patch(t, patch) => PatchKeeps(w, setup, t, patch);
      case Submit(q, owner, t) => CreateKeeps(w, setup, owner, t, q);
      case Close(q, status) => SettleKeeps(w, setup, q, status);
      case Approve(q) => ApproveKeeps(w, setup, q);
      case SyncPackage(t, c, v) => SyncedPackage(w, setup, t, c, v, w');
      case HealDefault => HealKeeps(w, setup, Replacement(w, setup));
      case LockVersion(s, v) => PublishKeeps(w, setup, s, v);
    }
  }

  /** Every transaction keeps the rows sound, the default usable, the versions
      that snapshots hold, and the quota. */
  lemma StepKeeps(w: World, w': World, setup: Setup)
    requires Rows(w, setup) && Step(w, w', setup)
    ensures Preserves(w, w', setup) && QuotaStep(w, w', setup.quota)
  {
    hide Rows, Preserves, QuotaStep, NoNewOwned, Takes;
    if w' == w {
      Unchanged(w, setup);
      NoNewOwnedStep(w, w', setup.quota);
    } else {
      var a: Action :| Takes(w, a, w', setup);
      if a.Install? || a.Upgrade? || a.Uninstall? {
        PrivateActionKeeps(w, a, w', setup);
      } else {
        OtherActionKeeps(w, a, w', setup);
        NoNewOwnedStep(w, w', setup.quota);
      }
    }
  }

  // ------------------------------------------------------------------ whole runs

  /** Transactions in any order from sound rows. */
  ghost predicate Run(states: seq<World>, setup: Setup) {
    && states != [] && Rows(states[0], setup)
    && forall i :: 0 <= i < |states| - 1 ==> Step(states[i], states[i + 1], setup)
  }

  lemma {:induction false} RunRows(states: seq<World>, setup: Setup, k: nat)
    requires Run(states, setup) && k < |states|
    ensures Rows(states[k], setup)
    ensures k + 1 < |states| ==>
              Preserves(states[k], states[k + 1], setup) && QuotaStep(states[k], states[k + 1], setup.quota)
  {
    hide Rows, Step, QuotaStep, DefaultUsable, Advances;
    if k > 0 {
      RunRows(states, setup, k - 1);
    }
    if k + 1 < |states| {
      StepKeeps(states[k], states[k + 1], setup);
    }
  }

  /** From a sound start every state is sound, so every page resolves to an
      active version: ErrDefaultThemeUnavailable never occurs. */
  lemma {:induction false} RunSound(states: seq<World>, setup: Setup, k: nat, theme: Option<Id>, actor: Option<User>)
    requires Run(states, setup) && k < |states| && DefaultUsable(states[0])
    ensures Sound(states[k], setup)
    ensures exists v :: Resolves(states[k], setup, theme, actor, v)
  {
    hide Run, Rows, DefaultUsable, Advances, Resolves;
    RunRows(states, setup, k);
    if k > 0 {
      RunSound(states, setup, k - 1, theme, actor);
      RunRows(states, setup, k - 1);
    }
    ResolvesOnce(states[k], setup, theme, actor);
  }

  /** A published snapshot keeps its theme version and that version's CSS for good. */
  lemma {:induction false} SnapshotKeepsCss(states: seq<World>, setup: Setup, i: nat, k: nat, s: Id)
    requires Run(states, setup) && i <= k < |states| && s in states[i].snapshots
    ensures s in states[k].snapshots && states[k].snapshots[s] == states[i].snapshots[s]
    ensures states[i].snapshots[s] in states[i].versions && states[i].snapshots[s] in states[k].versions
    ensures SameArtefact(states[i].versions[states[i].snapshots[s]], states[k].versions[states[i].snapshots[s]])
    decreases k - i
  {
    RunRows(states, setup, i);
    SnapshotHeld(states[i], setup, s);
    hide Run, Rows, DefaultUsable;
    if i < k {
      SnapshotKeepsCss(states, setup, i + 1, k, s);
    }
  }

  lemma SnapshotHeld(w: World, setup: Setup, s: Id)
    requires Rows(w, setup) && s in w.snapshots
    ensures w.snapshots[s] in w.versions
  {}

  /** An owner within the quota stays within it in every run. */
  lemma {:induction false} QuotaHolds(states: seq<World>, setup: Setup, k: nat, owner: User)
    requires Run(states, setup) && k < |states| && |Owned(states[0], owner)| <= setup.quota
    ensures |Owned(states[k], owner)| <= setup.quota
  {
    if k > 0 {
      QuotaHolds(states, setup, k - 1, owner);
      RunRows(states, setup, k - 1);
      hide Run, Rows, Preserves;
      if |Owned(states[k], owner)| > setup.quota {
        SubsetSize(Owned(states[k], owner), Owned(states[k - 1], owner));
      }
    }
  }
}
