/** Publishing writes navigation and theme tables in one transaction. Together
    they keep every published page in its theme version. */
module Publishing {
  import opened Prelude
  import opened NavigationModel
  import opened PublicationSteps
  import opened ThemeModel
  import opened ThemeCatalog
  import N = NavigationRuns
  import T = ThemeRuns

  datatype State = State(db: Db, world: World)

  /** The snapshot rows as the navigation and as the theme package see them. */
  ghost predicate SameSnapshots(s: State) {
    && s.db.snapshots.Keys == s.world.snapshots.Keys
    && forall x :: x in s.db.snapshots ==> s.world.snapshots[x] == s.db.snapshots[x].themeVersion
  }

  ghost predicate ThemeStep(a: State, b: State, setup: Setup) {
    T.Step(a.world, b.world, setup) && b.world.snapshots == a.world.snapshots && b.db == a.db
  }

  ghost predicate NavigationStep(a: State, b: State) {
    N.Step(a.db, b.db) && b.db.snapshots == a.db.snapshots && b.world == a.world
  }

  /** Publish: the version `v` the resolver answers is locked by the new snapshot. */
  ghost predicate PublicationStep(a: State, b: State, setup: Setup, p: Id, s: Id, v: Id, now: int) {
    && N.Takes(a.db, p, N.Publish(s, v, now), b.db)
    && (exists theme: Option<Id>, actor: Option<User> :: Resolves(a.world, setup, theme, actor, v))
    && T.Takes(a.world, T.LockVersion(s, v), b.world, setup)
  }

  ghost predicate Step(a: State, b: State, setup: Setup) {
    || ThemeStep(a, b, setup)
    || NavigationStep(a, b)
    || exists p: Id, s: Id, v: Id, now: int :: PublicationStep(a, b, setup, p, s, v, now)
  }

  lemma StepKeepsSnapshots(a: State, b: State, setup: Setup)
    requires SameSnapshots(a) && Step(a, b, setup)
    ensures SameSnapshots(b)
  {
    hide N.Step, T.Step, PublicationStep;
    if !ThemeStep(a, b, setup) && !NavigationStep(a, b) {
      var p: Id, s: Id, v: Id, now: int :| PublicationStep(a, b, setup, p, s, v, now);
      PublishKeepsSnapshots(a, b, setup, p, s, v, now);
    }
  }

  lemma PublishKeepsSnapshots(a: State, b: State, setup: Setup, p: Id, s: Id, v: Id, now: int)
    requires SameSnapshots(a) && PublicationStep(a, b, setup, p, s, v, now)
    ensures SameSnapshots(b)
  {
    hide SlugLiveElsewhere, LiveResolves, Resolves, DraftAt;
    assert b.db.snapshots == a.db.snapshots[s := DraftSnapshot(a.db, p, v, now)];
    assert b.world.snapshots == a.world.snapshots[s := v];
  }

  lemma StepIsThemeStep(a: State, b: State, setup: Setup)
    requires Step(a, b, setup)
    ensures T.Step(a.world, b.world, setup)
  {
    hide N.Step, T.Step, N.Takes, T.Takes, Resolves;
    if NavigationStep(a, b) {
      T.Idle(a.world, setup);
    } else if !ThemeStep(a, b, setup) {
      var p: Id, s: Id, v: Id, now: int :| PublicationStep(a, b, setup, p, s, v, now);
      T.IsStep(a.world, T.LockVersion(s, v), b.world, setup);
    }
  }

  // ------------------------------------------------------------------ whole runs

  ghost predicate Run(states: seq<State>, setup: Setup) {
    && states != [] && SameSnapshots(states[0]) && Rows(states[0].world, setup)
    && forall i :: 0 <= i < |states| - 1 ==> Step(states[i], states[i + 1], setup)
  }

  function Worlds(states: seq<State>): seq<World> {
    seq(|states|, i requires 0 <= i < |states| => states[i].world)
  }

  lemma WorldsRun(states: seq<State>, setup: Setup)
    requires Run(states, setup)
    ensures T.Run(Worlds(states), setup)
  {
    hide Step, T.Step, Rows, SameSnapshots;
    var worlds := Worlds(states);
    forall i | 0 <= i < |worlds| - 1 ensures T.Step(worlds[i], worlds[i + 1], setup) {
      StepIsThemeStep(states[i], states[i + 1], setup);
    }
  }

  lemma {:induction false} RunSnapshots(states: seq<State>, setup: Setup, k: nat)
    requires Run(states, setup) && k < |states|
    ensures SameSnapshots(states[k])
  {
    hide Step, SameSnapshots, Rows;
    if k > 0 {
      RunSnapshots(states, setup, k - 1);
      StepKeepsSnapshots(states[k - 1], states[k], setup);
    }
  }

  /** Whatever is installed, upgraded, uninstalled, reclaimed, switched off or
      reviewed meanwhile: the theme version of a published page is there, with
      the CSS it had when the page was published. */
  lemma PublishedPagesKeepTheirTheme(states: seq<State>, setup: Setup, i: nat, k: nat, s: Id)
    requires Run(states, setup) && i <= k < |states| && s in states[i].db.snapshots
    ensures var v := states[i].db.snapshots[s].themeVersion;
            && v in states[i].world.versions && v in states[k].world.versions
            && SameArtefact(states[i].world.versions[v], states[k].world.versions[v])
  {
    RunSnapshots(states, setup, i);
    WorldsRun(states, setup);
    hide Run, T.Run;
    T.SnapshotKeepsCss(Worlds(states), setup, i, k, s);
  }

  /** From a usable default on, publishing never lacks a theme. */
  lemma AlwaysATheme(states: seq<State>, setup: Setup, k: nat, theme: Option<Id>, actor: Option<User>)
    requires Run(states, setup) && k < |states| && DefaultUsable(states[0].world)
    ensures exists v :: Resolves(states[k].world, setup, theme, actor, v)
  {
    WorldsRun(states, setup);
    hide Run, T.Run, DefaultUsable, Resolves;
    T.RunSound(Worlds(states), setup, k, theme, actor);
  }
}
