/** Themes, their immutable versions, catalog requests and the snapshots that
    hold a version: the rows four packages share, and what must hold of them. */
module ThemeModel {
  import opened Prelude
  import opened Text

  type User = nat
  type Hash = nat

  /** `owner` is None for a catalog theme. */
  datatype Theme = Theme(slug: string, catalog: bool, owner: Option<User>, enabled: bool, isDefault: bool,
      current: Option<Id>)

  datatype Version = Version(theme: Id, hash: Hash, css: string, active: bool)

  datatype RequestStatus = Pending | Approved | Rejected | Revoked

  datatype Request = Request(theme: Id, owner: User, version: Id, status: RequestStatus)

  /** `snapshots` maps a published snapshot to the theme version it locked. */
  datatype World = World(themes: map<Id, Theme>, versions: map<Id, Version>, requests: map<Id, Request>,
      snapshots: map<Id, Id>)

  /** What a deployment is built with: the seeded catalog rows, the reserved
      names, the baseline theme, the aliases of culled themes and the number of
      private themes a user may own. */
  datatype Setup = Setup(seeded: set<Id>, builtin: set<Id>, names: set<string>, baseline: Id, aliases: map<Id, Id>,
      quota: int)

  /** A compiled package; `complete` stands for the checks on its ids and source type. */
  datatype Compiled = Compiled(version: Id, hash: Hash, css: string, complete: bool)

  datatype ThemeError =
    | NotFound | Malformed | Taken | Quota | RequestPending | CompileFailed | Empty
    | NotEligible | ReservedSlug | SlugConflict | Transition
    | InvalidInput | PrivateDefault | DefaultTheme | DefaultVersion | NoCurrentVersion | DefaultUnavailable

  /** ReservedCatalogSlug */
  predicate Reserved(setup: Setup, slug: string) {
    Lower(Trim(slug)) != "" && Lower(Trim(slug)) in setup.names
  }

  // ---------------------------------------------------------------- queries

  /** EligibilityJoin and EligibilityWhere */
  predicate Eligible(w: World, t: Id, actor: Option<User>) {
    && HasActiveCurrent(w, t) && w.themes[t].enabled
    && (w.themes[t].catalog || (actor.Some? && w.themes[t].owner == actor))
  }

  predicate HasActiveCurrent(w: World, t: Id) {
    && t in w.themes && w.themes[t].current.Some?
    && w.themes[t].current.value in w.versions
    && w.versions[w.themes[t].current.value].theme == t
    && w.versions[w.themes[t].current.value].active
  }

  /** SELECT id FROM themes WHERE owner_id = ? */
  function Owned(w: World, owner: User): set<Id> {
    set t | t in w.themes && w.themes[t].owner == Some(owner)
  }

  /** Some snapshot still holds a version of the theme. */
  predicate Referenced(w: World, t: Id) {
    exists s :: s in w.snapshots && w.snapshots[s] in w.versions && w.versions[w.snapshots[s]].theme == t
  }

  predicate HasDisabledVersion(w: World, t: Id) {
    exists v :: v in w.versions && w.versions[v].theme == t && !w.versions[v].active
  }

  /** A theme its owner uninstalled, or an admin switched off. */
  predicate Tombstone(w: World, owner: User, t: Id) {
    t in w.themes && !w.themes[t].catalog && w.themes[t].owner == Some(owner) && !w.themes[t].enabled
  }

  /** Tombstones nothing refers to and no kill switch remembers. */
  function Reclaimable(w: World, owner: User): set<Id> {
    set t | t in w.themes && Tombstone(w, owner, t) && !Referenced(w, t) && !HasDisabledVersion(w, t)
  }

  predicate HasPending(w: World, t: Id) {
    exists q :: q in w.requests && w.requests[q].theme == t && w.requests[q].status.Pending?
  }

  predicate CatalogSlugTaken(w: World, slug: string, except: Id) {
    exists t :: t in w.themes && t != except && w.themes[t].catalog && w.themes[t].slug == slug
  }

  // -------------------------------------------------------------- invariants

  type Themes = map<Id, Theme>
  type Versions = map<Id, Version>

  /** The pointer of a theme leads to one of its own versions. */
  ghost predicate Pointers(themes: Themes, versions: Versions) {
    forall t :: t in themes && themes[t].current.Some? ==>
      themes[t].current.value in versions && versions[themes[t].current.value].theme == t
  }

  ghost predicate Scopes(themes: Themes) {
    forall t :: t in themes ==> (themes[t].catalog <==> themes[t].owner == None)
  }

  /** Catalog slugs are distinct, and so are the slugs of one owner. */
  ghost predicate SlugsDistinct(themes: Themes) {
    forall t, u :: t in themes && u in themes && t != u && themes[t].owner == themes[u].owner
      ==> themes[t].slug != themes[u].slug
  }

  /** The seeded rows are never deleted and stay in the catalog; a promoted
      theme never bears an official name. */
  ghost predicate CatalogKept(themes: Themes, setup: Setup) {
    && setup.builtin <= setup.seeded
    && (forall t :: t in setup.seeded ==> t in themes && themes[t].catalog)
    && (forall t :: t in themes && themes[t].catalog && t !in setup.seeded ==> !Reserved(setup, themes[t].slug))
  }

  ghost predicate VersionsOwned(ids: set<Id>, versions: Versions) {
    && (forall v :: v in versions ==> versions[v].theme in ids)
    && (forall u, v :: u in versions && v in versions && u != v && versions[u].theme == versions[v].theme
          ==> versions[u].hash != versions[v].hash)
  }

  ghost predicate RequestsOwned(versions: Versions, requests: map<Id, Request>) {
    forall q :: q in requests
        ==> requests[q].version in versions && versions[requests[q].version].theme == requests[q].theme
  }

  /** While a request is pending its theme is private, the requester's, and
      points at exactly the version submitted; a theme has one at most. */
  ghost predicate PendingFaithful(themes: Themes, requests: map<Id, Request>) {
    && (forall q :: q in requests && requests[q].status.Pending? ==> Submitted(themes, requests[q]))
    && (forall q, r ::
          q in requests && r in requests && q != r && requests[q].status.Pending? && requests[r].status.Pending?
          ==> requests[q].theme != requests[r].theme)
  }

  predicate Submitted(themes: Themes, r: Request) {
    && r.theme in themes && !themes[r.theme].catalog
    && themes[r.theme].owner == Some(r.owner) && themes[r.theme].current == Some(r.version)
  }

  ghost predicate SnapshotsHeld(ids: set<Id>, snapshots: map<Id, Id>) {
    forall s :: s in snapshots ==> snapshots[s] in ids
  }

  ghost predicate Rows(w: World, setup: Setup) {
    && Pointers(w.themes, w.versions) && Scopes(w.themes) && SlugsDistinct(w.themes) && CatalogKept(w.themes, setup)
    && VersionsOwned(w.themes.Keys, w.versions)
    && RequestsOwned(w.versions, w.requests) && PendingFaithful(w.themes, w.requests)
    && SnapshotsHeld(w.versions.Keys, w.snapshots)
  }

  predicate IsUsableDefault(w: World, d: Id) {
    && d in w.themes && w.themes[d].isDefault
    && w.themes[d].catalog && w.themes[d].enabled && HasActiveCurrent(w, d)
  }

  /** Exactly one theme is default and it can serve anybody. */
  ghost predicate DefaultUsable(w: World) {
    exists d :: IsUsableDefault(w, d) && forall t :: t in w.themes && w.themes[t].isDefault ==> t == d
  }

  ghost predicate Sound(w: World, setup: Setup) {
    Rows(w, setup) && DefaultUsable(w)
  }

  /** What every transaction keeps. */
  ghost predicate Preserves(w: World, w': World, setup: Setup) {
    Rows(w', setup) && (DefaultUsable(w) ==> DefaultUsable(w')) && Advances(w, w')
  }

  /** Nobody comes to own a theme they did not own before. */
  ghost predicate NoNewOwned(w: World, w': World) {
    forall t :: t in w'.themes && w'.themes[t].owner.Some? ==> t in w.themes && w.themes[t].owner == w'.themes[t].owner
  }

  // ---------------------------------------------------- what a step may change

  /** No step forgets a snapshot, or deletes or rewrites a version one holds. */
  ghost predicate Advances(w: World, w': World) {
    forall s :: s in w.snapshots ==>
      && s in w'.snapshots && w'.snapshots[s] == w.snapshots[s]
      && (w.snapshots[s] in w.versions ==>
            w.snapshots[s] in w'.versions && SameArtefact(w.versions[w.snapshots[s]], w'.versions[w.snapshots[s]]))
  }

  predicate SameArtefact(a: Version, b: Version) {
    a.theme == b.theme && a.hash == b.hash && a.css == b.css
  }

  /** An import leaves every version's status alone and never points a theme at
      a disabled version. */
  ghost predicate KillSwitchKept(w: World, w': World) {
    && (forall v :: v in w.versions && v in w'.versions ==> w'.versions[v].active == w.versions[v].active)
    && (forall t :: t in w'.themes && (t !in w.themes || w'.themes[t].current != w.themes[t].current)
         ==> HasActiveCurrent(w', t))
  }

  // ------------------------------------------------------------ transactions

  /** The row of a theme with a given content hash. */
  function VersionsWith(w: World, t: Id, hash: Hash): set<Id> {
    set v | v in w.versions && w.versions[v].theme == t && w.versions[v].hash == hash
  }

  function PointAt(w: World, t: Id, v: Id): World
    requires t in w.themes
  {
    w.(themes := w.themes[t := w.themes[t].(current := Some(v))])
  }

  /** upsertVersionTx, as a relation between the rows before and after. */
  ghost predicate Upserted(w: World, t: Id, c: Compiled, w': World, v: Id) {
    && t in w.themes
    && if VersionsWith(w, t, c.hash) == {}
       then && c.version !in w.versions && v == c.version
            && w' == PointAt(w.(versions := w.versions[v := Version(t, c.hash, c.css, true)]), t, v)
       else && v in VersionsWith(w, t, c.hash)
            && w' == if w.versions[v].active then PointAt(w, t, v) else w
  }

  /** deleteThemeTx for a set of themes; requests go with their theme. */
  function DeleteThemes(w: World, gone: set<Id>): World {
    World(w.themes - gone,
          map v | v in w.versions && w.versions[v].theme !in gone :: w.versions[v],
          map q | q in w.requests && w.requests[q].theme !in gone :: w.requests[q],
          w.snapshots)
  }

  function NewPrivate(slug: string, owner: User): Theme {
    Theme(slug, false, Some(owner), true, false, None)
  }

  function Enable(w: World, t: Id, enabled: bool): World
    requires t in w.themes
  {
    w.(themes := w.themes[t := w.themes[t].(enabled := enabled)])
  }

  function RevokePending(w: World, t: Id): World {
    w.(requests := map q | q in w.requests ::
         if w.requests[q].theme == t && w.requests[q].status.Pending? then w.requests[q].(status := Revoked)
         else w.requests[q])
  }

  function SetStatus(w: World, v: Id, active: bool): World
    requires v in w.versions
  {
    w.(versions := w.versions[v := w.versions[v].(active := active)])
  }

  function Settle(w: World, q: Id, status: RequestStatus): World
    requires q in w.requests
  {
    w.(requests := w.requests[q := w.requests[q].(status := status)])
  }

  /** UPDATE themes SET scope = 'catalog', owner_id = NULL */
  function Promote(w: World, t: Id): World
    requires t in w.themes
  {
    w.(themes := w.themes[t := w.themes[t].(catalog := true, owner := None)])
  }

  function MakeDefault(w: World, t: Id): World
    requires t in w.themes
  {
    w.(themes := map u | u in w.themes ::
         if u == t then w.themes[u].(isDefault := true) else w.themes[u].(isDefault := false))
  }
}
