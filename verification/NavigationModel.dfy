/** The database as the navigation package sees it, what must always hold of
    it, and what one committed transaction may do to it. */
module NavigationModel {
  import opened Prelude
  import opened Drafts
  import opened Tables
  import opened Projection

  /** `userId` is None for an empty id. */
  datatype Actor = Actor(userId: Option<Id>, admin: bool)

  datatype PageRow = PageRow(system: bool, owner: Option<Id>, title: string, description: string, settings: string,
      revision: nat)

  datatype Visibility = Private | Unlisted | Public

  datatype PublicationRow = PublicationRow(
    visibility: Visibility, slug: string, showAuthor: bool, seoTitle: string, seoDescription: string,
    seoImage: string, snapshot: Option<Id>, updatedAt: int)

  datatype Snapshot = Snapshot(
    page: Id, revision: nat, slug: string, visibility: Visibility, title: string, description: string,
    categories: seq<PublicCategory>, publishedAt: int, themeVersion: Id)

  datatype NavError =
    | NotFound | Forbidden | Precondition | Conflict | CategoryNotEmpty | InvalidOrder | Uncategorized
    | Validation | Theme

  datatype Db = Db(
    categories: CategoryTable, sites: SiteTable, pages: map<Id, PageRow>,
    publications: map<Id, PublicationRow>, snapshots: map<Id, Snapshot>,
    maxCategories: nat, maxSites: nat)

  function DraftAt(db: Db, p: Id): Draft
    requires p in db.pages
  {
    DraftOf(db.categories, db.sites, p, db.pages[p].title, db.pages[p].description, db.pages[p].settings)
  }

  /** authorizePage */
  function Access(pages: map<Id, PageRow>, actor: Actor, p: Id): Option<NavError> {
    if p !in pages then Some(NotFound)
    else if pages[p].system then (if actor.admin then None else Some(Forbidden))
    else if pages[p].owner == None || actor.userId == None || actor.userId != pages[p].owner then Some(Forbidden)
    else None
  }

  // -------------------------------------------------------------- invariants

  ghost predicate HasUncategorized(cats: CategoryTable, p: Id) {
    exists c :: c in cats && cats[c].page == p && cats[c].info.uncategorized
  }

  ghost predicate PagesOwned(cats: CategoryTable, pages: set<Id>) {
    && (forall c :: c in cats ==> cats[c].page in pages)
    && (forall p :: p in pages ==> HasUncategorized(cats, p))
  }

  ghost predicate RowsValid(cats: CategoryTable, sites: SiteTable, pages: set<Id>) {
    CategoriesValid(cats) && SitesValid(cats, sites) && PagesOwned(cats, pages)
  }

  predicate Live(db: Db, p: Id) {
    p in db.publications && db.publications[p].snapshot.Some?
  }

  /** A live pointer refers to a snapshot of that very page. */
  predicate LiveResolves(db: Db) {
    forall p :: p in db.publications && Live(db, p) ==>
      db.publications[p].snapshot.value in db.snapshots && db.snapshots[db.publications[p].snapshot.value].page == p
  }

  function LiveSnapshot(db: Db, p: Id): Snapshot
    requires LiveResolves(db) && p in db.publications && Live(db, p)
  {
    db.snapshots[db.publications[p].snapshot.value]
  }

  /** No two pages are live under one slug. */
  predicate LiveSlugsDistinct(db: Db)
    requires LiveResolves(db)
  {
    forall p, q :: p in db.publications && q in db.publications && p != q && Live(db, p) && Live(db, q)
      ==> NoCase(LiveSnapshot(db, p).slug) != NoCase(LiveSnapshot(db, q).slug)
  }

  /** A snapshot taken at the page's current revision shows the current draft. */
  ghost predicate SnapshotFaithful(db: Db, s: Id)
    requires s in db.snapshots
  {
    var snap := db.snapshots[s];
    && snap.page in db.pages
    && snap.revision <= db.pages[snap.page].revision
    && (snap.revision == db.pages[snap.page].revision ==>
         && snap.categories == Project(snap.page, DraftAt(db, snap.page))
         && snap.title == db.pages[snap.page].title
         && snap.description == db.pages[snap.page].description)
  }

  ghost predicate Faithful(db: Db) {
    forall s :: s in db.snapshots ==> SnapshotFaithful(db, s)
  }

  ghost predicate Valid(db: Db) {
    && RowsValid(db.categories, db.sites, db.pages.Keys)
    && db.publications.Keys == db.pages.Keys
    && LiveResolves(db) && LiveSlugsDistinct(db)
    && Faithful(db)
  }

  /** The parts of the invariant the store's methods look at. */
  lemma ValidFacts(db: Db)
    requires Valid(db)
    ensures db.publications.Keys == db.pages.Keys && LiveResolves(db)
    ensures SitesOwned(db.categories, db.sites)
    ensures forall c :: c in db.categories ==> db.categories[c].page in db.pages
    ensures forall p :: p in db.pages ==> HasUncategorized(db.categories, p)
  {}

  lemma DraftCategory(db: Db, c: Id)
    requires c in db.categories && db.categories[c].page in db.pages
    ensures var d := DraftAt(db, db.categories[c].page);
            c in d.lists && c in d.categories && d.categories[c] == db.categories[c].info
  {}

  lemma DraftSite(db: Db, s: Id)
    requires s in db.sites && db.sites[s].page in db.pages
    ensures var d := DraftAt(db, db.sites[s].page); s in d.sites && d.sites[s] == db.sites[s].info
  {}

  // ------------------------------------------------------------- transactions

  /** One committed draft edit: page `p` now shows `d` at the next revision and
      nothing else in the database is different. */
  ghost predicate NextDraft(db: Db, db': Db, p: Id, d: Draft) {
    && p in db.pages
    && db' == db.(categories := db'.categories, sites := db'.sites, pages := db'.pages)
    && db'.pages == db.pages[p := db.pages[p].(revision := db.pages[p].revision + 1, title := d.title,
                                               description := d.description, settings := d.settings)]
    && DraftAt(db', p) == d
    && forall q :: q in db.pages && q != p ==> DraftAt(db', q) == DraftAt(db, q)
  }

  /** What every committed transaction does to drafts, revisions and snapshots. */
  ghost predicate Committed(db: Db, db': Db) {
    && (forall p :: p in db.pages ==> p in db'.pages && RevisionAdvances(db, db', p))
    && (forall s :: s in db.snapshots ==> s in db'.snapshots && db'.snapshots[s] == db.snapshots[s])
  }

  ghost predicate RevisionAdvances(db: Db, db': Db, p: Id)
    requires p in db.pages && p in db'.pages
  {
    && db.pages[p].revision <= db'.pages[p].revision
    && (db.pages[p].revision == db'.pages[p].revision ==> DraftAt(db, p) == DraftAt(db', p))
  }

  lemma NothingCommitted(db: Db)
    ensures Committed(db, db)
  {}

  lemma NextDraftCommitted(db: Db, db': Db, p: Id, d: Draft)
    requires NextDraft(db, db', p, d)
    ensures Committed(db, db')
  {}

  /** An edit that keeps the row constraints keeps the whole invariant. */
  lemma NextDraftValid(db: Db, db': Db, p: Id, d: Draft)
    requires Valid(db) && NextDraft(db, db', p, d)
    requires RowsValid(db'.categories, db'.sites, db.pages.Keys)
    ensures Valid(db')
  {
    hide NextDraft, RowsValid, SnapshotFaithful, LiveSlugsDistinct, LiveResolves;
    NextDraftKeeps(db, db', p, d);
    LiveUnchanged(db, db');
    forall s | s in db'.snapshots ensures SnapshotFaithful(db', s) {
      NextDraftFaithful(db, db', p, d, s);
    }
  }

  lemma NextDraftKeeps(db: Db, db': Db, p: Id, d: Draft)
    requires NextDraft(db, db', p, d)
    ensures db'.pages.Keys == db.pages.Keys && db'.publications == db.publications && db'.snapshots == db.snapshots
  {
    hide DraftAt;
  }

  lemma LiveUnchanged(db: Db, db': Db)
    requires LiveResolves(db) && LiveSlugsDistinct(db)
    requires db'.publications == db.publications && db'.snapshots == db.snapshots
    ensures LiveResolves(db') && LiveSlugsDistinct(db')
  {
    assert LiveResolves(db') by {
      forall p | p in db'.publications && Live(db', p)
        ensures db'.publications[p].snapshot.value in db'.snapshots
                && db'.snapshots[db'.publications[p].snapshot.value].page == p
      {
        assert Live(db, p);
      }
    }
    forall p, q | p in db'.publications && q in db'.publications && p != q && Live(db', p) && Live(db', q)
      ensures NoCase(LiveSnapshot(db', p).slug) != NoCase(LiveSnapshot(db', q).slug)
    {
      assert Live(db, p) && Live(db, q);
      assert LiveSnapshot(db', p) == LiveSnapshot(db, p) && LiveSnapshot(db', q) == LiveSnapshot(db, q);
    }
  }

  lemma NextDraftFaithful(db: Db, db': Db, p: Id, d: Draft, s: Id)
    requires Faithful(db) && NextDraft(db, db', p, d) && s in db.snapshots
    ensures SnapshotFaithful(db', s)
  {
    assert SnapshotFaithful(db, s);
    var q := db.snapshots[s].page;
    if q != p {
      assert DraftAt(db', q) == DraftAt(db, q);
    }
  }

  // -------------------------------------------------------- publication status

  /** loadPublication: published and has_unpublished_changes */
  predicate HasUnpublishedChanges(db: Db, p: Id)
    requires LiveResolves(db) && p in db.pages && p in db.publications && Live(db, p)
  {
    || db.pages[p].revision != LiveSnapshot(db, p).revision
    || db.publications[p].updatedAt > LiveSnapshot(db, p).publishedAt
  }

  /** "No unpublished changes" means republishing would show the same page. */
  lemma NoUnpublishedChangesIsTrue(db: Db, p: Id)
    requires Valid(db) && p in db.pages && Live(db, p)
    requires !HasUnpublishedChanges(db, p)
    ensures LiveSnapshot(db, p).categories == Project(p, DraftAt(db, p))
    ensures LiveSnapshot(db, p).title == db.pages[p].title && LiveSnapshot(db, p).description == db.pages[p].description
  {
    assert SnapshotFaithful(db, db.publications[p].snapshot.value);
  }

  /** PublicBySlug: the pages answering to a slug. */
  function PagesBySlug(db: Db, slug: string): set<Id>
    requires LiveResolves(db)
  {
    set p | p in db.publications && Live(db, p) && NoCase(LiveSnapshot(db, p).slug) == NoCase(slug)
      && LiveSnapshot(db, p).visibility != Private
  }

  lemma PublicBySlugUnique(db: Db, slug: string, p: Id, q: Id)
    requires Valid(db) && p in PagesBySlug(db, slug) && q in PagesBySlug(db, slug)
    ensures p == q
  {}
}
