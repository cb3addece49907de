/** Publishing transactions keep the invariant, and the grouping loop of the
    projection computes the projection. */
module PublicationSteps {
  import opened Prelude
  import opened Ordering
  import opened Tables
  import opened Projection
  import opened NavigationModel

  /** ensurePublishedSlugAvailable: another page is live under the slug. */
  predicate SlugLiveElsewhere(db: Db, p: Id, slug: string)
    requires LiveResolves(db)
  {
    exists q :: q in db.publications && q != p && Live(db, q) && NoCase(LiveSnapshot(db, q).slug) == NoCase(slug)
  }

  /** What publishing page `p` as snapshot `s` demands of the tables. */
  predicate Publishable(db: Db, p: Id, s: Id) {
    && p in db.publications && s !in db.snapshots && db.publications[p].visibility != Private
    && LiveResolves(db) && !SlugLiveElsewhere(db, p, db.publications[p].slug)
  }

  /** page_publications: UNIQUE (slug), slug COLLATE NOCASE */
  predicate SlugTaken(publications: map<Id, PublicationRow>, p: Id, slug: string) {
    exists q :: q in publications && q != p && NoCase(publications[q].slug) == NoCase(slug)
  }

  function AfterPublish(db: Db, p: Id, s: Id, snap: Snapshot, now: int): Db
    requires p in db.publications
  {
    db.(snapshots := db.snapshots[s := snap],
        publications := db.publications[p := db.publications[p].(snapshot := Some(s), updatedAt := now)])
  }

  /** The snapshot a publication of page `p` takes. */
  function DraftSnapshot(db: Db, p: Id, theme: Id, now: int): Snapshot
    requires p in db.pages && p in db.publications
  {
    var page, row := db.pages[p], db.publications[p];
    Snapshot(p, page.revision, row.slug, row.visibility, page.title, page.description, Project(p, DraftAt(db, p)), now,
        theme)
  }

  /** One more snapshot, showing the draft of page p at its revision, and it is
      live; nothing else has changed and nothing is left unpublished. */
  ghost predicate PublishedAs(db: Db, db': Db, p: Id, s: Id, theme: Id, now: int) {
    && p in db.pages && p in db.publications && s !in db.snapshots
    && db' == AfterPublish(db, p, s, DraftSnapshot(db, p, theme, now), now)
    && LiveResolves(db') && Live(db', p) && !HasUnpublishedChanges(db', p)
  }

  /** Publishing keeps the invariant, and leaves nothing unpublished. */
  lemma PublishStep(db: Db, p: Id, s: Id, theme: Id, now: int)
    requires Valid(db) && p in db.pages && Publishable(db, p, s)
    ensures var db' := AfterPublish(db, p, s, DraftSnapshot(db, p, theme, now), now);
            Valid(db') && Committed(db, db') && PublishedAs(db, db', p, s, theme, now)
  {
    hide DraftAt, Project, RowsValid, LiveSlugsDistinct, Faithful, SlugLiveElsewhere;
    var snap := DraftSnapshot(db, p, theme, now);
    PublishLive(db, p, s, snap, now);
    PublishFaithful(db, p, s, snap, now);
  }

  lemma PublishFaithful(db: Db, p: Id, s: Id, snap: Snapshot, now: int)
    requires Faithful(db) && p in db.publications && p in db.pages
    requires snap.page == p && snap.revision == db.pages[p].revision
    requires snap.categories == Project(p, DraftAt(db, p))
    requires snap.title == db.pages[p].title && snap.description == db.pages[p].description
    ensures Faithful(AfterPublish(db, p, s, snap, now))
    ensures forall q :: q in db.pages ==> DraftAt(AfterPublish(db, p, s, snap, now), q) == DraftAt(db, q)
  {
    var db' := AfterPublish(db, p, s, snap, now);
    forall q | q in db.pages ensures DraftAt(db', q) == DraftAt(db, q) {}
    forall x | x in db'.snapshots ensures SnapshotFaithful(db', x) {
      hide DraftAt;
      if x != s {
        assert SnapshotFaithful(db, x);
      }
    }
  }

  lemma PublishLive(db: Db, p: Id, s: Id, snap: Snapshot, now: int)
    requires LiveResolves(db) && LiveSlugsDistinct(db) && p in db.publications && s !in db.snapshots
    requires snap.page == p && !SlugLiveElsewhere(db, p, snap.slug)
    ensures LiveResolves(AfterPublish(db, p, s, snap, now)) && LiveSlugsDistinct(AfterPublish(db, p, s, snap, now))
  {
    var db' := AfterPublish(db, p, s, snap, now);
    forall q | q in db'.publications && q != p && Live(db', q)
      ensures Live(db, q) && LiveResolves(db') && LiveSnapshot(db', q) == LiveSnapshot(db, q)
      ensures NoCase(LiveSnapshot(db', q).slug) != NoCase(snap.slug)
    {
      assert Live(db, q);
    }
  }

  /** Visibility and slug settings; private takes the page down. */
  lemma RowOnlyStep(db: Db, p: Id, row: PublicationRow)
    requires Valid(db) && p in db.pages
    requires row.snapshot == None || row.snapshot == db.publications[p].snapshot
    ensures var db' := db.(publications := db.publications[p := row]); Valid(db') && Committed(db, db')
  {
    var db' := db.(publications := db.publications[p := row]);
    RowOnlyLive(db, p, row);
    forall x | x in db'.snapshots ensures SnapshotFaithful(db', x) {
      assert SnapshotFaithful(db, x);
    }
  }

  lemma RowOnlyLive(db: Db, p: Id, row: PublicationRow)
    requires LiveResolves(db) && LiveSlugsDistinct(db) && p in db.publications
    requires row.snapshot == None || row.snapshot == db.publications[p].snapshot
    ensures var db' := db.(publications := db.publications[p := row]); LiveResolves(db') && LiveSlugsDistinct(db')
  {
    var db' := db.(publications := db.publications[p := row]);
    forall q | q in db'.publications && Live(db', q)
      ensures Live(db, q) && db'.publications[q].snapshot == db.publications[q].snapshot
    {}
    assert LiveResolves(db');
    assert forall q :: q in db'.publications && Live(db', q)
            ==> Live(db, q) && LiveSnapshot(db', q) == LiveSnapshot(db, q);
  }

  // ---------------------------------------------- rows grouped by category

  /** The sites of the listed categories, one category after the other. */
  function SitesInOrder(sites: SiteTable, p: Id, q: seq<Id>): (rows: seq<Id>)
    ensures forall s :: s in rows ==> s in sites
  {
    if q == [] then []
    else
      var n := |q| - 1;
      SiteListElems(sites, p, q[n]);
      SitesInOrder(sites, p, q[..n]) + SiteListing(sites, p, q[n])
  }

  function ById(ids: set<Id>): seq<Id> {
    Listing(ids, map c | c in ids :: 0)
  }

  /** loadSites: ORDER BY category_id, sort_order, id */
  function LoadSites(cats: CategoryTable, sites: SiteTable, p: Id): (rows: seq<Id>)
    ensures forall s :: s in rows ==> s in sites
  {
    SitesInOrder(sites, p, ById(PageCategories(cats, p)))
  }

  /** The enabled rows of one category, in row order. */
  function EnabledIn(sites: SiteTable, rows: seq<Id>, c: Id): seq<PublicSite>
    requires forall s :: s in rows ==> s in sites
  {
    if rows == [] then []
    else
      var n := |rows| - 1;
      var front := EnabledIn(sites, rows[..n], c);
      var row := sites[rows[n]];
      if row.category == c && row.info.enabled then front + [Shown(rows[n], c, row.info)] else front
  }

  lemma {:induction false} EnabledInConcat(sites: SiteTable, a: seq<Id>, b: seq<Id>, c: Id)
    requires forall s :: s in a || s in b ==> s in sites
    ensures EnabledIn(sites, a + b, c) == EnabledIn(sites, a, c) + EnabledIn(sites, b, c)
  {
    if b == [] {
      assert a + b == a;
    } else {
      var n := |b| - 1;
      assert (a + b)[..|a + b| - 1] == a + b[..n];
      EnabledInConcat(sites, a, b[..n], c);
    }
  }

  lemma {:induction false} EnabledInList(sites: SiteTable, p: Id, q: seq<Id>, k: Id, c: Id)
    requires forall s :: s in q ==> s in sites && sites[s].page == p && sites[s].category == k
    ensures EnabledIn(sites, q, c) == if k == c then EnabledSites(SiteInfos(sites, p), c, q) else []
  {
    if q != [] {
      var n := |q| - 1;
      EnabledInList(sites, p, q[..n], k, c);
      assert q[n] in SiteInfos(sites, p);
    }
  }

  lemma {:induction false} EnabledInOrder(sites: SiteTable, p: Id, q: seq<Id>, c: Id)
    requires NoDup(q)
    ensures EnabledIn(sites, SitesInOrder(sites, p, q), c)
         == if c in q then EnabledSites(SiteInfos(sites, p), c, SiteListing(sites, p, c)) else []
  {
    if q != [] {
      var n := |q| - 1;
      SiteListElems(sites, p, q[n]);
      EnabledInOrder(sites, p, q[..n], c);
      EnabledInList(sites, p, SiteListing(sites, p, q[n]), q[n], c);
      EnabledInConcat(sites, SitesInOrder(sites, p, q[..n]), SiteListing(sites, p, q[n]), c);
      assert c in q <==> c in q[..n] || c == q[n];
    }
  }

  /** Grouping all rows of a page by category yields each category's own list. */
  lemma LoadedSitesGrouped(cats: CategoryTable, sites: SiteTable, p: Id, c: Id)
    requires c in cats && cats[c].page == p
    ensures EnabledIn(sites, LoadSites(cats, sites, p), c)
            == EnabledSites(SiteInfos(sites, p), c, SiteListing(sites, p, c))
  {
    var ids := PageCategories(cats, p);
    ListingIs(ids, map k | k in ids :: 0);
    EnabledInOrder(sites, p, ById(ids), c);
  }

  type Groups = map<Id, seq<PublicSite>>

  function Group(byCategory: Groups, c: Id): seq<PublicSite> {
    if c in byCategory then byCategory[c] else []
  }

  /** First loop of buildPublishedPage: enabled rows, grouped by category. */
  method GroupEnabled(sites: SiteTable, rows: seq<Id>) returns (byCategory: Groups)
    requires forall s :: s in rows ==> s in sites
    ensures forall c :: Group(byCategory, c) == EnabledIn(sites, rows, c)
  {
    byCategory := map[];
    for i := 0 to |rows|
      invariant forall c :: Group(byCategory, c) == EnabledIn(sites, rows[..i], c)
    {
      assert rows[..i + 1][..i] == rows[..i] && rows[..i + 1][i] == rows[i];
      var row := sites[rows[i]];
      if row.info.enabled {
        byCategory := byCategory[row.category := Group(byCategory, row.category)
            + [Shown(rows[i], row.category, row.info)]];
      }
    }
    assert rows[..|rows|] == rows;
  }

  /** buildPublishedPage */
  method BuildPublishedPage(cats: CategoryTable, sites: SiteTable, p: Id) returns (shown: seq<PublicCategory>)
    ensures shown == Project(p, Content(cats, sites, p))
  {
    hide Listing, EnabledIn, LoadSites, EnabledSites;
    var byCategory := GroupEnabled(sites, LoadSites(cats, sites, p));
    var order := CategoryListing(cats, p);
    ghost var d := Content(cats, sites, p);
    CategoryListElems(cats, p);
    shown := [];
    for i := 0 to |order|
      invariant shown == ShownCategories(p, d, order[..i])
    {
      assert order[..i + 1][..i] == order[..i] && order[..i + 1][i] == order[i];
      var c := order[i];
      assert c in order;
      LoadedSitesGrouped(cats, sites, p, c);
      var group := Group(byCategory, c);
      if cats[c].info.enabled && group != [] {
        shown := shown + [PublicCategory(c, p, cats[c].info.name, cats[c].info.icon, group)];
      }
    }
    assert order[..|order|] == order;
  }
}
