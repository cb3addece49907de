/** Who may write to a page, what a patch leaves alone, what a visitor is shown and
    which page he is shown, each told without the functions that compute it. */
module NavigationLaws {
  import opened Prelude
  import opened Ordering
  import opened Drafts
  import opened Tables
  import opened Projection
  import opened NavigationModel
  import opened PublicationSteps
  import opened NavigationStore

  // ------------------------------------------------------------------ rights

  /** A system page is for administrators, any other for its owner alone; being an
      administrator gives no right to somebody's page. */
  lemma RightsAre(pages: map<Id, PageRow>, actor: Actor, p: Id)
    ensures Access(pages, actor, p) == None <==>
            p in pages && if pages[p].system then actor.admin
                          else actor.userId.Some? && pages[p].owner == actor.userId
    ensures Access(pages, actor, p) == Some(NotFound) <==> p !in pages
    ensures Access(pages, actor, p).Some? && p in pages ==> Access(pages, actor, p) == Some(Forbidden)
  {}

  /** Of two different users without the administrator's right at most one may write. */
  lemma OneWriter(pages: map<Id, PageRow>, a: Actor, b: Actor, p: Id)
    requires Access(pages, a, p) == None && Access(pages, b, p) == None
    ensures (a.admin && b.admin) || a.userId == b.userId
  {}

  // ----------------------------------------------------------------- patches

  /** `after` is what a field with value `before` becomes under `patch`. */
  ghost predicate Follows<T(!new)>(before: T, patch: Option<T>, after: T) {
    (patch == None ==> after == before) && forall v :: patch == Some(v) ==> after == v
  }

  /** A category patch sets the fields it names and no others, here or elsewhere. */
  lemma CategoryPatchMeans(d: Draft, c: Id, patch: CategoryPatch)
    requires c in d.categories
    ensures var d' := EditCategory(d, c, PatchedCategory(d.categories[c], patch));
            var was, now := d.categories[c], d'.categories[c];
            && d' == d.(categories := d'.categories) && d'.categories.Keys == d.categories.Keys
            && (forall k :: k in d.categories && k != c ==> d'.categories[k] == d.categories[k])
            && Follows(was.name, patch.name, now.name) && Follows(was.icon, patch.icon, now.icon)
            && Follows(was.enabled, patch.enabled, now.enabled) && now.uncategorized == was.uncategorized
  {}

  lemma {:induction false} WithoutCut(a: seq<Id>, s: Id, b: seq<Id>)
    requires s !in a && s !in b
    ensures Without(a + [s] + b, s) == a + b
  {
    var q := a + [s] + b;
    if a == [] {
      assert q[1..] == b && a + b == b;
      WithoutAbsent(b, s);
    } else {
      assert q[1..] == a[1..] + [s] + b;
      WithoutCut(a[1..], s, b);
      assert [a[0]] + (a[1..] + b) == a + b;
    }
  }

  /** A site patch sets the fields it names; a site sent to another category leaves
      a gap closed where it was and stands last where it goes; all else stays. */
  lemma SitePatchMeans(d: Draft, s: Id, from: Id, patch: SitePatch, a: seq<Id>, b: seq<Id>)
    requires WellFormed(d) && s in d.sites && from in d.lists && d.lists[from] == a + [s] + b
    requires patch.category.Some? ==> patch.category.value in d.lists
    ensures var d' := SitePatchEdit(d, s, from, patch);
            && d' == d.(lists := d'.lists, sites := d'.sites) && d'.sites.Keys == d.sites.Keys
            && (forall k :: k in d.sites && k != s ==> d'.sites[k] == d.sites[k])
            && d'.lists == (if patch.category == None || patch.category == Some(from) then d.lists
                            else d.lists[from := a + b][patch.category.value := d.lists[patch.category.value] + [s]])
    ensures var was, now := d.sites[s], SitePatchEdit(d, s, from, patch).sites[s];
            && Follows(was.title, patch.title, now.title) && Follows(was.url, patch.url, now.url)
            && Follows(was.icon, patch.icon, now.icon) && Follows(was.description, patch.description, now.description)
            && Follows(was.enabled, patch.enabled, now.enabled)
  {
    if patch.category.Some? && patch.category.value != from {
      MovedLists(d, s, from, patch.category.value, a, b);
    }
    hide WellFormed, MoveSite;
  }

  lemma MovedLists(d: Draft, s: Id, from: Id, c: Id, a: seq<Id>, b: seq<Id>)
    requires WellFormed(d) && from in d.lists && d.lists[from] == a + [s] + b && c in d.lists && c != from
    ensures MoveSite(d, s, c) == d.(lists := d.lists[from := a + b][c := d.lists[c] + [s]])
  {
    OnceInList(d, s, from, a, b);
    hide WellFormed, Without;
    WithoutCut(a, s, b);
    forall k | k in d.lists && k != from ensures Without(d.lists[k], s) == d.lists[k] {
      WithoutAbsent(d.lists[k], s);
    }
    assert MoveSite(d, s, c).lists == d.lists[from := a + b][c := d.lists[c] + [s]];
  }

  lemma OnceInList(d: Draft, s: Id, from: Id, a: seq<Id>, b: seq<Id>)
    requires WellFormed(d) && from in d.lists && d.lists[from] == a + [s] + b
    ensures s !in a && s !in b && forall k :: k in d.lists && k != from ==> s !in d.lists[k]
  {
    var q := d.lists[from];
    assert q[|a|] == s;
    forall i | 0 <= i < |a| ensures a[i] != s {
      assert q[i] == a[i];
    }
    forall i | 0 <= i < |b| ensures b[i] != s {
      assert q[|a| + 1 + i] == b[i];
    }
    assert s in d.lists[from];
  }

  // -------------------------------------------------------------- projection

  lemma {:induction false} SitesShow(sites: map<Id, SiteInfo>, c: Id, q: seq<Id>, i: nat)
    requires i < |EnabledSites(sites, c, q)|
    ensures var shown := EnabledSites(sites, c, q)[i];
            && shown.id in q && shown.id in sites && shown.category == c
            && var info := sites[shown.id];
               && info.enabled && shown.title == info.title && shown.url == info.url && shown.icon == info.icon
               && shown.description == info.description
  {
    var n := |q| - 1;
    if i < |EnabledSites(sites, c, q[..n])| {
      SitesShow(sites, c, q[..n], i);
    }
  }

  lemma {:induction false} CategoriesShow(page: Id, d: Draft, q: seq<Id>, k: nat)
    requires k < |ShownCategories(page, d, q)|
    ensures var shown := ShownCategories(page, d, q)[k];
            && shown.id in q && shown.id in d.categories && shown.id in d.lists && shown.page == page
            && shown.sites == EnabledSites(d.sites, shown.id, d.lists[shown.id])
            && var info := d.categories[shown.id];
               info.enabled && shown.name == info.name && shown.icon == info.icon
  {
    hide EnabledSites;
    var n := |q| - 1;
    if k < |ShownCategories(page, d, q[..n])| {
      CategoriesShow(page, d, q[..n], k);
    }
  }

  /** What a visitor reads of a category and of a site is what its owner wrote. */
  lemma ProjectionShows(page: Id, d: Draft, k: nat, i: nat)
    requires k < |Project(page, d)| && i < |Project(page, d)[k].sites|
    ensures var c := Project(page, d)[k];
            var s := c.sites[i];
            && c.id in d.categories && c.id in d.lists && c.page == page
            && c.name == d.categories[c.id].name && c.icon == d.categories[c.id].icon && d.categories[c.id].enabled
            && s.id in d.lists[c.id] && s.id in d.sites && s.category == c.id && d.sites[s.id].enabled
            && s.title == d.sites[s.id].title && s.url == d.sites[s.id].url && s.icon == d.sites[s.id].icon
            && s.description == d.sites[s.id].description
  {
    hide EnabledSites, ShownCategories;
    CategoriesShow(page, d, d.order, k);
    var c := Project(page, d)[k];
    SitesShow(d.sites, c.id, d.lists[c.id], i);
  }

  // -------------------------------------------------------------- publication

  /** An edit of a published page is reported until the page is published again. */
  lemma EditIsNoticed(db: Db, db': Db, p: Id, d: Draft)
    requires Valid(db) && NextDraft(db, db', p, d) && p in db.publications && Live(db, p)
    ensures LiveResolves(db') && p in db'.publications && Live(db', p) && HasUnpublishedChanges(db', p)
  {
    hide NextDraft, DraftAt, RowsValid, LiveSlugsDistinct;
    NextDraftKeeps(db, db', p, d);
    LiveUnchanged(db, db');
    assert SnapshotFaithful(db, db.publications[p].snapshot.value);
    NextRevision(db, db', p, d);
  }

  lemma NextRevision(db: Db, db': Db, p: Id, d: Draft)
    requires NextDraft(db, db', p, d)
    ensures p in db.pages && p in db'.pages && db'.pages[p].revision == db.pages[p].revision + 1
  {
    hide DraftAt;
  }

  /** So is a change of the publication's own settings after the publication. */
  lemma SettingsAreNoticed(db: Db, p: Id, row: PublicationRow)
    requires Valid(db) && p in db.pages && Live(db, p) && row.snapshot == db.publications[p].snapshot
    requires row.updatedAt > LiveSnapshot(db, p).publishedAt
    ensures var db' := db.(publications := db.publications[p := row]);
            LiveResolves(db') && Live(db', p) && HasUnpublishedChanges(db', p)
  {
    hide DraftAt, RowsValid, Faithful;
    RowOnlyLive(db, p, row);
  }

  /** After a publication nothing is reported and the page answers to its slug, in
      any case, and no other page does. */
  lemma PublishedAnswers(db: Db, db': Db, p: Id, s: Id, theme: Id, now: int, slug: string)
    requires Valid(db') && PublishedAs(db, db', p, s, theme, now) && db.publications[p].visibility != Private
    ensures !HasUnpublishedChanges(db', p)
    ensures NoCase(slug) == NoCase(db.publications[p].slug) <==> p in PagesBySlug(db', slug)
    ensures NoCase(slug) == NoCase(db.publications[p].slug) ==> PagesBySlug(db', slug) == {p}
  {
    hide DraftAt, RowsValid, Faithful, Project;
  }

  /** A page without a live snapshot, or with a private one, answers to no slug. */
  lemma PrivateIsSilent(db: Db, p: Id, slug: string)
    requires LiveResolves(db)
    requires p !in db.publications || db.publications[p].snapshot == None
             || db.snapshots[db.publications[p].snapshot.value].visibility == Private
    ensures p !in PagesBySlug(db, slug)
  {}
}
