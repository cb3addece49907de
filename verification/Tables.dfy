/** The rows behind the drafts, and the abstraction from rows to drafts. */
module Tables {
  import opened Prelude
  import opened Ordering
  import opened Drafts

  datatype CategoryRow = CategoryRow(page: Id, info: CategoryInfo, sortOrder: nat)

  datatype SiteRow = SiteRow(page: Id, category: Id, info: SiteInfo, sortOrder: nat)

  type CategoryTable = map<Id, CategoryRow>
  type SiteTable = map<Id, SiteRow>

  /** COLLATE NOCASE folds ASCII letters only. */
  function NoCase(s: string): string {
    seq(|s|, i requires 0 <= i < |s| => if 'A' <= s[i] <= 'Z' then (s[i] as int + 32) as char else s[i])
  }

  function CategoryKeys(cats: CategoryTable): SortKeys {
    map c | c in cats :: cats[c].sortOrder
  }

  function SiteKeys(sites: SiteTable): SortKeys {
    map s | s in sites :: sites[s].sortOrder
  }

  /** SELECT id FROM categories WHERE page_id = ? */
  function PageCategories(cats: CategoryTable, p: Id): set<Id> {
    set c | c in cats && cats[c].page == p
  }

  /** SELECT id FROM sites WHERE page_id = ? */
  function PageSites(sites: SiteTable, p: Id): set<Id> {
    set s | s in sites && sites[s].page == p
  }

  /** SELECT id FROM sites WHERE page_id = ? AND category_id = ? */
  function CategorySites(sites: SiteTable, p: Id, c: Id): set<Id> {
    set s | s in sites && sites[s].page == p && sites[s].category == c
  }

  /** ... ORDER BY sort_order, id */
  function CategoryListing(cats: CategoryTable, p: Id): seq<Id>
  {
    Listing(PageCategories(cats, p), CategoryKeys(cats))
  }

  function SiteListing(sites: SiteTable, p: Id, c: Id): seq<Id>
  {
    Listing(CategorySites(sites, p, c), SiteKeys(sites))
  }

  function CategoryInfos(cats: CategoryTable, p: Id): map<Id, CategoryInfo> {
    map c | c in cats && cats[c].page == p :: cats[c].info
  }

  function SiteInfos(sites: SiteTable, p: Id): map<Id, SiteInfo> {
    map s | s in sites && sites[s].page == p :: sites[s].info
  }

  function SiteLists(cats: CategoryTable, sites: SiteTable, p: Id): map<Id, seq<Id>> {
    map c | c in cats && cats[c].page == p :: SiteListing(sites, p, c)
  }

  /** Foreign keys: a site's category exists on the same page. */
  predicate SitesOwned(cats: CategoryTable, sites: SiteTable) {
    forall s :: s in sites ==> sites[s].category in cats && cats[sites[s].category].page == sites[s].page
  }

  /** UNIQUE (page_id, name), name COLLATE NOCASE */
  predicate NamesUnique(cats: CategoryTable) {
    forall c, d :: c in cats && d in cats && c != d && cats[c].page == cats[d].page
      ==> NoCase(cats[c].info.name) != NoCase(cats[d].info.name)
  }

  /** UNIQUE (page_id, url) */
  predicate UrlsUnique(sites: SiteTable) {
    forall s, u :: s in sites && u in sites && s != u && sites[s].page == sites[u].page
      ==> sites[s].info.url != sites[u].info.url
  }

  /** At most one is_uncategorized row per page. */
  predicate UncategorizedUnique(cats: CategoryTable) {
    forall c, d :: c in cats && d in cats && c != d && cats[c].page == cats[d].page
      ==> !(cats[c].info.uncategorized && cats[d].info.uncategorized)
  }

  predicate CategoriesValid(cats: CategoryTable) {
    NamesUnique(cats) && UncategorizedUnique(cats)
  }

  predicate SitesValid(cats: CategoryTable, sites: SiteTable) {
    SitesOwned(cats, sites) && UrlsUnique(sites)
  }

  /** The draft of page `p` with the given page fields. */
  function DraftOf(cats: CategoryTable, sites: SiteTable, p: Id, title: string, description: string,
                   settings: string): Draft {
    Draft(title, description, settings, CategoryListing(cats, p), CategoryInfos(cats, p),
          SiteLists(cats, sites, p), SiteInfos(sites, p))
  }

  /** Content-only part of the abstraction; the page fields ride along unchanged. */
  function Content(cats: CategoryTable, sites: SiteTable, p: Id): Draft {
    DraftOf(cats, sites, p, "", "", "")
  }

  // ---------------------------------------------------------------- frames

  /** Two tables that agree on a page show the same category order. */
  lemma CategoryListingFrame(cats: CategoryTable, cats': CategoryTable, p: Id)
    requires PageCategories(cats, p) == PageCategories(cats', p)
    requires forall c :: c in PageCategories(cats, p) ==> cats[c].sortOrder == cats'[c].sortOrder
    ensures CategoryListing(cats, p) == CategoryListing(cats', p)
  {
    ListingFrame(PageCategories(cats, p), CategoryKeys(cats), CategoryKeys(cats'));
  }

  lemma SiteListingFrame(sites: SiteTable, sites': SiteTable, p: Id, c: Id)
    requires CategorySites(sites, p, c) == CategorySites(sites', p, c)
    requires forall s :: s in CategorySites(sites, p, c) ==> sites[s].sortOrder == sites'[s].sortOrder
    ensures SiteListing(sites, p, c) == SiteListing(sites', p, c)
  {
    ListingFrame(CategorySites(sites, p, c), SiteKeys(sites), SiteKeys(sites'));
  }

  lemma SiteListsFrame(cats: CategoryTable, sites: SiteTable, cats': CategoryTable, sites': SiteTable, p: Id)
    requires PageCategories(cats, p) == PageCategories(cats', p)
    requires PageSites(sites, p) == PageSites(sites', p)
    requires forall s :: s in PageSites(sites, p) ==> sites[s] == sites'[s]
    ensures SiteLists(cats, sites, p) == SiteLists(cats', sites', p)
  {
    var a, b := SiteLists(cats, sites, p), SiteLists(cats', sites', p);
    assert a.Keys == PageCategories(cats, p) && b.Keys == PageCategories(cats', p);
    forall c | c in a ensures a[c] == b[c] {
      assert CategorySites(sites, p, c) == CategorySites(sites', p, c) by {
        forall s ensures s in CategorySites(sites, p, c) <==> s in CategorySites(sites', p, c) {
          assert s in PageSites(sites, p) <==> s in PageSites(sites', p);
        }
      }
      SiteListingFrame(sites, sites', p, c);
    }
  }

  ghost predicate SameOnPage(cats: CategoryTable, sites: SiteTable, cats': CategoryTable, sites': SiteTable, p: Id) {
    && PageCategories(cats, p) == PageCategories(cats', p)
    && (forall c :: c in PageCategories(cats, p) ==> cats[c] == cats'[c])
    && PageSites(sites, p) == PageSites(sites', p)
    && (forall s :: s in PageSites(sites, p) ==> sites[s] == sites'[s])
  }

  /** A statement that touches no row of a page leaves its draft alone. */
  lemma ContentFrame(cats: CategoryTable, sites: SiteTable, cats': CategoryTable, sites': SiteTable, p: Id)
    requires SameOnPage(cats, sites, cats', sites', p)
    ensures Content(cats, sites, p) == Content(cats', sites', p)
  {
    CategoryListingFrame(cats, cats', p);
    SiteListsFrame(cats, sites, cats', sites', p);
  }

  lemma SiteListElems(sites: SiteTable, p: Id, c: Id)
    ensures NoDup(SiteListing(sites, p, c))
    ensures forall s :: s in SiteListing(sites, p, c) <==> s in sites && sites[s].page == p && sites[s].category == c
  {
    ListingIs(CategorySites(sites, p, c), SiteKeys(sites));
  }

  lemma CategoryListElems(cats: CategoryTable, p: Id)
    ensures NoDup(CategoryListing(cats, p))
    ensures forall c :: c in CategoryListing(cats, p) <==> c in cats && cats[c].page == p
  {
    ListingIs(PageCategories(cats, p), CategoryKeys(cats));
  }

  lemma ContentWellFormed(cats: CategoryTable, sites: SiteTable, p: Id)
    requires SitesOwned(cats, sites)
    ensures WellFormed(Content(cats, sites, p))
  {
    var d := Content(cats, sites, p);
    CategoryListElems(cats, p);
    forall c | c in d.lists ensures NoDup(d.lists[c]) && Elems(d.lists[c]) <= d.sites.Keys {
      SiteListElems(sites, p, c);
    }
    forall s | s in d.sites ensures exists c :: c in d.lists && s in d.lists[c] {
      var c := sites[s].category;
      SiteListElems(sites, p, c);
      assert c in d.lists && s in d.lists[c];
    }
    forall c, c', s | c in d.lists && c' in d.lists && s in d.lists[c] && s in d.lists[c'] ensures c == c' {
      SiteListElems(sites, p, c);
      SiteListElems(sites, p, c');
    }
  }

  // ------------------------------------------------- refinement, by statement

  /** INSERT INTO categories with MAX(sort_order) + 1 appends an empty category. */
  lemma InsertCategoryAppends(cats: CategoryTable, sites: SiteTable, c: Id, row: CategoryRow)
    requires SitesOwned(cats, sites) && c !in cats
    requires forall d :: d in PageCategories(cats, row.page) ==> cats[d].sortOrder < row.sortOrder
    ensures Content(cats[c := row], sites, row.page) == AddCategory(Content(cats, sites, row.page), c, row.info)
  {
    var p, cats' := row.page, cats[c := row];
    assert PageCategories(cats', p) == PageCategories(cats, p) + {c};
    ListingAppend(PageCategories(cats, p), c, CategoryKeys(cats), CategoryKeys(cats'));
    InsertCategoryLists(cats, sites, c, row);
    InsertCategoryInfos(cats, c, row);
  }

  lemma InsertCategoryLists(cats: CategoryTable, sites: SiteTable, c: Id, row: CategoryRow)
    requires SitesOwned(cats, sites) && c !in cats
    ensures SiteLists(cats[c := row], sites, row.page) == SiteLists(cats, sites, row.page)[c := []]
  {
    assert CategorySites(sites, row.page, c) == {};
    var a, b := SiteLists(cats[c := row], sites, row.page), SiteLists(cats, sites, row.page)[c := []];
    assert forall k :: k in a <==> k in b;
    assert forall k :: k in a ==> a[k] == b[k];
  }

  lemma InsertCategoryInfos(cats: CategoryTable, c: Id, row: CategoryRow)
    requires c !in cats
    ensures CategoryInfos(cats[c := row], row.page) == CategoryInfos(cats, row.page)[c := row.info]
  {}

  /** UPDATE of everything but the position edits the category in place. */
  lemma UpdateCategoryEdits(cats: CategoryTable, sites: SiteTable, c: Id, info: CategoryInfo)
    requires c in cats
    ensures var p := cats[c].page;
            Content(cats[c := cats[c].(info := info)], sites, p) == EditCategory(Content(cats, sites, p), c, info)
  {
    var p, cats' := cats[c].page, cats[c := cats[c].(info := info)];
    assert PageCategories(cats, p) == PageCategories(cats', p);
    CategoryListingFrame(cats, cats', p);
    SiteListsFrame(cats, sites, cats', sites, p);
    assert CategoryInfos(cats', p) == CategoryInfos(cats, p)[c := info];
  }

  /** DELETE FROM categories cascades to the sites of the category. */
  lemma DeleteCategoryDrops(cats: CategoryTable, sites: SiteTable, c: Id)
    requires SitesOwned(cats, sites) && c in cats
    ensures var p := cats[c].page;
            Content(cats - {c}, sites - CategorySites(sites, p, c), p) == DropCategory(Content(cats, sites, p), c)
  {
    var p := cats[c].page;
    DeleteCategoryOrder(cats, c);
    DeleteCategoryLists(cats, sites, c);
    DeleteCategorySites(sites, p, c);
    assert CategoryInfos(cats - {c}, p) == CategoryInfos(cats, p) - {c};
  }

  lemma DeleteCategoryOrder(cats: CategoryTable, c: Id)
    requires c in cats
    ensures CategoryListing(cats - {c}, cats[c].page) == Without(CategoryListing(cats, cats[c].page), c)
  {
    var p, cats' := cats[c].page, cats - {c};
    ListingRemove(PageCategories(cats, p), c, CategoryKeys(cats));
    assert PageCategories(cats', p) == PageCategories(cats, p) - {c};
    ListingFrame(PageCategories(cats', p), CategoryKeys(cats), CategoryKeys(cats'));
  }

  lemma DeleteCategoryLists(cats: CategoryTable, sites: SiteTable, c: Id)
    requires c in cats
    ensures var p := cats[c].page;
            SiteLists(cats - {c}, sites - CategorySites(sites, p, c), p) == SiteLists(cats, sites, p) - {c}
  {
    var p := cats[c].page;
    var sites' := sites - CategorySites(sites, p, c);
    var a, b := SiteLists(cats - {c}, sites', p), SiteLists(cats, sites, p) - {c};
    assert forall k :: k in a <==> k in b;
    forall k | k in a ensures a[k] == b[k] {
      assert CategorySites(sites, p, k) == CategorySites(sites', p, k);
      SiteListingFrame(sites, sites', p, k);
    }
  }

  lemma DeleteCategorySites(sites: SiteTable, p: Id, c: Id)
    ensures SiteInfos(sites - CategorySites(sites, p, c), p) == SiteInfos(sites, p) - Elems(SiteListing(sites, p, c))
  {
    SiteListElems(sites, p, c);
    assert Elems(SiteListing(sites, p, c)) == CategorySites(sites, p, c);
    var a, b := SiteInfos(sites - CategorySites(sites, p, c), p), SiteInfos(sites, p) - CategorySites(sites, p, c);
    assert forall s :: s in a <==> s in b;
    assert forall s :: s in a ==> a[s] == b[s];
  }

  /** INSERT INTO sites with MAX(sort_order) + 1 appends to the category. */
  lemma InsertSiteAppends(cats: CategoryTable, sites: SiteTable, s: Id, row: SiteRow)
    requires s !in sites && row.category in cats && cats[row.category].page == row.page
    requires forall u :: u in CategorySites(sites, row.page, row.category) ==> sites[u].sortOrder < row.sortOrder
    ensures Content(cats, sites[s := row], row.page)
            == AddSite(Content(cats, sites, row.page), row.category, s, row.info)
  {
    var p, c, sites' := row.page, row.category, sites[s := row];
    InsertSiteLists(cats, sites, s, row);
    assert SiteInfos(sites', p) == SiteInfos(sites, p)[s := row.info];
  }

  lemma InsertSiteLists(cats: CategoryTable, sites: SiteTable, s: Id, row: SiteRow)
    requires s !in sites && row.category in cats && cats[row.category].page == row.page
    requires forall u :: u in CategorySites(sites, row.page, row.category) ==> sites[u].sortOrder < row.sortOrder
    ensures var was := SiteLists(cats, sites, row.page);
            SiteLists(cats, sites[s := row], row.page) == was[row.category := was[row.category] + [s]]
  {
    var p, c, sites' := row.page, row.category, sites[s := row];
    assert CategorySites(sites', p, c) == CategorySites(sites, p, c) + {s};
    ListingAppend(CategorySites(sites, p, c), s, SiteKeys(sites), SiteKeys(sites'));
    forall k | k in cats && cats[k].page == p && k != c
      ensures SiteListing(sites', p, k) == SiteListing(sites, p, k)
    {
      assert CategorySites(sites', p, k) == CategorySites(sites, p, k);
      SiteListingFrame(sites, sites', p, k);
    }
  }

  /** UPDATE of everything but category and position edits the site in place. */
  lemma UpdateSiteEdits(cats: CategoryTable, sites: SiteTable, s: Id, info: SiteInfo)
    requires s in sites
    ensures var p := sites[s].page;
            Content(cats, sites[s := sites[s].(info := info)], p) == EditSite(Content(cats, sites, p), s, info)
  {
    var p, sites' := sites[s].page, sites[s := sites[s].(info := info)];
    forall k | k in cats && cats[k].page == p
      ensures SiteListing(sites', p, k) == SiteListing(sites, p, k)
    {
      assert CategorySites(sites', p, k) == CategorySites(sites, p, k);
      SiteListingFrame(sites, sites', p, k);
    }
    assert SiteLists(cats, sites', p) == SiteLists(cats, sites, p);
    assert SiteInfos(sites', p) == SiteInfos(sites, p)[s := info];
  }

  /** DELETE FROM sites removes the site from its list. */
  lemma DeleteSiteDrops(cats: CategoryTable, sites: SiteTable, s: Id)
    requires s in sites
    ensures var p := sites[s].page; Content(cats, sites - {s}, p) == DropSite(Content(cats, sites, p), s)
  {
    var p := sites[s].page;
    DeleteSiteLists(cats, sites, s);
  }

  lemma DeleteSiteListing(sites: SiteTable, s: Id, k: Id)
    requires s in sites
    ensures SiteListing(sites - {s}, sites[s].page, k) == Without(SiteListing(sites, sites[s].page, k), s)
  {
    var p, sites' := sites[s].page, sites - {s};
    ListingRemove(CategorySites(sites, p, k), s, SiteKeys(sites));
    assert CategorySites(sites', p, k) == CategorySites(sites, p, k) - {s};
    ListingFrame(CategorySites(sites', p, k), SiteKeys(sites), SiteKeys(sites'));
  }

  lemma DeleteSiteLists(cats: CategoryTable, sites: SiteTable, s: Id)
    requires s in sites
    ensures var p := sites[s].page;
            SiteLists(cats, sites - {s}, p) == DropSite(Content(cats, sites, p), s).lists
  {
    var p := sites[s].page;
    var a, b := SiteLists(cats, sites - {s}, p), DropSite(Content(cats, sites, p), s).lists;
    assert forall k :: k in a <==> k in b;
    forall k | k in a ensures a[k] == b[k] {
      DeleteSiteListing(sites, s, k);
    }
  }

  /** Re-pointing a site to another category at MAX(sort_order) + 1 is
      remove-then-append. */
  lemma RepointSiteMoves(cats: CategoryTable, sites: SiteTable, s: Id, c: Id, n: nat)
    requires s in sites && c in cats && cats[c].page == sites[s].page && c != sites[s].category
    requires forall u :: u in CategorySites(sites, sites[s].page, c) ==> sites[u].sortOrder < n
    ensures var p := sites[s].page;
            Content(cats, sites[s := sites[s].(category := c, sortOrder := n)], p)
                == MoveSite(Content(cats, sites, p), s, c)
  {
    var p := sites[s].page;
    var row := sites[s].(category := c, sortOrder := n);
    var d := Content(cats, sites, p);
    DeleteSiteDrops(cats, sites, s);
    ReinsertAppends(cats, sites, s, row);
    assert d.sites[s] == row.info;
    DropThenAdd(d, s, c);
  }

  lemma ReinsertAppends(cats: CategoryTable, sites: SiteTable, s: Id, row: SiteRow)
    requires s in sites && row.category in cats && cats[row.category].page == row.page == sites[s].page
    requires row.category != sites[s].category
    requires forall u :: u in CategorySites(sites, row.page, row.category) ==> sites[u].sortOrder < row.sortOrder
    ensures Content(cats, sites[s := row], row.page)
            == AddSite(Content(cats, sites - {s}, row.page), row.category, s, row.info)
  {
    InsertSiteAppends(cats, sites - {s}, s, row);
    Reinsert(sites, s, row);
  }

  lemma Reinsert(sites: SiteTable, s: Id, row: SiteRow)
    ensures (sites - {s})[s := row] == sites[s := row]
  {}

  lemma DropThenAdd(d: Draft, s: Id, c: Id)
    requires s in d.sites && c in d.lists
    ensures AddSite(DropSite(d, s), c, s, d.sites[s]) == MoveSite(d, s, c)
  {
    assert AddSite(DropSite(d, s), c, s, d.sites[s]).lists == MoveSite(d, s, c).lists;
    assert AddSite(DropSite(d, s), c, s, d.sites[s]).sites == d.sites;
  }
}
