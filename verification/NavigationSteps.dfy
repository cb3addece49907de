/** For each write transaction: the rows it leaves behind show the intended
    list edit, on that page only, and keep every constraint. */
module NavigationSteps {
  import opened Prelude
  import opened Ordering
  import opened Drafts
  import opened Tables
  import opened Renumbering
  import opened NavigationModel

  /** touchDraft */
  function Touch(pages: map<Id, PageRow>, p: Id): map<Id, PageRow>
    requires p in pages
  {
    pages[p := pages[p].(revision := pages[p].revision + 1)]
  }

  /** Rows of other pages are untouched. */
  ghost predicate OtherCategories(cats: CategoryTable, cats': CategoryTable, p: Id) {
    && (forall c :: c in cats && cats[c].page != p ==> c in cats' && cats'[c] == cats[c])
    && (forall c :: c in cats' && cats'[c].page != p ==> c in cats && cats'[c] == cats[c])
  }

  ghost predicate OtherSites(sites: SiteTable, sites': SiteTable, p: Id) {
    && (forall s :: s in sites && sites[s].page != p ==> s in sites' && sites'[s] == sites[s])
    && (forall s :: s in sites' && sites'[s].page != p ==> s in sites && sites'[s] == sites[s])
  }

  lemma OtherPages(cats: CategoryTable, sites: SiteTable, cats': CategoryTable, sites': SiteTable, p: Id, q: Id)
    requires OtherCategories(cats, cats', p) && OtherSites(sites, sites', p) && q != p
    ensures Content(cats, sites, q) == Content(cats', sites', q)
  {
    assert PageCategories(cats', q) == PageCategories(cats, q);
    assert PageSites(sites', q) == PageSites(sites, q);
    ContentFrame(cats, sites, cats', sites', q);
  }

  /** The content part of a draft. */
  function Bare(d: Draft): Draft {
    d.(title := "", description := "", settings := "")
  }

  /** Common tail of every content edit. */
  lemma Finish(db: Db, db': Db, p: Id, d: Draft)
    requires Valid(db) && p in db.pages
    requires db' == db.(categories := db'.categories, sites := db'.sites, pages := Touch(db.pages, p))
    requires Content(db'.categories, db'.sites, p) == Bare(d)
    requires d.title == db.pages[p].title && d.description == db.pages[p].description
             && d.settings == db.pages[p].settings
    requires OtherCategories(db.categories, db'.categories, p) && OtherSites(db.sites, db'.sites, p)
    requires RowsValid(db'.categories, db'.sites, db.pages.Keys)
    ensures NextDraft(db, db', p, d) && Valid(db')
  {
    FinishDraft(db, db', p, d);
    NextDraftValid(db, db', p, d);
  }

  lemma FinishDraft(db: Db, db': Db, p: Id, d: Draft)
    requires p in db.pages
    requires db' == db.(categories := db'.categories, sites := db'.sites, pages := Touch(db.pages, p))
    requires Content(db'.categories, db'.sites, p) == Bare(d)
    requires d.title == db.pages[p].title && d.description == db.pages[p].description
             && d.settings == db.pages[p].settings
    requires OtherCategories(db.categories, db'.categories, p) && OtherSites(db.sites, db'.sites, p)
    ensures NextDraft(db, db', p, d)
  {
    forall q | q in db.pages && q != p ensures DraftAt(db', q) == DraftAt(db, q) {
      OtherPages(db.categories, db.sites, db'.categories, db'.sites, p, q);
    }
  }

  predicate NameFree(cats: CategoryTable, p: Id, c: Id, name: string) {
    forall d :: d in cats && d != c && cats[d].page == p ==> NoCase(cats[d].info.name) != NoCase(name)
  }

  predicate UrlFree(sites: SiteTable, p: Id, s: Id, url: string) {
    forall u :: u in sites && u != s && sites[u].page == p ==> sites[u].info.url != url
  }

  // -------------------------------------------------------------- categories

  /** Keeping the uncategorized rows keeps every page's uncategorized category. */
  lemma KeepPagesOwned(cats: CategoryTable, cats': CategoryTable, pages: set<Id>)
    requires PagesOwned(cats, pages)
    requires forall c :: c in cats' ==> cats'[c].page in pages
    requires forall c :: c in cats && cats[c].info.uncategorized ==>
               c in cats' && cats'[c].page == cats[c].page && cats'[c].info.uncategorized
    ensures PagesOwned(cats', pages)
  {
    forall p | p in pages ensures HasUncategorized(cats', p) {
      assert HasUncategorized(cats, p);
      var c :| c in cats && cats[c].page == p && cats[c].info.uncategorized;
      assert c in cats';
    }
  }

  lemma PutCategoryValid(cats: CategoryTable, sites: SiteTable, pages: set<Id>, c: Id, row: CategoryRow)
    requires RowsValid(cats, sites, pages) && row.page in pages
    requires NameFree(cats, row.page, c, row.info.name)
    requires c in cats ==> cats[c].page == row.page && cats[c].info.uncategorized == row.info.uncategorized
    requires c !in cats ==> !row.info.uncategorized
    ensures RowsValid(cats[c := row], sites, pages) && OtherCategories(cats, cats[c := row], row.page)
  {
    KeepPagesOwned(cats, cats[c := row], pages);
    PutCategoryUnique(cats, c, row);
    PutCategoryOwned(cats, sites, c, row);
  }

  lemma PutCategoryUnique(cats: CategoryTable, c: Id, row: CategoryRow)
    requires CategoriesValid(cats) && NameFree(cats, row.page, c, row.info.name)
    requires c in cats ==> cats[c].page == row.page && cats[c].info.uncategorized == row.info.uncategorized
    requires c !in cats ==> !row.info.uncategorized
    ensures CategoriesValid(cats[c := row])
  {}

  lemma PutCategoryOwned(cats: CategoryTable, sites: SiteTable, c: Id, row: CategoryRow)
    requires SitesValid(cats, sites) && (c in cats ==> cats[c].page == row.page)
    ensures SitesValid(cats[c := row], sites) && OtherCategories(cats, cats[c := row], row.page)
  {}

  lemma CreateCategoryStep(db: Db, p: Id, c: Id, row: CategoryRow)
    requires Valid(db) && p in db.pages && c !in db.categories
    requires row.page == p && !row.info.uncategorized && NameFree(db.categories, p, c, row.info.name)
    requires forall d :: d in PageCategories(db.categories, p) ==> db.categories[d].sortOrder < row.sortOrder
    ensures var db' := db.(categories := db.categories[c := row], pages := Touch(db.pages, p));
            NextDraft(db, db', p, AddCategory(DraftAt(db, p), c, row.info)) && Valid(db')
  {
    var db' := db.(categories := db.categories[c := row], pages := Touch(db.pages, p));
    InsertCategoryAppends(db.categories, db.sites, c, row);
    PutCategoryValid(db.categories, db.sites, db.pages.Keys, c, row);
    Finish(db, db', p, AddCategory(DraftAt(db, p), c, row.info));
  }

  lemma UpdateCategoryStep(db: Db, p: Id, c: Id, info: CategoryInfo)
    requires Valid(db) && p in db.pages && c in db.categories && db.categories[c].page == p
    requires info.uncategorized == db.categories[c].info.uncategorized && NameFree(db.categories, p, c, info.name)
    ensures var db' := db.(categories := db.categories[c := db.categories[c].(info := info)],
            pages := Touch(db.pages, p));
            NextDraft(db, db', p, EditCategory(DraftAt(db, p), c, info)) && Valid(db')
  {
    var row := db.categories[c].(info := info);
    var db' := db.(categories := db.categories[c := row], pages := Touch(db.pages, p));
    UpdateCategoryEdits(db.categories, db.sites, c, info);
    PutCategoryValid(db.categories, db.sites, db.pages.Keys, c, row);
    Finish(db, db', p, EditCategory(DraftAt(db, p), c, info));
  }

  /** Deletes `c` and its sites, then renumbers the page's categories. */
  lemma DeleteCategoryStep(db: Db, p: Id, c: Id)
    requires Valid(db) && p in db.pages && c in db.categories && db.categories[c].page == p
    requires !db.categories[c].info.uncategorized
    ensures var cats, sites := db.categories - {c}, db.sites - CategorySites(db.sites, p, c);
            var db' := db.(categories := NumberCategories(cats, CategoryListing(cats, p)), sites := sites,
                pages := Touch(db.pages, p));
            c in DraftAt(db, p).lists && NextDraft(db, db', p, DropCategory(DraftAt(db, p), c)) && Valid(db')
  {
    var cats, sites := db.categories - {c}, db.sites - CategorySites(db.sites, p, c);
    var db' := db.(categories := NumberCategories(cats, CategoryListing(cats, p)), sites := sites,
        pages := Touch(db.pages, p));
    DeleteCategoryDrops(db.categories, db.sites, c);
    NormalizeCategories(cats, sites, p, p);
    DeleteCategoryValid(db.categories, db.sites, db.pages.Keys, p, c);
    NumberedCategoriesValid(cats, sites, db.pages.Keys, p);
    DeletedCategories(db.categories, p, c);
    Finish(db, db', p, DropCategory(DraftAt(db, p), c));
  }

  lemma DeletedCategories(cats: CategoryTable, p: Id, c: Id)
    requires c in cats && cats[c].page == p
    ensures OtherCategories(cats, NumberCategories(cats - {c}, CategoryListing(cats - {c}, p)), p)
  {
    NumberedInfos(cats - {c}, p);
  }

  lemma DeleteCategoryValid(cats: CategoryTable, sites: SiteTable, pages: set<Id>, p: Id, c: Id)
    requires RowsValid(cats, sites, pages) && c in cats && cats[c].page == p && !cats[c].info.uncategorized
    ensures RowsValid(cats - {c}, sites - CategorySites(sites, p, c), pages)
  {
    KeepPagesOwned(cats, cats - {c}, pages);
  }

  lemma NumberedCategoriesValid(cats: CategoryTable, sites: SiteTable, pages: set<Id>, p: Id)
    requires RowsValid(cats, sites, pages)
    ensures RowsValid(NumberCategories(cats, CategoryListing(cats, p)), sites, pages)
  {
    var cats' := NumberCategories(cats, CategoryListing(cats, p));
    NumberedInfos(cats, p);
  }

  // ------------------------------------------------------------------- sites

  lemma PutSiteValid(cats: CategoryTable, sites: SiteTable, s: Id, row: SiteRow)
    requires SitesValid(cats, sites)
    requires row.category in cats && cats[row.category].page == row.page
    requires UrlFree(sites, row.page, s, row.info.url)
    requires s in sites ==> sites[s].page == row.page
    ensures SitesValid(cats, sites[s := row]) && OtherSites(sites, sites[s := row], row.page)
  {}

  lemma CreateSiteStep(db: Db, s: Id, row: SiteRow)
    requires Valid(db) && row.page in db.pages && s !in db.sites
    requires row.category in db.categories && db.categories[row.category].page == row.page
    requires UrlFree(db.sites, row.page, s, row.info.url)
    requires forall u :: u in CategorySites(db.sites, row.page, row.category) ==> db.sites[u].sortOrder < row.sortOrder
    ensures var p, db' := row.page, db.(sites := db.sites[s := row], pages := Touch(db.pages, row.page));
            row.category in DraftAt(db, p).lists
            && NextDraft(db, db', p, AddSite(DraftAt(db, p), row.category, s, row.info)) && Valid(db')
  {
    var p, db' := row.page, db.(sites := db.sites[s := row], pages := Touch(db.pages, row.page));
    InsertSiteAppends(db.categories, db.sites, s, row);
    PutSiteValid(db.categories, db.sites, s, row);
    Finish(db, db', p, AddSite(DraftAt(db, p), row.category, s, row.info));
  }

  lemma EditSiteStep(db: Db, s: Id, info: SiteInfo)
    requires Valid(db) && s in db.sites && db.sites[s].page in db.pages
    requires UrlFree(db.sites, db.sites[s].page, s, info.url)
    ensures var p := db.sites[s].page;
            var db' := db.(sites := db.sites[s := db.sites[s].(info := info)], pages := Touch(db.pages, p));
            NextDraft(db, db', p, EditSite(DraftAt(db, p), s, info)) && Valid(db')
  {
    var p, row := db.sites[s].page, db.sites[s].(info := info);
    var db' := db.(sites := db.sites[s := row], pages := Touch(db.pages, p));
    UpdateSiteEdits(db.categories, db.sites, s, info);
    PutSiteValid(db.categories, db.sites, s, row);
    Finish(db, db', p, EditSite(DraftAt(db, p), s, info));
  }

  lemma NumberedSitesValid(cats: CategoryTable, sites: SiteTable, p: Id, c: Id)
    requires SitesValid(cats, sites)
    ensures SitesValid(cats, NumberSites(sites, SiteListing(sites, p, c)))
  {
    var sites' := NumberSites(sites, SiteListing(sites, p, c));
    NumberedPages(sites, p, c);
  }

  lemma NumberedPages(sites: SiteTable, p: Id, c: Id)
    ensures var sites' := NumberSites(sites, SiteListing(sites, p, c));
            sites'.Keys == sites.Keys && OtherSites(sites, sites', p)
            && forall s :: s in sites ==>
                 sites'[s].page == sites[s].page && sites'[s].category == sites[s].category
                     && sites'[s].info == sites[s].info
  {
    var sites' := NumberSites(sites, SiteListing(sites, p, c));
    NumberedSiteRows(sites, p, c);
    forall s | s in sites
      ensures sites'[s].page == sites[s].page && sites'[s].category == sites[s].category
              && sites'[s].info == sites[s].info
    {
      var a, b := sites'[s].(sortOrder := 0), sites[s].(sortOrder := 0);
      assert a.page == b.page && a.category == b.category && a.info == b.info;
    }
  }

  /** Re-points and edits the site, then renumbers the category it left. */
  lemma MoveSiteStep(db: Db, s: Id, c: Id, n: nat, info: SiteInfo)
    requires Valid(db) && s in db.sites && db.sites[s].page in db.pages
    requires c in db.categories && db.categories[c].page == db.sites[s].page && c != db.sites[s].category
    requires forall u :: u in CategorySites(db.sites, db.sites[s].page, c) ==> db.sites[u].sortOrder < n
    requires UrlFree(db.sites, db.sites[s].page, s, info.url)
    ensures var p, left := db.sites[s].page, db.sites[s].category;
            var sites := db.sites[s := SiteRow(p, c, info, n)];
            var db' := db.(sites := NumberSites(sites, SiteListing(sites, p, left)), pages := Touch(db.pages, p));
            c in DraftAt(db, p).lists
            && NextDraft(db, db', p, EditSite(MoveSite(DraftAt(db, p), s, c), s, info)) && Valid(db')
  {
    var p, left := db.sites[s].page, db.sites[s].category;
    var sites := db.sites[s := SiteRow(p, c, info, n)];
    var db' := db.(sites := NumberSites(sites, SiteListing(sites, p, left)), pages := Touch(db.pages, p));
    MovedContent(db.categories, db.sites, s, c, n, info);
    NormalizeSites(db.categories, sites, p, left, p);
    PutSiteValid(db.categories, db.sites, s, SiteRow(p, c, info, n));
    NumberedSitesValid(db.categories, sites, p, left);
    NumberedPages(sites, p, left);
    Finish(db, db', p, EditSite(MoveSite(DraftAt(db, p), s, c), s, info));
  }

  lemma MovedContent(cats: CategoryTable, sites: SiteTable, s: Id, c: Id, n: nat, info: SiteInfo)
    requires s in sites && c in cats && cats[c].page == sites[s].page && c != sites[s].category
    requires forall u :: u in CategorySites(sites, sites[s].page, c) ==> sites[u].sortOrder < n
    ensures var p := sites[s].page;
            Content(cats, sites[s := SiteRow(p, c, info, n)], p)
                == EditSite(MoveSite(Content(cats, sites, p), s, c), s, info)
  {
    var moved := sites[s := sites[s].(category := c, sortOrder := n)];
    RepointSiteMoves(cats, sites, s, c, n);
    UpdateSiteEdits(cats, moved, s, info);
    OverwriteRow(sites, s, c, n, info);
  }

  lemma OverwriteRow(sites: SiteTable, s: Id, c: Id, n: nat, info: SiteInfo)
    requires s in sites
    ensures var moved := sites[s := sites[s].(category := c, sortOrder := n)];
            moved[s := moved[s].(info := info)] == sites[s := SiteRow(sites[s].page, c, info, n)]
  {}

  /** Deletes the site, then renumbers its category. */
  lemma DeleteSiteStep(db: Db, s: Id)
    requires Valid(db) && s in db.sites && db.sites[s].page in db.pages
    ensures var p, c, sites := db.sites[s].page, db.sites[s].category, db.sites - {s};
            var db' := db.(sites := NumberSites(sites, SiteListing(sites, p, c)), pages := Touch(db.pages, p));
            NextDraft(db, db', p, DropSite(DraftAt(db, p), s)) && Valid(db')
  {
    var p, c, sites := db.sites[s].page, db.sites[s].category, db.sites - {s};
    var db' := db.(sites := NumberSites(sites, SiteListing(sites, p, c)), pages := Touch(db.pages, p));
    DeleteSiteDrops(db.categories, db.sites, s);
    NormalizeSites(db.categories, sites, p, c, p);
    DeletedSiteValid(db.categories, db.sites, s);
    NumberedSitesValid(db.categories, sites, p, c);
    NumberedPages(sites, p, c);
    Finish(db, db', p, DropSite(DraftAt(db, p), s));
  }

  lemma DeletedSiteValid(cats: CategoryTable, sites: SiteTable, s: Id)
    requires SitesValid(cats, sites) && s in sites
    ensures SitesValid(cats, sites - {s}) && OtherSites(sites, sites - {s}, sites[s].page)
  {}

  /** The administrator's delete leaves the gap in the numbering. */
  lemma DeleteSiteOnlyStep(db: Db, s: Id)
    requires Valid(db) && s in db.sites && db.sites[s].page in db.pages
    ensures var p := db.sites[s].page;
            var db' := db.(sites := db.sites - {s}, pages := Touch(db.pages, p));
            NextDraft(db, db', p, DropSite(DraftAt(db, p), s)) && Valid(db')
  {
    var p := db.sites[s].page;
    var db' := db.(sites := db.sites - {s}, pages := Touch(db.pages, p));
    DeleteSiteDrops(db.categories, db.sites, s);
    DeletedSiteValid(db.categories, db.sites, s);
    Finish(db, db', p, DropSite(DraftAt(db, p), s));
  }

  // -------------------------------------------------------------- many rows

  /** UPDATE sites SET enabled = ? WHERE page_id = ? AND id IN (...) */
  function EnableRows(sites: SiteTable, p: Id, ids: seq<Id>, enabled: bool): SiteTable {
    map s | s in sites :: if sites[s].page == p && s in ids
                          then sites[s].(info := sites[s].info.(enabled := enabled)) else sites[s]
  }

  lemma EnableSitesStep(db: Db, p: Id, ids: seq<Id>, enabled: bool)
    requires Valid(db) && p in db.pages
    ensures var db' := db.(sites := EnableRows(db.sites, p, ids, enabled), pages := Touch(db.pages, p));
            NextDraft(db, db', p, EnableSites(DraftAt(db, p), ids, enabled)) && Valid(db')
  {
    var sites := EnableRows(db.sites, p, ids, enabled);
    var db' := db.(sites := sites, pages := Touch(db.pages, p));
    EnabledContent(db.categories, db.sites, p, ids, enabled);
    EnabledValid(db.categories, db.sites, p, ids, enabled);
    Finish(db, db', p, EnableSites(DraftAt(db, p), ids, enabled));
  }

  lemma EnabledContent(cats: CategoryTable, sites: SiteTable, p: Id, ids: seq<Id>, enabled: bool)
    ensures Content(cats, EnableRows(sites, p, ids, enabled), p) == EnableSites(Content(cats, sites, p), ids, enabled)
  {
    EnabledLists(cats, sites, p, ids, enabled);
  }

  lemma EnabledValid(cats: CategoryTable, sites: SiteTable, p: Id, ids: seq<Id>, enabled: bool)
    requires SitesValid(cats, sites)
    ensures var sites' := EnableRows(sites, p, ids, enabled); SitesValid(cats, sites') && OtherSites(sites, sites', p)
  {}

  lemma EnabledLists(cats: CategoryTable, sites: SiteTable, p: Id, ids: seq<Id>, enabled: bool)
    ensures SiteLists(cats, EnableRows(sites, p, ids, enabled), p) == SiteLists(cats, sites, p)
  {
    var sites' := EnableRows(sites, p, ids, enabled);
    var a, b := SiteLists(cats, sites', p), SiteLists(cats, sites, p);
    forall c | c in a ensures a[c] == b[c] {
      EnabledListing(sites, p, ids, enabled, c);
    }
  }

  lemma EnabledListing(sites: SiteTable, p: Id, ids: seq<Id>, enabled: bool, c: Id)
    ensures SiteListing(EnableRows(sites, p, ids, enabled), p, c) == SiteListing(sites, p, c)
  {
    var sites' := EnableRows(sites, p, ids, enabled);
    assert CategorySites(sites', p, c) == CategorySites(sites, p, c);
    SiteListingFrame(sites, sites', p, c);
  }

  /** Moves every site of `c` to the uncategorized category `u`, then deletes `c`. */
  lemma MoveAndDeleteStep(db: Db, p: Id, c: Id, u: Id, base: nat)
    requires Valid(db) && p in db.pages && c in db.categories && db.categories[c].page == p
    requires !db.categories[c].info.uncategorized
    requires u in db.categories && db.categories[u].page == p && db.categories[u].info.uncategorized
    requires forall s :: s in CategorySites(db.sites, p, u) ==> db.sites[s].sortOrder < base
    ensures var cats, sites := db.categories - {c}, PlaceSites(db.sites, p, SiteListing(db.sites, p, c), u, base);
            var db' := db.(categories := NumberCategories(cats, CategoryListing(cats, p)), sites := sites,
                pages := Touch(db.pages, p));
            && CategorySites(sites, p, c) == {}
            && c in DraftAt(db, p).lists && u in DraftAt(db, p).lists
            && NextDraft(db, db', p, DropCategory(PourSites(DraftAt(db, p), c, u), c)) && Valid(db')
  {
    var cats, sites := db.categories - {c}, PlaceSites(db.sites, p, SiteListing(db.sites, p, c), u, base);
    var db' := db.(categories := NumberCategories(cats, CategoryListing(cats, p)), sites := sites,
        pages := Touch(db.pages, p));
    PouredValid(db.categories, db.sites, p, c, u, base);
    PlaceSitesPours(db.categories, db.sites, p, c, u, base);
    DeleteCategoryDrops(db.categories, sites, c);
    DeleteCategoryValid(db.categories, sites, db.pages.Keys, p, c);
    NothingToDelete(sites, p, c);
    NormalizeCategories(cats, sites, p, p);
    NumberedCategoriesValid(cats, sites, db.pages.Keys, p);
    DeletedCategories(db.categories, p, c);
    Finish(db, db', p, DropCategory(PourSites(DraftAt(db, p), c, u), c));
  }

  lemma NothingToDelete(sites: SiteTable, p: Id, c: Id)
    requires CategorySites(sites, p, c) == {}
    ensures sites - CategorySites(sites, p, c) == sites
  {}

  lemma PouredValid(cats: CategoryTable, sites: SiteTable, p: Id, c: Id, u: Id, base: nat)
    requires SitesValid(cats, sites) && u in cats && cats[u].page == p && u != c
    ensures var sites' := PlaceSites(sites, p, SiteListing(sites, p, c), u, base);
            SitesValid(cats, sites') && OtherSites(sites, sites', p) && CategorySites(sites', p, c) == {}
  {
    var q := SiteListing(sites, p, c);
    SiteListElems(sites, p, c);
    PlaceSitesAt(sites, p, q, u, base);
    PlacedRows(sites, p, q, u, base);
  }

  /** Writes the requested order over all rows of the page. */
  lemma ReorderStep(db: Db, p: Id, order: seq<CategoryOrder>) returns (d: Draft)
    requires Valid(db) && p in db.pages
    requires CompleteOrder(PageCategories(db.categories, p), PageSites(db.sites, p), order)
    ensures Arranged(DraftAt(db, p), order, d)
    ensures var db' := db.(categories := NumberCategories(db.categories, CategoryIds(order)),
                           sites := PlaceAll(db.sites, p, order), pages := Touch(db.pages, p));
            NextDraft(db, db', p, d) && Valid(db')
  {
    var cats, sites := NumberCategories(db.categories, CategoryIds(order)), PlaceAll(db.sites, p, order);
    var db' := db.(categories := cats, sites := sites, pages := Touch(db.pages, p));
    ReorderArranges(db.categories, db.sites, p, order);
    d := DraftAt(db', p);
    ReorderedValid(db.categories, db.sites, db.pages.Keys, p, order);
    Finish(db, db', p, d);
  }

  lemma ReorderedValid(cats: CategoryTable, sites: SiteTable, pages: set<Id>, p: Id, order: seq<CategoryOrder>)
    requires RowsValid(cats, sites, pages)
    requires CompleteOrder(PageCategories(cats, p), PageSites(sites, p), order)
    ensures var cats', sites' := NumberCategories(cats, CategoryIds(order)), PlaceAll(sites, p, order);
            RowsValid(cats', sites', pages) && OtherCategories(cats, cats', p) && OtherSites(sites, sites', p)
  {
    var q := CategoryIds(order);
    var cats', sites' := NumberCategories(cats, q), PlaceAll(sites, p, order);
    ReorderedCategories(cats, p, q);
    ReorderedElsewhere(cats, p, q);
    ReorderedSitesValid(cats, cats', sites, p, order);
  }

  lemma ReorderedElsewhere(cats: CategoryTable, p: Id, q: seq<Id>)
    requires NoDup(q) && Elems(q) == PageCategories(cats, p)
    ensures OtherCategories(cats, NumberCategories(cats, q), p)
  {
    assert forall x :: x in q <==> x in Elems(q);
    NumberCategoriesAt(cats, q);
    ReorderedCategories(cats, p, q);
  }

  lemma ReorderedSitesValid(cats: CategoryTable, cats': CategoryTable, sites: SiteTable, p: Id,
                            order: seq<CategoryOrder>)
    requires SitesValid(cats, sites) && cats'.Keys == cats.Keys
    requires forall c :: c in cats ==> cats'[c].page == cats[c].page
    requires CompleteOrder(PageCategories(cats, p), PageSites(sites, p), order)
    ensures SitesValid(cats', PlaceAll(sites, p, order)) && OtherSites(sites, PlaceAll(sites, p, order), p)
  {
    var q, sites' := CategoryIds(order), PlaceAll(sites, p, order);
    CompleteOnPage(sites, p, order);
    PlaceAllKeeps(sites, p, order);
    forall s | s in sites' ensures sites'[s].category in cats' && cats'[sites'[s].category].page == sites'[s].page {
      if s in AllSiteIds(order) {
        var i := AllSiteIdsFind(order, s);
        var j :| 0 <= j < |order[i].siteIds| && order[i].siteIds[j] == s;
        PlaceAllAt(sites, p, order, i, j);
        assert q[i] in Elems(q);
      }
    }
  }

  // -------------------------------------------------------------- page fields

  lemma PageFieldsStep(db: Db, p: Id, title: string, description: string, settings: string)
    requires Valid(db) && p in db.pages
    ensures var row := db.pages[p].(title := title, description := description, settings := settings,
            revision := db.pages[p].revision + 1);
            var db' := db.(pages := db.pages[p := row]);
            NextDraft(db, db', p, DraftAt(db, p).(title := title, description := description, settings := settings))
                && Valid(db')
  {
    var row := db.pages[p].(title := title, description := description, settings := settings,
        revision := db.pages[p].revision + 1);
    var db' := db.(pages := db.pages[p := row]);
    PageFieldsDraft(db, p, title, description, settings);
    NextDraftValid(db, db', p, DraftAt(db, p).(title := title, description := description, settings := settings));
  }

  lemma DraftFields(db: Db, p: Id)
    requires p in db.pages
    ensures var d := DraftAt(db, p);
            d.title == db.pages[p].title && d.description == db.pages[p].description
                && d.settings == db.pages[p].settings
  {}

  lemma PageFieldsDraft(db: Db, p: Id, title: string, description: string, settings: string)
    requires p in db.pages
    ensures var row := db.pages[p].(title := title, description := description, settings := settings,
            revision := db.pages[p].revision + 1);
            NextDraft(db, db.(pages := db.pages[p := row]), p,
                DraftAt(db, p).(title := title, description := description, settings := settings))
  {}
}
