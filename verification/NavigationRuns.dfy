/** The navigation tables as a transition system: what each transaction does to
    the rows, and what follows for every run of them. */
module NavigationRuns {
  import opened Prelude
  import opened Ordering
  import opened Drafts
  import opened Tables
  import opened Renumbering
  import opened NavigationModel
  import opened NavigationSteps
  import opened PublicationSteps
  import opened ImportModel

  // ------------------------------------------------- the rows each leaves behind

  function FieldsPut(db: Db, p: Id, title: string, description: string, settings: string): Db
    requires p in db.pages
  {
    db.(pages := db.pages[p := db.pages[p].(title := title, description := description, settings := settings,
                                            revision := db.pages[p].revision + 1)])
  }

  function CategoryPut(db: Db, p: Id, c: Id, row: CategoryRow): Db
    requires p in db.pages
  {
    db.(categories := db.categories[c := row], pages := Touch(db.pages, p))
  }

  function CategoryDropped(db: Db, p: Id, c: Id): Db
    requires p in db.pages
  {
    var cats := db.categories - {c};
    db.(categories := NumberCategories(cats, CategoryListing(cats, p)),
        sites := db.sites - CategorySites(db.sites, p, c), pages := Touch(db.pages, p))
  }

  /** The sites of `c` appended to `u` from `base` on, then `c` dropped. */
  function CategoryMerged(db: Db, p: Id, c: Id, u: Id, base: nat): Db
    requires p in db.pages
  {
    var cats := db.categories - {c};
    db.(categories := NumberCategories(cats, CategoryListing(cats, p)),
        sites := PlaceSites(db.sites, p, SiteListing(db.sites, p, c), u, base), pages := Touch(db.pages, p))
  }

  function SitePut(db: Db, s: Id, row: SiteRow): Db
    requires row.page in db.pages
  {
    db.(sites := db.sites[s := row], pages := Touch(db.pages, row.page))
  }

  /** The site re-pointed to `c`, and the category it left renumbered. */
  function SiteMoved(db: Db, s: Id, c: Id, n: nat, info: SiteInfo): Db
    requires s in db.sites && db.sites[s].page in db.pages
  {
    var p, left := db.sites[s].page, db.sites[s].category;
    var sites := db.sites[s := SiteRow(p, c, info, n)];
    db.(sites := NumberSites(sites, SiteListing(sites, p, left)), pages := Touch(db.pages, p))
  }

  function SiteDropped(db: Db, s: Id): Db
    requires s in db.sites && db.sites[s].page in db.pages
  {
    var p, c, sites := db.sites[s].page, db.sites[s].category, db.sites - {s};
    db.(sites := NumberSites(sites, SiteListing(sites, p, c)), pages := Touch(db.pages, p))
  }

  /** The administrator's deletion does not renumber. */
  function LinkDropped(db: Db, s: Id): Db
    requires s in db.sites && db.sites[s].page in db.pages
  {
    db.(sites := db.sites - {s}, pages := Touch(db.pages, db.sites[s].page))
  }

  function SitesSwitched(db: Db, p: Id, ids: seq<Id>, enabled: bool): Db
    requires p in db.pages
  {
    db.(sites := EnableRows(db.sites, p, ids, enabled), pages := Touch(db.pages, p))
  }

  function Reordered(db: Db, p: Id, order: seq<CategoryOrder>): Db
    requires p in db.pages
  {
    db.(categories := NumberCategories(db.categories, CategoryIds(order)), sites := PlaceAll(db.sites, p, order),
        pages := Touch(db.pages, p))
  }

  function RowPut(db: Db, p: Id, row: PublicationRow): Db {
    db.(publications := db.publications[p := row])
  }

  /** What an import leaves behind: the reference import's draft in rows that meet
      every constraint, at the next revision. */
  ghost predicate Imports(db: Db, db': Db, p: Id, replace: bool, items: seq<Selected>, ids: seq<Fresh>)
    requires p in db.pages && |ids| == |items|
  {
    var m := ImportAll(Start(Base(Content(db.categories, db.sites, p), replace)), items, ids, db.maxCategories,
        db.maxSites);
    && m.Ok?
    && RowsValid(db'.categories, db'.sites, db.pages.Keys)
    && NextDraft(db, db', p, WithContent(DraftAt(db, p), m.value.draft))
  }

  // ---------------------------------------------------------------- transactions

  datatype Action =
    | WriteFields(title: string, description: string, settings: string)
    | InsertCategory(category: Id, info: CategoryInfo)
    | UpdateCategory(category: Id, info: CategoryInfo)
    | DeleteCategory(category: Id)
    | MergeCategory(category: Id, into: Id)
    | InsertSite(site: Id, category: Id, siteInfo: SiteInfo)
    | UpdateSite(site: Id, siteInfo: SiteInfo)
    | RefileSite(site: Id, category: Id, siteInfo: SiteInfo)
    | DeleteSite(site: Id)
    | DeleteLink(site: Id)
    | SwitchSites(ids: seq<Id>, enabled: bool)
    | Reorder(order: seq<CategoryOrder>)
    | Import(replace: bool, items: seq<Selected>, drawn: seq<Fresh>)
    | SetRow(row: PublicationRow)
    | Publish(snapshot: Id, theme: Id, now: int)

  predicate OwnCategory(db: Db, p: Id, c: Id) {
    c in db.categories && db.categories[c].page == p
  }

  predicate OwnSite(db: Db, p: Id, s: Id) {
    s in db.sites && db.sites[s].page == p
  }

  /** The guards of a transaction on page `p` hold and these are the rows it leaves. */
  ghost predicate Takes(db: Db, p: Id, a: Action, db': Db) {
    && p in db.pages
    && match a
       case WriteFields(title, description, settings) => db' == FieldsPut(db, p, title, description, settings)
       case InsertCategory(c, info) =>
         && c !in db.categories && !info.uncategorized && NameFree(db.categories, p, c, info.name)
         && |PageCategories(db.categories, p)| < db.maxCategories
         && db' == CategoryPut(db, p, c,
             CategoryRow(p, info, NextOrder(PageCategories(db.categories, p), CategoryKeys(db.categories))))
       case UpdateCategory(c, info) =>
         && OwnCategory(db, p, c) && info.uncategorized == db.categories[c].info.uncategorized
         && NameFree(db.categories, p, c, info.name)
         && db' == CategoryPut(db, p, c, db.categories[c].(info := info))
       case DeleteCategory(c) =>
         OwnCategory(db, p, c) && !db.categories[c].info.uncategorized && db' == CategoryDropped(db, p, c)
       case MergeCategory(c, u) =>
         && OwnCategory(db, p, c) && !db.categories[c].info.uncategorized
         && OwnCategory(db, p, u) && db.categories[u].info.uncategorized
         && db' == CategoryMerged(db, p, c, u, NextOrder(CategorySites(db.sites, p, u), SiteKeys(db.sites)))
       case InsertSite(s, c, info) =>
         && s !in db.sites && OwnCategory(db, p, c) && UrlFree(db.sites, p, s, info.url)
         && |PageSites(db.sites, p)| < db.maxSites
         && db' == SitePut(db, s, SiteRow(p, c, info, NextOrder(CategorySites(db.sites, p, c), SiteKeys(db.sites))))
       case UpdateSite(s, info) =>
         OwnSite(db, p, s) && UrlFree(db.sites, p, s, info.url) && db' == SitePut(db, s, db.sites[s].(info := info))
       case RefileSite(s, c, info) =>
         && OwnSite(db, p, s) && OwnCategory(db, p, c) && c != db.sites[s].category && UrlFree(db.sites, p, s, info.url)
         && db' == SiteMoved(db, s, c, NextOrder(CategorySites(db.sites, p, c), SiteKeys(db.sites)), info)
       case DeleteSite(s) => OwnSite(db, p, s) && db' == SiteDropped(db, s)
       case DeleteLink(s) => OwnSite(db, p, s) && db' == LinkDropped(db, s)
       case SwitchSites(ids, enabled) => Elems(ids) <= PageSites(db.sites, p)
           && db' == SitesSwitched(db, p, ids, enabled)
       case Reorder(order) =>
         CompleteOrder(PageCategories(db.categories, p), PageSites(db.sites, p), order)
             && db' == Reordered(db, p, order)
       case Import(replace, items, ids) => |ids| == |items| && Imports(db, db', p, replace, items, ids)
       case SetRow(row) =>
         && p in db.publications && (row.snapshot == None || row.snapshot == db.publications[p].snapshot)
         && db' == RowPut(db, p, row)
       case Publish(s, theme, now) =>
         Publishable(db, p, s) && db' == AfterPublish(db, p, s, DraftSnapshot(db, p, theme, now), now)
  }

  /** One committed transaction, or one that was refused. */
  ghost predicate Step(db: Db, db': Db) {
    db' == db || exists p: Id, a: Action :: Takes(db, p, a, db')
  }

  lemma Idle(db: Db)
    ensures Step(db, db)
  {}

  lemma IsStep(db: Db, p: Id, a: Action, db': Db)
    requires Takes(db, p, a, db')
    ensures Step(db, db')
  {
    hide Takes;
  }

  // ------------------------------------------- each edits the draft as intended

  lemma WroteFields(db: Db, p: Id, title: string, description: string, settings: string)
    requires Valid(db) && p in db.pages
    ensures var db' := FieldsPut(db, p, title, description, settings);
            && NextDraft(db, db', p, DraftAt(db, p).(title := title, description := description, settings := settings))
            && Valid(db') && Step(db, db')
  {
    hide Valid, NextDraft, DraftAt, Step;
    PageFieldsStep(db, p, title, description, settings);
    IsStep(db, p, WriteFields(title, description, settings), FieldsPut(db, p, title, description, settings));
  }

  function NewCategoryRow(db: Db, p: Id, info: CategoryInfo): CategoryRow {
    CategoryRow(p, info, NextOrder(PageCategories(db.categories, p), CategoryKeys(db.categories)))
  }

  lemma InsertedCategory(db: Db, p: Id, c: Id, info: CategoryInfo)
    requires Valid(db) && p in db.pages && c !in db.categories && !info.uncategorized
             && NameFree(db.categories, p, c, info.name)
    requires |PageCategories(db.categories, p)| < db.maxCategories
    ensures var db' := CategoryPut(db, p, c, NewCategoryRow(db, p, info));
            NextDraft(db, db', p, AddCategory(DraftAt(db, p), c, info)) && Valid(db') && Step(db, db')
  {
    hide Valid, NextDraft, DraftAt, Step, AddCategory, NameFree;
    var row := NewCategoryRow(db, p, info);
    CreateCategoryStep(db, p, c, row);
    IsStep(db, p, InsertCategory(c, info), CategoryPut(db, p, c, row));
  }

  lemma UpdatedCategory(db: Db, p: Id, c: Id, info: CategoryInfo)
    requires Valid(db) && p in db.pages && OwnCategory(db, p, c) && NameFree(db.categories, p, c, info.name)
    requires info.uncategorized == db.categories[c].info.uncategorized
    ensures var db' := CategoryPut(db, p, c, db.categories[c].(info := info));
            NextDraft(db, db', p, EditCategory(DraftAt(db, p), c, info)) && Valid(db') && Step(db, db')
  {
    hide Valid, NextDraft, DraftAt, Step, EditCategory, NameFree;
    UpdateCategoryStep(db, p, c, info);
    IsStep(db, p, UpdateCategory(c, info), CategoryPut(db, p, c, db.categories[c].(info := info)));
  }

  lemma DroppedCategory(db: Db, p: Id, c: Id)
    requires Valid(db) && p in db.pages && OwnCategory(db, p, c) && !db.categories[c].info.uncategorized
    ensures var db' := CategoryDropped(db, p, c);
            && c in DraftAt(db, p).lists && NextDraft(db, db', p, DropCategory(DraftAt(db, p), c))
            && Valid(db') && Step(db, db')
  {
    hide Valid, NextDraft, DraftAt, Step, DropCategory;
    DeleteCategoryStep(db, p, c);
    IsStep(db, p, DeleteCategory(c), CategoryDropped(db, p, c));
  }

  lemma MergedCategory(db: Db, p: Id, c: Id, u: Id)
    requires Valid(db) && p in db.pages && OwnCategory(db, p, c) && !db.categories[c].info.uncategorized
    requires OwnCategory(db, p, u) && db.categories[u].info.uncategorized
    ensures var db' := CategoryMerged(db, p, c, u, NextOrder(CategorySites(db.sites, p, u), SiteKeys(db.sites)));
            && c in DraftAt(db, p).lists && u in DraftAt(db, p).lists
            && NextDraft(db, db', p, DropCategory(PourSites(DraftAt(db, p), c, u), c))
            && CategorySites(db'.sites, p, c) == {} && Valid(db') && Step(db, db')
  {
    hide Valid, NextDraft, DraftAt, Step, DropCategory, PourSites;
    var base: nat := NextOrder(CategorySites(db.sites, p, u), SiteKeys(db.sites));
    MoveAndDeleteStep(db, p, c, u, base);
    IsStep(db, p, MergeCategory(c, u), CategoryMerged(db, p, c, u, base));
  }

  function NewSiteRow(db: Db, p: Id, c: Id, info: SiteInfo): SiteRow {
    SiteRow(p, c, info, NextOrder(CategorySites(db.sites, p, c), SiteKeys(db.sites)))
  }

  lemma InsertedSite(db: Db, p: Id, s: Id, c: Id, info: SiteInfo)
    requires Valid(db) && p in db.pages && s !in db.sites && OwnCategory(db, p, c) && UrlFree(db.sites, p, s, info.url)
    requires |PageSites(db.sites, p)| < db.maxSites
    ensures var db' := SitePut(db, s, NewSiteRow(db, p, c, info));
            && c in DraftAt(db, p).lists && NextDraft(db, db', p, AddSite(DraftAt(db, p), c, s, info))
            && Valid(db') && Step(db, db')
  {
    hide Valid, NextDraft, DraftAt, Step, AddSite, UrlFree;
    var row := NewSiteRow(db, p, c, info);
    CreateSiteStep(db, s, row);
    IsStep(db, p, InsertSite(s, c, info), SitePut(db, s, row));
  }

  lemma UpdatedSite(db: Db, p: Id, s: Id, info: SiteInfo)
    requires Valid(db) && p in db.pages && OwnSite(db, p, s) && UrlFree(db.sites, p, s, info.url)
    ensures var db' := SitePut(db, s, db.sites[s].(info := info));
            NextDraft(db, db', p, EditSite(DraftAt(db, p), s, info)) && Valid(db') && Step(db, db')
  {
    hide Valid, NextDraft, DraftAt, Step, EditSite, UrlFree;
    EditSiteStep(db, s, info);
    IsStep(db, p, UpdateSite(s, info), SitePut(db, s, db.sites[s].(info := info)));
  }

  lemma RefiledSite(db: Db, p: Id, s: Id, c: Id, info: SiteInfo)
    requires Valid(db) && p in db.pages && OwnSite(db, p, s) && OwnCategory(db, p, c) && c != db.sites[s].category
    requires UrlFree(db.sites, p, s, info.url)
    ensures var db' := SiteMoved(db, s, c, NextOrder(CategorySites(db.sites, p, c), SiteKeys(db.sites)), info);
            && c in DraftAt(db, p).lists
                && NextDraft(db, db', p, EditSite(Drafts.MoveSite(DraftAt(db, p), s, c), s, info))
            && Valid(db') && Step(db, db')
  {
    hide Valid, NextDraft, DraftAt, Step, EditSite, Drafts.MoveSite, UrlFree;
    var n: nat := NextOrder(CategorySites(db.sites, p, c), SiteKeys(db.sites));
    MoveSiteStep(db, s, c, n, info);
    IsStep(db, p, RefileSite(s, c, info), SiteMoved(db, s, c, n, info));
  }

  lemma DroppedSite(db: Db, p: Id, s: Id)
    requires Valid(db) && p in db.pages && OwnSite(db, p, s)
    ensures var db' := SiteDropped(db, s);
            NextDraft(db, db', p, DropSite(DraftAt(db, p), s)) && Valid(db') && Step(db, db')
  {
    hide Valid, NextDraft, DraftAt, Step, DropSite;
    DeleteSiteStep(db, s);
    IsStep(db, p, DeleteSite(s), SiteDropped(db, s));
  }

  lemma DroppedLink(db: Db, p: Id, s: Id)
    requires Valid(db) && p in db.pages && OwnSite(db, p, s)
    ensures var db' := LinkDropped(db, s);
            NextDraft(db, db', p, DropSite(DraftAt(db, p), s)) && Valid(db') && Step(db, db')
  {
    hide Valid, NextDraft, DraftAt, Step, DropSite;
    DeleteSiteOnlyStep(db, s);
    IsStep(db, p, DeleteLink(s), LinkDropped(db, s));
  }

  lemma SwitchedSites(db: Db, p: Id, ids: seq<Id>, enabled: bool)
    requires Valid(db) && p in db.pages && Elems(ids) <= PageSites(db.sites, p)
    ensures var db' := SitesSwitched(db, p, ids, enabled);
            NextDraft(db, db', p, EnableSites(DraftAt(db, p), ids, enabled)) && Valid(db') && Step(db, db')
  {
    hide Valid, NextDraft, DraftAt, Step, EnableSites, Elems, PageSites;
    EnableSitesStep(db, p, ids, enabled);
    IsStep(db, p, SwitchSites(ids, enabled), SitesSwitched(db, p, ids, enabled));
  }

  lemma ReorderedContent(db: Db, p: Id, order: seq<CategoryOrder>) returns (d: Draft)
    requires Valid(db) && p in db.pages
    requires CompleteOrder(PageCategories(db.categories, p), PageSites(db.sites, p), order)
    ensures var db' := Reordered(db, p, order);
            && Arranged(DraftAt(db, p), order, d) && NextDraft(db, db', p, d) && DraftAt(db', p) == d
            && Valid(db') && Step(db, db')
  {
    hide Valid, DraftAt, Step, Arranged, CompleteOrder;
    d := ReorderStep(db, p, order);
    hide NextDraft;
    IsStep(db, p, Reorder(order), Reordered(db, p, order));
  }

  lemma ImportedContent(db: Db, db': Db, p: Id, replace: bool, items: seq<Selected>, ids: seq<Fresh>)
    requires Valid(db) && p in db.pages && |ids| == |items| && Imports(db, db', p, replace, items, ids)
    ensures Valid(db') && Committed(db, db') && Step(db, db')
  {
    hide Valid, NextDraft, DraftAt, Step, RowsValid, ImportAll, Committed;
    var m := ImportAll(Start(Base(Content(db.categories, db.sites, p), replace)), items, ids, db.maxCategories,
        db.maxSites);
    NextDraftValid(db, db', p, WithContent(DraftAt(db, p), m.value.draft));
    NextDraftCommitted(db, db', p, WithContent(DraftAt(db, p), m.value.draft));
    hide Imports;
    IsStep(db, p, Import(replace, items, ids), db');
  }

  lemma PutRow(db: Db, p: Id, row: PublicationRow)
    requires Valid(db) && p in db.pages && p in db.publications
    requires row.snapshot == None || row.snapshot == db.publications[p].snapshot
    ensures var db' := RowPut(db, p, row); Valid(db') && Committed(db, db') && Step(db, db')
  {
    hide Valid, Committed, Step;
    RowOnlyStep(db, p, row);
    IsStep(db, p, SetRow(row), RowPut(db, p, row));
  }

  lemma Published(db: Db, p: Id, s: Id, theme: Id, now: int)
    requires Valid(db) && p in db.pages && Publishable(db, p, s)
    ensures var db' := AfterPublish(db, p, s, DraftSnapshot(db, p, theme, now), now);
            Valid(db') && Committed(db, db') && PublishedAs(db, db', p, s, theme, now) && Step(db, db')
  {
    hide Valid, Committed, Step, PublishedAs, DraftSnapshot, AfterPublish, SlugLiveElsewhere, LiveResolves, Takes;
    PublishStep(db, p, s, theme, now);
    PublishIsStep(db, p, s, theme, now);
  }

  lemma PublishIsStep(db: Db, p: Id, s: Id, theme: Id, now: int)
    requires p in db.pages && p in db.publications && Publishable(db, p, s)
    ensures Step(db, AfterPublish(db, p, s, DraftSnapshot(db, p, theme, now), now))
  {
    hide Step, DraftSnapshot, AfterPublish, Publishable;
    IsStep(db, p, Publish(s, theme, now), AfterPublish(db, p, s, DraftSnapshot(db, p, theme, now), now));
  }

  // ------------------------------------------------------------------ every step

  lemma CategoryActionKeeps(db: Db, p: Id, a: Action, db': Db)
    requires Valid(db) && Takes(db, p, a, db')
    requires a.InsertCategory? || a.UpdateCategory? || a.DeleteCategory? || a.MergeCategory?
    ensures Valid(db') && Committed(db, db')
  {
    hide Valid, Committed, Step, NextDraft, DraftAt, NameFree, CategoryPut, CategoryDropped, CategoryMerged;
    match a {
      case InsertCategory(c, info) =>
        InsertedCategory(db, p, c, info);
        NextDraftCommitted(db, db', p, AddCategory(DraftAt(db, p), c, info));
      case UpdateCategory(c, info) =>
        UpdatedCategory(db, p, c, info);
        NextDraftCommitted(db, db', p, EditCategory(DraftAt(db, p), c, info));
      case DeleteCategory(c) =>
        DroppedCategory(db, p, c);
        NextDraftCommitted(db, db', p, DropCategory(DraftAt(db, p), c));
      case MergeCategory(c, u) =>
        MergedCategory(db, p, c, u);
        NextDraftCommitted(db, db', p, DropCategory(PourSites(DraftAt(db, p), c, u), c));
    }
  }

  lemma SiteActionKeeps(db: Db, p: Id, a: Action, db': Db)
    requires Valid(db) && Takes(db, p, a, db')
    requires a.InsertSite? || a.UpdateSite? || a.RefileSite? || a.DeleteSite? || a.DeleteLink? || a.SwitchSites?
    ensures Valid(db') && Committed(db, db')
  {
    hide Valid, Committed, Step, NextDraft, DraftAt, UrlFree, SitePut, SiteMoved, SiteDropped, LinkDropped,
         SitesSwitched;
    match a {
      case InsertSite(s, c, info) =>
        InsertedSite(db, p, s, c, info);
        NextDraftCommitted(db, db', p, AddSite(DraftAt(db, p), c, s, info));
      case UpdateSite(s, info) =>
        UpdatedSite(db, p, s, info);
        NextDraftCommitted(db, db', p, EditSite(DraftAt(db, p), s, info));
      case RefileSite(s, c, info) =>
        RefiledSite(db, p, s, c, info);
        NextDraftCommitted(db, db', p, EditSite(Drafts.MoveSite(DraftAt(db, p), s, c), s, info));
      case DeleteSite(s) =>
        DroppedSite(db, p, s);
        NextDraftCommitted(db, db', p, DropSite(DraftAt(db, p), s));
      case DeleteLink(s) =>
        DroppedLink(db, p, s);
        NextDraftCommitted(db, db', p, DropSite(DraftAt(db, p), s));
      case SwitchSites(ids, enabled) =>
        SwitchedSites(db, p, ids, enabled);
        NextDraftCommitted(db, db', p, EnableSites(DraftAt(db, p), ids, enabled));
    }
  }

  lemma OtherActionKeeps(db: Db, p: Id, a: Action, db': Db)
    requires Valid(db) && Takes(db, p, a, db')
    requires a.WriteFields? || a.Reorder? || a.Import? || a.SetRow? || a.Publish?
    ensures Valid(db') && Committed(db, db')
  {
    hide Valid, Committed, Step, NextDraft, DraftAt, FieldsPut, Reordered, Imports, RowPut, AfterPublish, DraftSnapshot;
    match a {
      case WriteFields(title, description, settings) =>
        WroteFields(db, p, title, description, settings);
        NextDraftCommitted(db, db', p,
            DraftAt(db, p).(title := title, description := description, settings := settings));
      case Reorder(order) =>
        var d := ReorderedContent(db, p, order);
        NextDraftCommitted(db, db', p, d);
      case Import(replace, items, ids) => ImportedContent(db, db', p, replace, items, ids);
      case SetRow(row) => PutRow(db, p, row);
      case Publish(s, theme, now) => Published(db, p, s, theme, now);
    }
  }

  /** Every transaction keeps the invariant, never moves a revision back, never
      changes a draft without a new revision and never touches a snapshot. */
  lemma StepKeeps(db: Db, db': Db)
    requires Valid(db) && Step(db, db')
    ensures Valid(db') && Committed(db, db')
  {
    hide Valid, Committed, Takes;
    if db' == db {
      NothingCommitted(db);
    } else {
      var p: Id, a: Action :| Takes(db, p, a, db');
      if a.InsertCategory? || a.UpdateCategory? || a.DeleteCategory? || a.MergeCategory? {
        CategoryActionKeeps(db, p, a, db');
      } else if a.WriteFields? || a.Reorder? || a.Import? || a.SetRow? || a.Publish? {
        OtherActionKeeps(db, p, a, db');
      } else {
        SiteActionKeeps(db, p, a, db');
      }
    }
  }

  // ------------------------------------------------------------------ whole runs

  /** Transactions in any order from tables that meet the invariant. */
  ghost predicate Run(states: seq<Db>) {
    && states != [] && Valid(states[0])
    && forall i :: 0 <= i < |states| - 1 ==> Step(states[i], states[i + 1])
  }

  lemma {:induction false} RunValid(states: seq<Db>, k: nat)
    requires Run(states) && k < |states|
    ensures Valid(states[k])
    ensures k + 1 < |states| ==> Committed(states[k], states[k + 1])
  {
    hide Valid, Step, Committed;
    if k > 0 {
      RunValid(states, k - 1);
      StepKeeps(states[k - 1], states[k]);
    }
    if k + 1 < |states| {
      StepKeeps(states[k], states[k + 1]);
    }
  }

  lemma {:induction false} RunMonotone(states: seq<Db>, i: nat, j: nat, p: Id)
    requires Run(states) && i <= j < |states| && p in states[i].pages
    ensures p in states[j].pages && states[i].pages[p].revision <= states[j].pages[p].revision
    decreases j - i
  {
    hide Run, RevisionAdvances;
    if i < j {
      RunValid(states, i);
      assert RevisionAdvances(states[i], states[i + 1], p);
      RunMonotone(states, i + 1, j, p);
      RevisionNotBack(states[i], states[i + 1], p);
    }
  }

  lemma RevisionNotBack(db: Db, db': Db, p: Id)
    requires p in db.pages && p in db'.pages && RevisionAdvances(db, db', p)
    ensures db.pages[p].revision <= db'.pages[p].revision
    ensures db.pages[p].revision == db'.pages[p].revision ==> DraftAt(db, p) == DraftAt(db', p)
  {
    hide DraftAt;
  }

  /** In any run, a page's draft is a function of its draft_revision. */
  lemma {:induction false} RevisionDeterminesDraft(states: seq<Db>, i: nat, j: nat, p: Id)
    requires Run(states) && i <= j < |states| && p in states[i].pages && p in states[j].pages
    requires states[i].pages[p].revision == states[j].pages[p].revision
    ensures DraftAt(states[i], p) == DraftAt(states[j], p)
    decreases j - i
  {
    hide Run, RevisionAdvances, DraftAt;
    if i < j {
      RunValid(states, i);
      assert RevisionAdvances(states[i], states[i + 1], p);
      RevisionNotBack(states[i], states[i + 1], p);
      RunMonotone(states, i + 1, j, p);
      RevisionDeterminesDraft(states, i + 1, j, p);
    }
  }

  lemma SnapshotKept(db: Db, db': Db, s: Id)
    requires Committed(db, db') && s in db.snapshots
    ensures s in db'.snapshots && db'.snapshots[s] == db.snapshots[s]
  {
    hide RevisionAdvances;
  }

  /** Snapshots are immutable along any run. */
  lemma {:induction false} SnapshotsImmutable(states: seq<Db>, i: nat, j: nat, s: Id)
    requires Run(states) && i <= j < |states| && s in states[i].snapshots
    ensures s in states[j].snapshots && states[j].snapshots[s] == states[i].snapshots[s]
    decreases j - i
  {
    hide Run, Committed;
    if i < j {
      RunValid(states, i);
      SnapshotKept(states[i], states[i + 1], s);
      SnapshotsImmutable(states, i + 1, j, s);
    }
  }

  /** In no state of any run do two live pages answer to one slug. */
  lemma RunSlugsUnique(states: seq<Db>, k: nat, slug: string)
    requires Run(states) && k < |states|
    ensures LiveResolves(states[k])
    ensures forall p, q :: p in PagesBySlug(states[k], slug) && q in PagesBySlug(states[k], slug) ==> p == q
  {
    RunValid(states, k);
    ValidFacts(states[k]);
    forall p, q | p in PagesBySlug(states[k], slug) && q in PagesBySlug(states[k], slug) ensures p == q {
      PublicBySlugUnique(states[k], slug, p, q);
    }
  }

  // -------------------------------------------- the one writer without a guard

  /** What clearing makes of some settings; None leaves them alone. */
  function WithoutBackground(clear: string -> Option<string>, settings: string): string {
    match clear(settings)
    case None => settings
    case Some(s) => s
  }

  /** The cleanup reads settings at state `i` and writes at state `k` what clearing
      made of them. The page then shows the draft of state `k`, cleared, if and
      only if clearing forgets every difference; an unmoved revision suffices. */
  lemma LateClear(states: seq<Db>, i: nat, k: nat, p: Id, clear: string -> Option<string>)
    requires Run(states) && i <= k < |states| - 1 && p in states[i].pages && p in states[k].pages
    requires clear(states[i].pages[p].settings).Some?
    requires var row := states[k].pages[p];
             Takes(states[k], p,
                 WriteFields(row.title, row.description, WithoutBackground(clear, states[i].pages[p].settings)),
                 states[k + 1])
    ensures var seen, now := states[i].pages[p].settings, states[k].pages[p].settings;
            && p in states[k + 1].pages
            && (DraftAt(states[k + 1], p) == DraftAt(states[k], p).(settings := WithoutBackground(clear, now))
                <==> WithoutBackground(clear, seen) == WithoutBackground(clear, now))
    ensures states[i].pages[p].revision == states[k].pages[p].revision ==>
              DraftAt(states[k + 1], p)
                  == DraftAt(states[k], p).(settings := WithoutBackground(clear, states[k].pages[p].settings))
  {
    var row := states[k].pages[p];
    var cleared := WithoutBackground(clear, states[i].pages[p].settings);
    if states[i].pages[p].revision == row.revision {
      RevisionDeterminesDraft(states, i, k, p);
      DraftFields(states[i], p);
    }
    RunValid(states, k);
    DraftFields(states[k], p);
    WroteFields(states[k], p, row.title, row.description, cleared);
    DraftFields(states[k + 1], p);
  }

  /** Page settings whose background is a medium at /m, before and after its owner
      chose a theme, and what clearing the medium makes of each. */
  const SEEN: string := "{\"appearance\":{\"background\":{\"type\":\"image\",\"value\":\"/m\"}}}"
  const CHOSEN: string :=
    "{\"appearance\":{\"background\":{\"type\":\"image\",\"value\":\"/m\"},\"themeId\":\"slate\"}}"
  const SEEN_CLEARED: string := "{\"appearance\":{\"background\":{\"opacity\":1,\"type\":\"none\",\"value\":\"\"}}}"
  const CHOSEN_CLEARED: string :=
    "{\"appearance\":{\"background\":{\"opacity\":1,\"type\":\"none\",\"value\":\"\"},\"themeId\":\"slate\"}}"

  /** clearBackgroundInSettingsJSON on these documents. */
  function MediumCleared(settings: string): Option<string> {
    if settings == SEEN then Some(SEEN_CLEARED) else if settings == CHOSEN then Some(CHOSEN_CLEARED) else None
  }

  lemma SettingsDiffer()
    ensures |SEEN| == 59 && |CHOSEN| == 77 && |SEEN_CLEARED| == 68 && |CHOSEN_CLEARED| == 86
  {}

  /** A page with its uncategorized category only. */
  function BarePage(settings: string): Db {
    Db(map[1 := CategoryRow(1, CategoryInfo("inbox", "", true, true), 0)], map[],
       map[1 := PageRow(false, Some(1), "home", "", settings, 0)],
       map[1 := PublicationRow(Private, "home", false, "", "", "", None, 0)], map[], 10, 10)
  }

  lemma BarePageValid(settings: string)
    ensures Valid(BarePage(settings))
  {
    var db := BarePage(settings);
    assert 1 in db.categories && db.categories[1].info.uncategorized;
    assert HasUncategorized(db.categories, 1);
  }

  /** The theme chosen between the cleanup's query and its UPDATE is lost. */
  lemma LateClearLosesTheme() returns (states: seq<Db>)
    ensures Run(states) && |states| == 3 && forall i :: 0 <= i < 3 ==> 1 in states[i].pages
    ensures states[0].pages[1].settings == SEEN && states[1].pages[1].settings == CHOSEN
    ensures Takes(states[0], 1, WriteFields("home", "", CHOSEN), states[1])
    ensures Takes(states[1], 1, WriteFields("home", "", WithoutBackground(MediumCleared, SEEN)), states[2])
    ensures states[2].pages[1].settings == SEEN_CLEARED != CHOSEN_CLEARED == WithoutBackground(MediumCleared, CHOSEN)
  {
    SettingsDiffer();
    var db := BarePage(SEEN);
    BarePageValid(SEEN);
    hide Valid, Step;
    var db1 := FieldsPut(db, 1, "home", "", CHOSEN);
    var db2 := FieldsPut(db1, 1, "home", "", SEEN_CLEARED);
    IsStep(db, 1, WriteFields("home", "", CHOSEN), db1);
    IsStep(db1, 1, WriteFields("home", "", SEEN_CLEARED), db2);
    states := [db, db1, db2];
  }
}
