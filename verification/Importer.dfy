/** internal/dataexchange/service.go: applyImport with its caches, proved to do
    what judging every item against the current draft would do. */
module Importer {
  import opened Prelude
  import opened Ordering
  import opened Drafts
  import opened Tables
  import opened NavigationModel
  import opened NavigationSteps
  import opened Text
  import opened ImportModel
  import opened ImportSteps

  datatype ImportResult = ImportResult(categoriesCreated: nat, sitesCreated: nat, duplicates: nat, invalid: nat)

  /** identity.New draws ids no row has. */
  ghost predicate Drawn(cats: CategoryTable, sites: SiteTable, ids: seq<Fresh>) {
    && (forall i :: 0 <= i < |ids| ==> ids[i].category !in cats && ids[i].site !in sites)
    && (forall i, j :: 0 <= i < j < |ids| ==> ids[i].category != ids[j].category && ids[i].site != ids[j].site)
  }

  function Counts(t: Tally): ImportResult {
    ImportResult(t.categoriesCreated, t.sitesCreated, t.duplicates, t.invalid)
  }

  method LoadCategoryMap(cats: CategoryTable, ghost sites: SiteTable, p: Id)
    returns (names: map<string, Id>, count: nat, nextSort: nat)
    ensures names == Names(Content(cats, sites, p))
    ensures count == |PageCategories(cats, p)| && nextSort == NextOrder(PageCategories(cats, p), CategoryKeys(cats))
  {
    hide Content, Names, CategoryListing, NextOrder, PageCategories, NameMap, Lower, NoDup;
    var rows := CategoryListing(cats, p);
    CategoryListElems(cats, p);
    names, count, nextSort := map[], 0, 0;
    NameMapEmpty(cats, p);
    for i := 0 to |rows|
      invariant names == NameMap(rows[..i], CategoryInfos(cats, p)) && count == i
      invariant Above(cats, rows[..i], nextSort)
    {
      NameMapNext(cats, p, i);
      assert rows[..i + 1] == rows[..i] + [rows[i]];
      var row := cats[rows[i]];
      names := names[FOLD(row.info.name) := rows[i]];
      count := count + 1;
      if row.sortOrder >= nextSort {
        nextSort := row.sortOrder + 1;
      }
    }
    assert rows[..|rows|] == rows;
    CategoryMapLoaded(cats, sites, p, nextSort);
  }

  /** nextSort lies above every listed row and just above one of them. */
  ghost predicate Above(cats: CategoryTable, rows: seq<Id>, n: nat) {
    && (forall c :: c in rows ==> c in cats && cats[c].sortOrder < n)
    && (n == 0 || exists c :: c in rows && c in cats && cats[c].sortOrder + 1 == n)
  }

  lemma NameMapEmpty(cats: CategoryTable, p: Id)
    ensures NameMap(CategoryListing(cats, p)[..0], CategoryInfos(cats, p)) == map[]
  {}

  lemma NameMapNext(cats: CategoryTable, p: Id, i: nat)
    requires i < |CategoryListing(cats, p)|
    ensures var q, infos := CategoryListing(cats, p), CategoryInfos(cats, p);
            q[i] in cats && NameMap(q[..i + 1], infos) == NameMap(q[..i], infos)[FOLD(cats[q[i]].info.name) := q[i]]
  {
    var q := CategoryListing(cats, p);
    CategoryListElems(cats, p);
    assert q[..i + 1][..i] == q[..i];
    assert q[i] in q;
  }

  lemma CategoryMapLoaded(cats: CategoryTable, sites: SiteTable, p: Id, n: nat)
    requires Above(cats, CategoryListing(cats, p), n)
    ensures NameMap(CategoryListing(cats, p), CategoryInfos(cats, p)) == Names(Content(cats, sites, p))
    ensures |CategoryListing(cats, p)| == |PageCategories(cats, p)|
    ensures n == NextOrder(PageCategories(cats, p), CategoryKeys(cats))
  {
    hide NextOrder;
    CategoryListElems(cats, p);
    if n != 0 {
      var c :| c in CategoryListing(cats, p) && c in cats && cats[c].sortOrder + 1 == n;
      assert c in PageCategories(cats, p) && CategoryKeys(cats)[c] + 1 == n;
    }
    ListingSize(PageCategories(cats, p), CategoryKeys(cats));
    NextOrderIs(PageCategories(cats, p), CategoryKeys(cats), n);
  }

  lemma {:induction false} ListingSize(ids: set<Id>, key: SortKeys)
    requires ids <= key.Keys
    ensures |Listing(ids, key)| == |ids|
    decreases ids
  {
    if ids != {} {
      ListingSize(ids - {First(ids, key)}, key);
    }
  }

  method PageUrls(ghost cats: CategoryTable, sites: SiteTable, p: Id) returns (urls: set<string>)
    ensures urls == Urls(Content(cats, sites, p))
  {
    var rows := PageSites(sites, p);
    urls := {};
    var rest := rows;
    while rest != {}
      invariant rest <= rows
      invariant urls == set s | s in rows && s !in rest :: sites[s].info.url
      decreases rest
    {
      var s :| s in rest;
      rest := rest - {s};
      urls := urls + {sites[s].info.url};
    }
    assert forall u :: u in Urls(Content(cats, sites, p)) <==> u in urls;
  }

  /** What the item loop maintains of the rows. */
  ghost predicate InStep(cats0: CategoryTable, sites0: SiteTable, pages: set<Id>, p: Id, cats: CategoryTable,
                         sites: SiteTable) {
    && RowsValid(cats, sites, pages) && p in pages
    && OtherCategories(cats0, cats, p) && OtherSites(sites0, sites, p)
  }

  ghost predicate Undrawn(cats: CategoryTable, sites: SiteTable, ids: seq<Fresh>, i: nat) {
    && (forall j :: i <= j < |ids| ==> ids[j].category !in cats && ids[j].site !in sites)
    && (forall j, k :: 0 <= j < k < |ids| ==> ids[j].category != ids[k].category && ids[j].site != ids[k].site)
  }

  lemma Cleared0(cats: CategoryTable, sites: SiteTable, pages: set<Id>, p: Id)
    requires RowsValid(cats, sites, pages) && p in pages
    ensures Content(Kept(cats, p), sites - PageSites(sites, p), p) == Base(Content(cats, sites, p), true)
    ensures InStep(cats, sites, pages, p, Kept(cats, p), sites - PageSites(sites, p))
  {
    ClearedRows(cats, sites, p);
    ClearedValid(cats, sites, pages, p);
  }

  lemma DrawnStart(cats: CategoryTable, sites: SiteTable, p: Id, ids: seq<Fresh>)
    requires Drawn(cats, sites, ids)
    ensures Undrawn(cats, sites, ids, 0) && Undrawn(Kept(cats, p), sites - PageSites(sites, p), ids, 0)
  {}

  lemma Uncleared(cats: CategoryTable, sites: SiteTable, pages: set<Id>, p: Id)
    requires RowsValid(cats, sites, pages) && p in pages
    ensures InStep(cats, sites, pages, p, cats, sites)
  {}

  /** Inserting a category keeps every loop invariant. */
  lemma StepCategory(cats0: CategoryTable, sites0: SiteTable, pages: set<Id>, p: Id, cats: CategoryTable,
                     sites: SiteTable,
                     m: Mirrors, item: Selected, ids: seq<Fresh>, i: nat)
    requires InStep(cats0, sites0, pages, p, cats, sites) && Agree(cats, sites, p, m)
    requires i < |ids| && Undrawn(cats, sites, ids, i)
    requires NameKey(item.categoryName) !in m.names
    ensures var cats' := cats[ids[i].category := CategoryRow(p, NewCategory(item), m.categorySort)];
            && InStep(cats0, sites0, pages, p, cats', sites)
            && Content(cats', sites, p) == AddCategory(Content(cats, sites, p), ids[i].category, NewCategory(item))
            && Agree(cats', sites, p, m.(names := m.names[NameKey(item.categoryName) := ids[i].category],
                                         categoryCount := m.categoryCount + 1, categorySort := m.categorySort + 1))
  {
    hide Content, AddCategory, CountsAgree, OrdersAgree, NameFree, Names, Urls, PagesOwned;
    var c := ids[i].category;
    var row := CategoryRow(p, NewCategory(item), m.categorySort);
    CategoryInserted(cats, sites, p, m, c, item);
    AbsentNameIsFree(cats, sites, p, c, item);
    PutCategoryValid(cats, sites, pages, c, row);
  }

  /** So does inserting a site. */
  lemma StepSite(cats0: CategoryTable, sites0: SiteTable, pages: set<Id>, p: Id, cats: CategoryTable, sites: SiteTable,
                 m: Mirrors, item: Selected, c: Id, n: nat, s: Id)
    requires InStep(cats0, sites0, pages, p, cats, sites) && Agree(cats, sites, p, m)
    requires s !in sites && c in cats && cats[c].page == p
    requires item.site.url !in m.urls && n == NextOrder(CategorySites(sites, p, c), SiteKeys(sites))
    ensures var sites' := sites[s := SiteRow(p, c, NewSite(item), n)];
            && InStep(cats0, sites0, pages, p, cats, sites')
            && c in Content(cats, sites, p).lists
            && Content(cats, sites', p) == AddSite(Content(cats, sites, p), c, s, NewSite(item))
            && Agree(cats, sites', p, m.(urls := m.urls + {item.site.url}, siteCount := m.siteCount + 1,
                                         siteSort := m.siteSort[c := n + 1]))
  {
    hide Content, AddSite, CountsAgree, OrdersAgree, UrlFree, Names, Urls, PagesOwned, CategoriesValid, NextOrder;
    var row := SiteRow(p, c, NewSite(item), n);
    SiteInserted(cats, sites, p, m, s, c, n, item);
    AbsentUrlIsFree(cats, sites, p, s, item.site.url);
    PutSiteValid(cats, sites, s, row);
  }

  lemma DrawnNext(cats: CategoryTable, sites: SiteTable, ids: seq<Fresh>, i: nat)
    requires i < |ids| && Undrawn(cats, sites, ids, i)
    ensures ids[i].category !in cats && ids[i].site !in sites
  {}

  lemma DrawnAfter(cats: CategoryTable, sites: SiteTable, cats': CategoryTable, sites': SiteTable, ids: seq<Fresh>,
                   i: nat)
    requires i < |ids| && Undrawn(cats, sites, ids, i)
    requires cats'.Keys <= cats.Keys + {ids[i].category} && sites'.Keys <= sites.Keys + {ids[i].site}
    ensures Undrawn(cats', sites', ids, i + 1)
  {}

  /** SELECT COALESCE(MAX(sort_order), -1) + 1 FROM sites WHERE category_id = ? */
  function NextSiteOrder(sites: SiteTable, p: Id, c: Id): (n: nat)
    ensures n == NextOrder(CategorySites(sites, p, c), SiteKeys(sites))
  {
    NextOrder(CategorySites(sites, p, c), SiteKeys(sites))
  }

  /** What the caches answer is what the draft says. */
  lemma Mirrored(cats: CategoryTable, sites: SiteTable, p: Id, m: Mirrors)
    requires Agree(cats, sites, p, m)
    ensures var d := Content(cats, sites, p);
            && m.urls == Urls(d) && m.names == Names(d)
            && m.categoryCount == |d.categories| && m.siteCount == |d.sites|
    ensures forall c :: c in m.siteSort ==> m.siteSort[c] == NextOrder(CategorySites(sites, p, c), SiteKeys(sites))
    ensures forall k :: k in m.names ==> m.names[k] in cats && cats[m.names[k]].page == p
  {
    var d := Content(cats, sites, p);
    forall k | k in m.names ensures m.names[k] in cats && cats[m.names[k]].page == p {
      NamedCategory(cats, sites, p, k);
    }
  }

  function TallyOf(d: Draft, r: ImportResult): Tally {
    Tally(d, r.categoriesCreated, r.sitesCreated, r.duplicates, r.invalid)
  }

  /** The arguments of one import. */
  datatype Job = Job(
    cats: CategoryTable, sites: SiteTable, pages: set<Id>, page: Id, start: Tally,
    selected: seq<Selected>, ids: seq<Fresh>, maxCategories: nat, maxSites: nat)

  /** All that the item loop changes. */
  datatype Work = Work(cats: CategoryTable, sites: SiteTable, m: Mirrors, result: ImportResult)

  function WorkDraft(j: Job, w: Work): Draft {
    Content(w.cats, w.sites, j.page)
  }

  /** The reference import of the first `i` items. */
  function Reference(j: Job, i: nat): Result<Tally, ImportError>
    requires i <= |j.selected| == |j.ids|
  {
    ImportAll(j.start, j.selected[..i], j.ids[..i], j.maxCategories, j.maxSites)
  }

  /** The loop invariant: caches agree with the rows and the rows show what the
      reference import of the items so far gives. */
  ghost predicate Going(j: Job, i: nat, w: Work) {
    && i <= |j.selected| == |j.ids|
    && InStep(j.cats, j.sites, j.pages, j.page, w.cats, w.sites)
    && Agree(w.cats, w.sites, j.page, w.m)
    && Undrawn(w.cats, w.sites, j.ids, i)
    && Reference(j, i) == Ok(TallyOf(WorkDraft(j, w), w.result))
  }

  /** Half-way through item `i`: its category is settled. */
  ghost predicate Chosen(j: Job, i: nat, w: Work, c: Id) {
    && i < |j.selected| == |j.ids|
    && InStep(j.cats, j.sites, j.pages, j.page, w.cats, w.sites)
    && Agree(w.cats, w.sites, j.page, w.m)
    && Undrawn(w.cats, w.sites, j.ids, i + 1) && j.ids[i].site !in w.sites
    && Wanted(j.selected[i], w) && c in w.cats && w.cats[c].page == j.page
    && Reference(j, i + 1) == Placed(TallyOf(WorkDraft(j, w), w.result), j.selected[i], j.ids[i].site, j.maxSites)
    && c == Target(WorkDraft(j, w), j.selected[i])
  }

  predicate Wanted(item: Selected, w: Work) {
    item.site.valid && item.site.url !in w.m.urls
  }

  function Skipped(w: Work, item: Selected): Work {
    w.(result := if !item.site.valid then w.result.(invalid := w.result.invalid + 1)
                 else w.result.(duplicates := w.result.duplicates + 1))
  }

  lemma Skip(j: Job, i: nat, w: Work)
    requires Going(j, i, w) && i < |j.selected| && !Wanted(j.selected[i], w)
    ensures Going(j, i + 1, Skipped(w, j.selected[i]))
  {
    hide InStep, Agree, Undrawn, Content, Urls, Names, NameKey, Placed, WithCategory, Target;
    Mirrored(w.cats, w.sites, j.page, w.m);
    ImportAllStep(j.start, j.selected, j.ids, i, j.maxCategories, j.maxSites);
    DrawnAfter(w.cats, w.sites, w.cats, w.sites, j.ids, i);
  }

  lemma NoRoom(j: Job, i: nat, w: Work)
    requires Going(j, i, w) && i < |j.selected| && Wanted(j.selected[i], w)
    requires NameKey(j.selected[i].categoryName) !in w.m.names && w.m.categoryCount >= j.maxCategories
    ensures ImportAll(j.start, j.selected, j.ids, j.maxCategories, j.maxSites) == Err(Limit)
  {
    hide InStep, Agree, Undrawn, Content, Urls, Names, NameKey;
    Mirrored(w.cats, w.sites, j.page, w.m);
    ImportAllStep(j.start, j.selected, j.ids, i, j.maxCategories, j.maxSites);
    ErrorStops(j.start, j.selected, j.ids, i + 1, j.maxCategories, j.maxSites);
  }

  lemma UseCategory(j: Job, i: nat, w: Work)
    requires Going(j, i, w) && i < |j.selected| && Wanted(j.selected[i], w)
    requires NameKey(j.selected[i].categoryName) in w.m.names
    ensures Chosen(j, i, w, w.m.names[NameKey(j.selected[i].categoryName)])
  {
    hide InStep, Agree, Undrawn, Content, Urls, Names, NameKey, Placed;
    Mirrored(w.cats, w.sites, j.page, w.m);
    ImportAllStep(j.start, j.selected, j.ids, i, j.maxCategories, j.maxSites);
    DrawnNext(w.cats, w.sites, j.ids, i);
    DrawnAfter(w.cats, w.sites, w.cats, w.sites, j.ids, i);
  }

  function AddedCategory(j: Job, i: nat, w: Work): Work
    requires i < |j.selected| == |j.ids|
  {
    var item, c := j.selected[i], j.ids[i].category;
    Work(w.cats[c := CategoryRow(j.page, NewCategory(item), w.m.categorySort)], w.sites,
         w.m.(names := w.m.names[NameKey(item.categoryName) := c],
              categoryCount := w.m.categoryCount + 1, categorySort := w.m.categorySort + 1),
         w.result.(categoriesCreated := w.result.categoriesCreated + 1))
  }

  lemma MakeCategory(j: Job, i: nat, w: Work)
    requires Going(j, i, w) && i < |j.selected| && Wanted(j.selected[i], w)
    requires NameKey(j.selected[i].categoryName) !in w.m.names && w.m.categoryCount < j.maxCategories
    ensures Chosen(j, i, AddedCategory(j, i, w), j.ids[i].category)
  {
    hide InStep, Agree, Undrawn, Content, Urls, Names, NameKey, Placed, AddCategory;
    var item, w' := j.selected[i], AddedCategory(j, i, w);
    Mirrored(w.cats, w.sites, j.page, w.m);
    ImportAllStep(j.start, j.selected, j.ids, i, j.maxCategories, j.maxSites);
    DrawnNext(w.cats, w.sites, j.ids, i);
    StepCategory(j.cats, j.sites, j.pages, j.page, w.cats, w.sites, w.m, item, j.ids, i);
    DrawnAfter(w.cats, w.sites, w'.cats, w'.sites, j.ids, i);
    Mirrored(w'.cats, w'.sites, j.page, w'.m);
  }

  lemma NoSiteRoom(j: Job, i: nat, w: Work, c: Id)
    requires Chosen(j, i, w, c) && w.m.siteCount >= j.maxSites
    ensures ImportAll(j.start, j.selected, j.ids, j.maxCategories, j.maxSites) == Err(Limit)
  {
    hide InStep, Agree, Undrawn, Content, Target;
    Mirrored(w.cats, w.sites, j.page, w.m);
    ErrorStops(j.start, j.selected, j.ids, i + 1, j.maxCategories, j.maxSites);
  }

  function AddedSite(j: Job, i: nat, w: Work, c: Id, n: nat): Work
    requires i < |j.selected| == |j.ids|
  {
    var item, s := j.selected[i], j.ids[i].site;
    Work(w.cats, w.sites[s := SiteRow(j.page, c, NewSite(item), n)],
         w.m.(urls := w.m.urls + {item.site.url}, siteCount := w.m.siteCount + 1, siteSort := w.m.siteSort[c := n + 1]),
         w.result.(sitesCreated := w.result.sitesCreated + 1))
  }

  lemma MakeSite(j: Job, i: nat, w: Work, c: Id, n: nat)
    requires Chosen(j, i, w, c) && w.m.siteCount < j.maxSites
    requires n == if c in w.m.siteSort then w.m.siteSort[c] else NextSiteOrder(w.sites, j.page, c)
    ensures Going(j, i + 1, AddedSite(j, i, w, c, n))
  {
    hide InStep, Agree, Undrawn, Content, Target, AddSite, ImportAll;
    var w' := AddedSite(j, i, w, c, n);
    Mirrored(w.cats, w.sites, j.page, w.m);
    StepSite(j.cats, j.sites, j.pages, j.page, w.cats, w.sites, w.m, j.selected[i], c, n, j.ids[i].site);
    UndrawnSite(w.cats, w.sites, w'.sites, j.ids, i);
  }

  lemma UndrawnSite(cats: CategoryTable, sites: SiteTable, sites': SiteTable, ids: seq<Fresh>, i: nat)
    requires i < |ids| && Undrawn(cats, sites, ids, i + 1) && sites'.Keys <= sites.Keys + {ids[i].site}
    ensures Undrawn(cats, sites', ids, i + 1)
  {}

  lemma Begun(j: Job, cats: CategoryTable, sites: SiteTable, m: Mirrors)
    requires |j.selected| == |j.ids| && InStep(j.cats, j.sites, j.pages, j.page, cats, sites)
    requires Undrawn(cats, sites, j.ids, 0) && j.start == Start(Content(cats, sites, j.page))
    requires m.names == Names(Content(cats, sites, j.page)) && m.urls == Urls(Content(cats, sites, j.page))
    requires m.categoryCount == |PageCategories(cats, j.page)|
    requires m.categorySort == NextOrder(PageCategories(cats, j.page), CategoryKeys(cats))
    requires m.siteCount == |PageSites(sites, j.page)| && m.siteSort == map[]
    ensures Going(j, 0, Work(cats, sites, m, ImportResult(0, 0, 0, 0)))
  {
    hide InStep, Content, NextOrder;
  }

  lemma Ended(j: Job, w: Work)
    requires Going(j, |j.selected|, w)
    ensures RowsValid(w.cats, w.sites, j.pages) && OtherCategories(j.cats, w.cats, j.page)
            && OtherSites(j.sites, w.sites, j.page)
    ensures ImportAll(j.start, j.selected, j.ids, j.maxCategories, j.maxSites) == Ok(TallyOf(WorkDraft(j, w), w.result))
  {
    hide RowsValid, OtherCategories, OtherSites, Agree, Undrawn, ImportAll, InStep, WorkDraft;
    assert j.selected[..|j.selected|] == j.selected && j.ids[..|j.ids|] == j.ids;
    InStepRows(j.cats, j.sites, j.pages, j.page, w.cats, w.sites);
  }

  lemma InStepRows(cats0: CategoryTable, sites0: SiteTable, pages: set<Id>, p: Id, cats: CategoryTable,
                   sites: SiteTable)
    requires InStep(cats0, sites0, pages, p, cats, sites)
    ensures RowsValid(cats, sites, pages) && OtherCategories(cats0, cats, p) && OtherSites(sites0, sites, p)
  {
    hide RowsValid, OtherCategories, OtherSites;
  }

  /** The two DELETEs of mode replace. */
  method ClearForReplace(cats0: CategoryTable, sites0: SiteTable, ghost pages: set<Id>, p: Id, replace: bool,
                         ghost ids: seq<Fresh>)
    returns (cats: CategoryTable, sites: SiteTable)
    requires RowsValid(cats0, sites0, pages) && p in pages && Drawn(cats0, sites0, ids)
    ensures InStep(cats0, sites0, pages, p, cats, sites) && Undrawn(cats, sites, ids, 0)
    ensures Content(cats, sites, p) == Base(Content(cats0, sites0, p), replace)
    ensures !replace ==> cats == cats0 && sites == sites0
  {
    hide RowsValid, InStep, Content, Cleared, PageSites, Kept, Drawn, Undrawn;
    cats, sites := cats0, sites0;
    DrawnStart(cats, sites, p, ids);
    Uncleared(cats, sites, pages, p);
    if replace {
      Cleared0(cats, sites, pages, p);
      sites := sites - PageSites(sites, p);
      cats := Kept(cats, p);
    }
  }

  method ApplyImport(cats0: CategoryTable, sites0: SiteTable, ghost pages: set<Id>, p: Id, replace: bool,
                     selected: seq<Selected>, ids: seq<Fresh>, maxCategories: nat, maxSites: nat)
    returns (r: Result<ImportResult, ImportError>, cats: CategoryTable, sites: SiteTable, changed: bool)
    requires RowsValid(cats0, sites0, pages) && p in pages
    requires |ids| == |selected| && Drawn(cats0, sites0, ids)
    ensures var m := ImportAll(Start(Base(Content(cats0, sites0, p), replace)), selected, ids, maxCategories, maxSites);
            && (m.Err? ==> r == Err(m.error))
            && (m.Ok? ==> && r == Ok(Counts(m.value)) && Content(cats, sites, p) == m.value.draft
                          && changed == (replace || m.value.sitesCreated > 0))
    ensures r.Ok? ==> RowsValid(cats, sites, pages) && OtherCategories(cats0, cats, p) && OtherSites(sites0, sites, p)
    ensures r.Ok? && !changed ==> cats == cats0 && sites == sites0
  {
    hide RowsValid, InStep, Content, Names, Urls, ImportAll, Base, NextOrder, PageSites, Drawn, Undrawn, NameKey, Going,
         Chosen, OtherCategories, OtherSites, NextSiteOrder, NewCategory, NewSite, PageCategories, CategoryKeys;
    cats, sites := ClearForReplace(cats0, sites0, pages, p, replace, ids);
    ghost var j := Job(cats0, sites0, pages, p, Start(Base(Content(cats0, sites0, p), replace)), selected, ids,
        maxCategories, maxSites);
    var names: map<string, Id>, categoryCount: nat, categorySort: nat := LoadCategoryMap(cats, sites, p);
    var existingUrls := PageUrls(cats, sites, p);
    var siteCount: nat := |PageSites(sites, p)|;
    var siteSort: map<Id, nat> := map[];
    var result := ImportResult(0, 0, 0, 0);
    changed := replace;
    Begun(j, cats, sites, Mirrors(existingUrls, names, categoryCount, categorySort, siteCount, siteSort));
    for i := 0 to |selected|
      invariant Going(j, i,
                      Work(cats, sites,
                           Mirrors(existingUrls, names, categoryCount, categorySort, siteCount, siteSort), result))
      invariant changed == (replace || result.sitesCreated > 0)
      invariant !changed ==> cats == cats0 && sites == sites0
    {
      var item := selected[i];
      ghost var w := Work(cats, sites, Mirrors(existingUrls, names, categoryCount, categorySort, siteCount, siteSort),
          result);
      if !item.site.valid {
        Skip(j, i, w);
        result := result.(invalid := result.invalid + 1);
        continue;
      }
      if item.site.url in existingUrls {
        Skip(j, i, w);
        result := result.(duplicates := result.duplicates + 1);
        continue;
      }
      var categoryKey := NameKey(item.categoryName);
      var c: Id;
      if categoryKey in names {
        UseCategory(j, i, w);
        c := names[categoryKey];
      } else {
        if categoryCount >= maxCategories {
          NoRoom(j, i, w);
          r := Err(Limit);
          return;
        }
        MakeCategory(j, i, w);
        c := ids[i].category;
        cats := cats[c := CategoryRow(p, NewCategory(item), categorySort)];
        names := names[categoryKey := c];
        categoryCount := categoryCount + 1;
        categorySort := categorySort + 1;
        result := result.(categoriesCreated := result.categoriesCreated + 1);
      }
      w := Work(cats, sites, Mirrors(existingUrls, names, categoryCount, categorySort, siteCount, siteSort), result);
      if siteCount >= maxSites {
        NoSiteRoom(j, i, w, c);
        r := Err(Limit);
        return;
      }
      var sortOrder: nat := if c in siteSort then siteSort[c] else NextSiteOrder(sites, p, c);
      MakeSite(j, i, w, c, sortOrder);
      sites := sites[ids[i].site := SiteRow(p, c, NewSite(item), sortOrder)];
      siteSort := siteSort[c := sortOrder + 1];
      existingUrls := existingUrls + {item.site.url};
      siteCount := siteCount + 1;
      result := result.(sitesCreated := result.sitesCreated + 1);
      changed := true;
    }
    Ended(j, Work(cats, sites, Mirrors(existingUrls, names, categoryCount, categorySort, siteCount, siteSort), result));
    r := Ok(result);
  }
}
