/** The importer's cached aggregates, and what one INSERT does to the rows and
    to the caches together. */
module ImportSteps {
  import opened Prelude
  import opened Ordering
  import opened Drafts
  import opened Tables
  import opened NavigationModel
  import opened NavigationSteps
  import opened Text
  import opened ImportModel

  /** Local variables of applyImport that shadow query results. */
  datatype Mirrors = Mirrors(
    urls: set<string>, names: map<string, Id>, categoryCount: nat, categorySort: nat, siteCount: nat,
    siteSort: map<Id, nat>)

  /** Each cache holds what its query would return right now. */
  ghost predicate Agree(cats: CategoryTable, sites: SiteTable, p: Id, m: Mirrors) {
    && m.urls == Urls(Content(cats, sites, p))
    && m.names == Names(Content(cats, sites, p))
    && CountsAgree(cats, sites, p, m.categoryCount, m.categorySort, m.siteCount)
    && OrdersAgree(sites, p, m.siteSort)
  }

  ghost predicate CountsAgree(cats: CategoryTable, sites: SiteTable, p: Id, categoryCount: nat, categorySort: nat,
                              siteCount: nat) {
    && categoryCount == |PageCategories(cats, p)|
    && categorySort == NextOrder(PageCategories(cats, p), CategoryKeys(cats))
    && siteCount == |PageSites(sites, p)|
  }

  ghost predicate OrdersAgree(sites: SiteTable, p: Id, siteSort: map<Id, nat>) {
    forall c :: c in siteSort ==> siteSort[c] == NextOrder(CategorySites(sites, p, c), SiteKeys(sites))
  }

  /** MAX + 1 is determined by being above every key and just above one. */
  lemma NextOrderIs(ids: set<Id>, key: SortKeys, n: int)
    requires ids <= key.Keys
    requires forall x :: x in ids ==> 0 <= key[x] < n
    requires n == 0 || exists x :: x in ids && key[x] + 1 == n
    ensures NextOrder(ids, key) == n
  {
    var m := NextOrder(ids, key);
    if n != 0 {
      var x :| x in ids && key[x] + 1 == n;
      assert key[x] < m;
      var y :| y in ids && key[y] + 1 == m;
      assert key[y] < n;
    } else {
      assert ids == {};
    }
  }

  lemma NextOrderAppend(ids: set<Id>, x: Id, key: SortKeys, key': SortKeys)
    requires ids <= key.Keys && x !in ids && ids + {x} <= key'.Keys
    requires forall y :: y in ids ==> 0 <= key[y] == key'[y]
    requires key'[x] == NextOrder(ids, key) >= 0
    ensures NextOrder(ids + {x}, key') == key'[x] + 1
  {
    NextOrderIs(ids + {x}, key', key'[x] + 1);
  }

  /** What NOCASE identifies, the importer's keys identify. */
  lemma NoCaseIsFolded(a: string, b: string)
    requires NoCase(a) == NoCase(b)
    ensures FOLD(a) == FOLD(b)
  {
    assert Lower(a) == NoCase(a) && Lower(b) == NoCase(b);
    assert Folds(FOLD);
  }

  // --------------------------------------------------- a new category's INSERT

  lemma CategoryInserted(cats: CategoryTable, sites: SiteTable, p: Id, m: Mirrors, c: Id, item: Selected)
    requires SitesOwned(cats, sites) && Agree(cats, sites, p, m) && c !in cats
    ensures var cats' := cats[c := CategoryRow(p, NewCategory(item), m.categorySort)];
            && Content(cats', sites, p) == AddCategory(Content(cats, sites, p), c, NewCategory(item))
            && Agree(cats', sites, p, m.(names := m.names[NameKey(item.categoryName) := c],
                                         categoryCount := m.categoryCount + 1, categorySort := m.categorySort + 1))
  {
    hide Content, AddCategory, CountsAgree, OrdersAgree, NextOrder, SitesOwned, Names, Urls;
    var row := CategoryRow(p, NewCategory(item), m.categorySort);
    var d := Content(cats, sites, p);
    CategoryIsLast(cats, sites, p, m.categoryCount, m.categorySort, m.siteCount);
    InsertCategoryAppends(cats, sites, c, row);
    ListedCategories(cats, sites, p, c);
    NamesAppend(d, c, row.info);
    SameUrls(d, c, row.info);
    CategoryCounts(cats, sites, p, m.categoryCount, m.categorySort, m.siteCount, c, row);
  }

  lemma CategoryIsLast(cats: CategoryTable, sites: SiteTable, p: Id, count: nat, next: nat, siteCount: nat)
    requires CountsAgree(cats, sites, p, count, next, siteCount)
    ensures forall d :: d in PageCategories(cats, p) ==> cats[d].sortOrder < next
  {
    assert forall d :: d in PageCategories(cats, p) ==> CategoryKeys(cats)[d] == cats[d].sortOrder;
  }

  lemma ListedCategories(cats: CategoryTable, sites: SiteTable, p: Id, c: Id)
    ensures c in Content(cats, sites, p).order <==> c in cats && cats[c].page == p
  {
    CategoryListElems(cats, p);
  }

  lemma SameUrls(d: Draft, c: Id, info: CategoryInfo)
    ensures Urls(AddCategory(d, c, info)) == Urls(d)
  {}

  lemma CategoryCounts(cats: CategoryTable, sites: SiteTable, p: Id, count: nat, next: nat, siteCount: nat, c: Id,
                       row: CategoryRow)
    requires CountsAgree(cats, sites, p, count, next, siteCount) && c !in cats && row.page == p && row.sortOrder == next
    ensures CountsAgree(cats[c := row], sites, p, count + 1, next + 1, siteCount)
  {
    hide NextOrder;
    assert PageCategories(cats[c := row], p) == PageCategories(cats, p) + {c};
    NextOrderAppend(PageCategories(cats, p), c, CategoryKeys(cats), CategoryKeys(cats[c := row]));
  }

  // ------------------------------------------------------- a new site's INSERT

  lemma SiteInserted(cats: CategoryTable, sites: SiteTable, p: Id, m: Mirrors, s: Id, c: Id, n: nat, item: Selected)
    requires Agree(cats, sites, p, m) && s !in sites && c in cats && cats[c].page == p
    requires n == NextOrder(CategorySites(sites, p, c), SiteKeys(sites))
    ensures var sites' := sites[s := SiteRow(p, c, NewSite(item), n)];
            && c in Content(cats, sites, p).lists
            && Content(cats, sites', p) == AddSite(Content(cats, sites, p), c, s, NewSite(item))
            && Agree(cats, sites', p, m.(urls := m.urls + {item.site.url}, siteCount := m.siteCount + 1,
                                         siteSort := m.siteSort[c := n + 1]))
  {
    hide Content, AddSite, CountsAgree, OrdersAgree, NextOrder;
    var row := SiteRow(p, c, NewSite(item), n);
    var d := Content(cats, sites, p);
    InsertSiteAppends(cats, sites, s, row);
    ListedSite(cats, sites, p, s, c);
    UrlsAppend(d, c, s, row.info);
    SameNames(d, c, s, row.info);
    SiteCounts(cats, sites, p, m.categoryCount, m.categorySort, m.siteCount, s, row);
    AllSiteOrders(sites, p, m.siteSort, s, row);
  }

  lemma ListedSite(cats: CategoryTable, sites: SiteTable, p: Id, s: Id, c: Id)
    ensures c in Content(cats, sites, p).lists <==> c in cats && cats[c].page == p
    ensures s in Content(cats, sites, p).sites <==> s in sites && sites[s].page == p
  {}

  lemma SameNames(d: Draft, c: Id, s: Id, info: SiteInfo)
    requires c in d.lists
    ensures Names(AddSite(d, c, s, info)) == Names(d)
  {}

  lemma AllSiteOrders(sites: SiteTable, p: Id, siteSort: map<Id, nat>, s: Id, row: SiteRow)
    requires OrdersAgree(sites, p, siteSort) && s !in sites && row.page == p
    requires row.sortOrder == NextOrder(CategorySites(sites, p, row.category), SiteKeys(sites))
    ensures OrdersAgree(sites[s := row], p, siteSort[row.category := row.sortOrder + 1])
  {
    hide NextOrder;
    var siteSort' := siteSort[row.category := row.sortOrder + 1];
    forall k | k in siteSort'
      ensures NextOrder(CategorySites(sites[s := row], p, k), SiteKeys(sites[s := row])) == siteSort'[k]
    {
      SiteOrders(sites, p, s, row, k);
    }
  }

  lemma SiteOrders(sites: SiteTable, p: Id, s: Id, row: SiteRow, k: Id)
    requires s !in sites && row.page == p
             && row.sortOrder == NextOrder(CategorySites(sites, p, row.category), SiteKeys(sites))
    ensures NextOrder(CategorySites(sites[s := row], p, k), SiteKeys(sites[s := row]))
            == if k == row.category then row.sortOrder + 1 else NextOrder(CategorySites(sites, p, k), SiteKeys(sites))
  {
    var sites' := sites[s := row];
    if k == row.category {
      assert CategorySites(sites', p, k) == CategorySites(sites, p, k) + {s};
      NextOrderAppend(CategorySites(sites, p, k), s, SiteKeys(sites), SiteKeys(sites'));
    } else {
      assert CategorySites(sites', p, k) == CategorySites(sites, p, k);
    }
  }

  lemma SiteCounts(cats: CategoryTable, sites: SiteTable, p: Id, count: nat, next: nat, siteCount: nat, s: Id,
                   row: SiteRow)
    requires CountsAgree(cats, sites, p, count, next, siteCount) && s !in sites && row.page == p
    ensures CountsAgree(cats, sites[s := row], p, count, next, siteCount + 1)
  {
    assert PageSites(sites[s := row], p) == PageSites(sites, p) + {s};
  }

  // ------------------------------------------------------------- constraints

  /** A lower-cased name absent from the map is free under NOCASE too. */
  lemma AbsentNameIsFree(cats: CategoryTable, sites: SiteTable, p: Id, c: Id, item: Selected)
    requires NameKey(item.categoryName) !in Names(Content(cats, sites, p))
    ensures NameFree(cats, p, c, NewCategory(item).name)
  {
    hide Content, Names, NoCase;
    forall k | k in cats && k != c && cats[k].page == p
      ensures NoCase(cats[k].info.name) != NoCase(NewCategory(item).name)
    {
      NamePresent(cats, sites, p, k);
      if NoCase(cats[k].info.name) == NoCase(NewCategory(item).name) {
        NoCaseIsFolded(cats[k].info.name, NewCategory(item).name);
      }
    }
  }

  lemma NamePresent(cats: CategoryTable, sites: SiteTable, p: Id, k: Id)
    requires k in cats && cats[k].page == p
    ensures FOLD(cats[k].info.name) in Names(Content(cats, sites, p))
  {
    var d := Content(cats, sites, p);
    CategoryListElems(cats, p);
    assert k in d.order && d.categories[k] == cats[k].info;
    NameMapIn(d.order, d.categories);
  }

  lemma AbsentUrlIsFree(cats: CategoryTable, sites: SiteTable, p: Id, s: Id, url: string)
    requires url !in Urls(Content(cats, sites, p))
    ensures UrlFree(sites, p, s, url)
  {
    var d := Content(cats, sites, p);
    forall u | u in sites && u != s && sites[u].page == p ensures sites[u].info.url != url {
      assert u in d.sites && d.sites[u].url == sites[u].info.url;
    }
  }

  /** Every name leads to a category of the page. */
  lemma NamedCategory(cats: CategoryTable, sites: SiteTable, p: Id, key: string)
    requires key in Names(Content(cats, sites, p))
    ensures var c := Names(Content(cats, sites, p))[key]; c in cats && cats[c].page == p
  {
    var d := Content(cats, sites, p);
    NameMapIn(d.order, d.categories);
  }

  // ------------------------------------------------------------ mode replace

  function Kept(cats: CategoryTable, p: Id): CategoryTable {
    map c | c in cats && (cats[c].page != p || cats[c].info.uncategorized) :: cats[c]
  }

  lemma {:induction false} KeepInIs(q: seq<Id>, keep: set<Id>, key: SortKeys)
    requires Sorted(q, key)
    ensures Sorted(KeepIn(q, keep), key) && forall x :: x in KeepIn(q, keep) <==> x in q && x in keep
  {
    if q != [] {
      KeepInIs(q[1..], keep, key);
      var r := KeepIn(q[1..], keep);
      forall j | 0 <= j < |r| ensures Before(key, q[0], r[j]) {
        assert r[j] in q[1..];
        var i :| 0 <= i < |q[1..]| && q[1..][i] == r[j];
        assert q[i + 1] == r[j];
      }
    }
  }

  /** Both DELETEs of mode replace leave only the uncategorized category, empty. */
  lemma ClearedRows(cats: CategoryTable, sites: SiteTable, p: Id)
    requires SitesOwned(cats, sites)
    ensures var d := Content(cats, sites, p);
            Content(Kept(cats, p), sites - PageSites(sites, p), p) == Cleared(d, Indelible(d))
  {
    var d, cats', sites' := Content(cats, sites, p), Kept(cats, p), sites - PageSites(sites, p);
    var keep := Indelible(d);
    ClearedOrder(cats, sites, p);
    ClearedLists(cats, sites, p);
    assert CategoryInfos(cats', p) == Cleared(d, keep).categories;
    assert SiteInfos(sites', p) == map[];
  }

  lemma ClearedOrder(cats: CategoryTable, sites: SiteTable, p: Id)
    ensures CategoryListing(Kept(cats, p), p) == KeepIn(CategoryListing(cats, p), Indelible(Content(cats, sites, p)))
  {
    var cats', keep := Kept(cats, p), Indelible(Content(cats, sites, p));
    var q := CategoryListing(cats, p);
    IndelibleRows(cats, sites, p);
    hide Content, Indelible;
    ListingIs(PageCategories(cats, p), CategoryKeys(cats));
    KeepInIs(q, keep, CategoryKeys(cats));
    var r := KeepIn(q, keep);
    hide KeepIn, Kept;
    SortedUnder(r, CategoryKeys(cats), CategoryKeys(cats'));
    assert Elems(r) == PageCategories(cats', p);
    ListingUnique(r, PageCategories(cats', p), CategoryKeys(cats'));
  }

  lemma IndelibleRows(cats: CategoryTable, sites: SiteTable, p: Id)
    ensures forall c :: c in PageCategories(Kept(cats, p), p)
              <==> c in PageCategories(cats, p) && c in Indelible(Content(cats, sites, p))
    ensures forall c :: c in PageCategories(Kept(cats, p), p)
             ==> CategoryKeys(Kept(cats, p))[c] == CategoryKeys(cats)[c]
  {
    hide CategoryListing, SiteLists, SiteInfos;
  }

  lemma SortedUnder(q: seq<Id>, key: SortKeys, key': SortKeys)
    requires Sorted(q, key) && forall x :: x in q ==> x in key' && key'[x] == key[x]
    ensures Sorted(q, key')
  {}

  lemma ClearedLists(cats: CategoryTable, sites: SiteTable, p: Id)
    ensures SiteLists(Kept(cats, p), sites - PageSites(sites, p), p)
            == Cleared(Content(cats, sites, p), Indelible(Content(cats, sites, p))).lists
  {
    var d, sites' := Content(cats, sites, p), sites - PageSites(sites, p);
    var a, b := SiteLists(Kept(cats, p), sites', p), Cleared(d, Indelible(d)).lists;
    assert forall c :: c in a <==> c in b;
    forall c | c in a ensures a[c] == b[c] {
      assert CategorySites(sites', p, c) == {};
    }
  }

  lemma ClearedValid(cats: CategoryTable, sites: SiteTable, pages: set<Id>, p: Id)
    requires RowsValid(cats, sites, pages)
    ensures RowsValid(Kept(cats, p), sites - PageSites(sites, p), pages)
    ensures OtherCategories(cats, Kept(cats, p), p) && OtherSites(sites, sites - PageSites(sites, p), p)
  {
    KeepPagesOwned(cats, Kept(cats, p), pages);
    ClearedSitesValid(cats, sites, p);
  }

  lemma ClearedSitesValid(cats: CategoryTable, sites: SiteTable, p: Id)
    requires SitesValid(cats, sites)
    ensures SitesValid(Kept(cats, p), sites - PageSites(sites, p)) && OtherSites(sites, sites - PageSites(sites, p), p)
  {}

  // ----------------------------------------------------------- the item loop

  lemma ImportAllStep(t: Tally, items: seq<Selected>, ids: seq<Fresh>, i: nat, maxCategories: nat, maxSites: nat)
    requires |ids| == |items| && i < |items|
    ensures var r := ImportAll(t, items[..i], ids[..i], maxCategories, maxSites);
            ImportAll(t, items[..i + 1], ids[..i + 1], maxCategories, maxSites)
            == if r.Err? then r else ImportItem(r.value, items[i], ids[i], maxCategories, maxSites)
  {
    assert items[..i + 1][..i] == items[..i] && ids[..i + 1][..i] == ids[..i];
  }

  /** A failing item fails the import. */
  lemma {:induction false} ErrorStops(t: Tally, items: seq<Selected>, ids: seq<Fresh>, i: nat, maxCategories: nat,
                                      maxSites: nat)
    requires |ids| == |items| && i <= |items|
    requires ImportAll(t, items[..i], ids[..i], maxCategories, maxSites).Err?
    ensures ImportAll(t, items, ids, maxCategories, maxSites)
            == ImportAll(t, items[..i], ids[..i], maxCategories, maxSites)
    decreases |items|
  {
    hide ImportItem;
    if i == |items| {
      assert items[..i] == items && ids[..i] == ids;
    } else {
      var n := |items| - 1;
      assert items[..n][..i] == items[..i] && ids[..n][..i] == ids[..i];
      ErrorStops(t, items[..n], ids[..n], i, maxCategories, maxSites);
    }
  }
}
