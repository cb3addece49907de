/** Statements issued in a loop: renumbering, moving a block, reordering. */
module Renumbering {
  import opened Prelude
  import opened Ordering
  import opened Drafts
  import opened Tables

  /** for index, id: UPDATE categories SET sort_order = index WHERE id = ? */
  function NumberCategories(cats: CategoryTable, q: seq<Id>): CategoryTable {
    if q == [] then cats
    else
      var n := |q| - 1;
      var done := NumberCategories(cats, q[..n]);
      if q[n] in done then done[q[n] := done[q[n]].(sortOrder := n)] else done
  }

  /** for index, id: UPDATE sites SET sort_order = index WHERE id = ? */
  function NumberSites(sites: SiteTable, q: seq<Id>): SiteTable {
    if q == [] then sites
    else
      var n := |q| - 1;
      var done := NumberSites(sites, q[..n]);
      if q[n] in done then done[q[n] := done[q[n]].(sortOrder := n)] else done
  }

  /** for index, id: UPDATE sites SET category_id = c, sort_order = base + index
      WHERE id = ? AND page_id = p */
  function PlaceSites(sites: SiteTable, p: Id, q: seq<Id>, c: Id, base: nat): SiteTable {
    if q == [] then sites
    else
      var n := |q| - 1;
      var done := PlaceSites(sites, p, q[..n], c, base);
      if q[n] in done && done[q[n]].page == p
      then done[q[n] := done[q[n]].(category := c, sortOrder := base + n)] else done
  }

  /** The nested loop of a content reorder: one PlaceSites per requested category. */
  function PlaceAll(sites: SiteTable, p: Id, order: seq<CategoryOrder>): SiteTable {
    if order == [] then sites
    else
      var n := |order| - 1;
      PlaceSites(PlaceAll(sites, p, order[..n]), p, order[n].siteIds, order[n].id, 0)
  }

  lemma {:induction false} NumberCategoriesAt(cats: CategoryTable, q: seq<Id>)
    requires NoDup(q) && forall x :: x in q ==> x in cats
    ensures NumberCategories(cats, q).Keys == cats.Keys
    ensures forall i :: 0 <= i < |q| ==> q[i] in cats && NumberCategories(cats, q)[q[i]] == cats[q[i]].(sortOrder := i)
    ensures forall c :: c in cats && c !in q ==> NumberCategories(cats, q)[c] == cats[c]
  {
    if q != [] {
      var n := |q| - 1;
      var front, done := q[..n], NumberCategories(cats, q[..n]);
      NumberCategoriesAt(cats, front);
      assert q[n] in cats && q[n] !in front;
      forall i | 0 <= i < |q| ensures q[i] in cats && NumberCategories(cats, q)[q[i]] == cats[q[i]].(sortOrder := i) {
        if i < n {
          assert front[i] == q[i];
        }
      }
      forall c | c in cats && c !in q ensures NumberCategories(cats, q)[c] == cats[c] {
        assert c !in front && c != q[n];
      }
    }
  }

  lemma {:induction false} NumberSitesAt(sites: SiteTable, q: seq<Id>)
    requires NoDup(q) && forall x :: x in q ==> x in sites
    ensures NumberSites(sites, q).Keys == sites.Keys
    ensures forall i :: 0 <= i < |q| ==> q[i] in sites && NumberSites(sites, q)[q[i]] == sites[q[i]].(sortOrder := i)
    ensures forall s :: s in sites && s !in q ==> NumberSites(sites, q)[s] == sites[s]
  {
    if q != [] {
      var n := |q| - 1;
      var front, done := q[..n], NumberSites(sites, q[..n]);
      NumberSitesAt(sites, front);
      assert q[n] in sites && q[n] !in front;
      forall i | 0 <= i < |q| ensures q[i] in sites && NumberSites(sites, q)[q[i]] == sites[q[i]].(sortOrder := i) {
        if i < n {
          assert front[i] == q[i];
        }
      }
      forall s | s in sites && s !in q ensures NumberSites(sites, q)[s] == sites[s] {
        assert s !in front && s != q[n];
      }
    }
  }

  ghost predicate AllOnPage(sites: SiteTable, p: Id, q: seq<Id>) {
    forall x :: x in q ==> x in sites && sites[x].page == p
  }

  lemma {:induction false} PlaceSitesAt(sites: SiteTable, p: Id, q: seq<Id>, c: Id, base: nat)
    requires NoDup(q) && AllOnPage(sites, p, q)
    ensures PlaceSites(sites, p, q, c, base).Keys == sites.Keys
    ensures forall i :: 0 <= i < |q| ==>
              (q[i] in sites
              && PlaceSites(sites, p, q, c, base)[q[i]] == sites[q[i]].(category := c, sortOrder := base + i))
    ensures forall s :: s in sites && s !in q ==> PlaceSites(sites, p, q, c, base)[s] == sites[s]
  {
    if q != [] {
      var n := |q| - 1;
      var front, done := q[..n], PlaceSites(sites, p, q[..n], c, base);
      PlaceSitesAt(sites, p, front, c, base);
      assert q[n] in sites && q[n] !in front;
      forall i | 0 <= i < |q|
        ensures q[i] in sites
          && PlaceSites(sites, p, q, c, base)[q[i]] == sites[q[i]].(category := c, sortOrder := base + i)
      {
        if i < n {
          assert front[i] == q[i];
        }
      }
      forall s | s in sites && s !in q ensures PlaceSites(sites, p, q, c, base)[s] == sites[s] {
        assert s !in front && s != q[n];
      }
    }
  }

  // ------------------------------------------------------------ normalizing

  /** Renumbering the categories of a page by position changes no draft. */
  lemma NormalizeCategories(cats: CategoryTable, sites: SiteTable, p: Id, r: Id)
    ensures Content(NumberCategories(cats, CategoryListing(cats, p)), sites, r) == Content(cats, sites, r)
  {
    var q := CategoryListing(cats, p);
    var cats' := NumberCategories(cats, q);
    CategoryListElems(cats, p);
    NumberCategoriesAt(cats, q);
    NumberedInfos(cats, p);
    assert PageCategories(cats', r) == PageCategories(cats, r);
    if r == p {
      assert Elems(q) == PageCategories(cats', p);
      ListingNumbered(q, CategoryKeys(cats'));
    } else {
      CategoryListingFrame(cats, cats', r);
    }
    SiteListsFrame(cats, sites, cats', sites, r);
    NumberedInfosAgree(cats, cats', r);
  }

  lemma NumberedInfos(cats: CategoryTable, p: Id)
    ensures var cats' := NumberCategories(cats, CategoryListing(cats, p));
            cats'.Keys == cats.Keys
            && (forall c :: c in cats ==> cats'[c].page == cats[c].page && cats'[c].info == cats[c].info)
            && (forall c :: c in cats && cats[c].page != p ==> cats'[c] == cats[c])
  {
    var q := CategoryListing(cats, p);
    CategoryListElems(cats, p);
    NumberCategoriesAt(cats, q);
    forall c | c in cats
      ensures NumberCategories(cats, q)[c].page == cats[c].page && NumberCategories(cats, q)[c].info == cats[c].info
    {
      if c in q {
        var i :| 0 <= i < |q| && q[i] == c;
      }
    }
  }

  lemma NumberedInfosAgree(cats: CategoryTable, cats': CategoryTable, r: Id)
    requires cats'.Keys == cats.Keys
    requires forall c :: c in cats ==> cats'[c].page == cats[c].page && cats'[c].info == cats[c].info
    ensures CategoryInfos(cats', r) == CategoryInfos(cats, r)
  {}

  lemma NumberedSiteRows(sites: SiteTable, p: Id, c: Id)
    ensures var sites' := NumberSites(sites, SiteListing(sites, p, c));
            sites'.Keys == sites.Keys
            && (forall s :: s in sites ==> sites'[s].(sortOrder := 0) == sites[s].(sortOrder := 0))
            && (forall s :: s in sites && !(sites[s].page == p && sites[s].category == c) ==> sites'[s] == sites[s])
  {
    var q := SiteListing(sites, p, c);
    SiteListElems(sites, p, c);
    NumberSitesAt(sites, q);
    forall s | s in sites ensures NumberSites(sites, q)[s].(sortOrder := 0) == sites[s].(sortOrder := 0) {
      if s in q {
        var i :| 0 <= i < |q| && q[i] == s;
      }
    }
  }

  /** Renumbering the sites of a category by position changes no draft. */
  lemma NormalizeSites(cats: CategoryTable, sites: SiteTable, p: Id, c: Id, r: Id)
    ensures Content(cats, NumberSites(sites, SiteListing(sites, p, c)), r) == Content(cats, sites, r)
  {
    var sites' := NumberSites(sites, SiteListing(sites, p, c));
    NumberedSiteRows(sites, p, c);
    forall k ensures SiteListing(sites', r, k) == SiteListing(sites, r, k) {
      NormalizedListing(sites, p, c, r, k);
    }
    assert SiteLists(cats, sites', r) == SiteLists(cats, sites, r);
  }

  lemma NormalizedListing(sites: SiteTable, p: Id, c: Id, r: Id, k: Id)
    ensures SiteListing(NumberSites(sites, SiteListing(sites, p, c)), r, k) == SiteListing(sites, r, k)
  {
    var q := SiteListing(sites, p, c);
    var sites' := NumberSites(sites, q);
    SiteListElems(sites, p, c);
    NumberSitesAt(sites, q);
    NumberedSiteRows(sites, p, c);
    forall s | s in sites ensures sites'[s].page == sites[s].page && sites'[s].category == sites[s].category {
      assert sites'[s].(sortOrder := 0).page == sites'[s].page
          && sites'[s].(sortOrder := 0).category == sites'[s].category;
    }
    assert CategorySites(sites', r, k) == CategorySites(sites, r, k);
    if r == p && k == c {
      assert Elems(q) == CategorySites(sites', p, c);
      ListingNumbered(q, SiteKeys(sites'));
    } else {
      SiteListingFrame(sites, sites', r, k);
    }
  }

  // ------------------------------------------------------ moving a whole list

  lemma PlacedRows(sites: SiteTable, p: Id, q: seq<Id>, c: Id, base: nat)
    requires NoDup(q) && AllOnPage(sites, p, q)
    ensures var sites' := PlaceSites(sites, p, q, c, base);
            sites'.Keys == sites.Keys
            && (forall s :: s in sites ==> sites'[s].page == sites[s].page && sites'[s].info == sites[s].info)
            && (forall s :: s in sites ==> sites'[s].category == if s in q then c else sites[s].category)
  {
    PlaceSitesAt(sites, p, q, c, base);
    var sites' := PlaceSites(sites, p, q, c, base);
    forall s | s in sites
      ensures sites'[s].page == sites[s].page && sites'[s].info == sites[s].info
      ensures sites'[s].category == if s in q then c else sites[s].category
    {
      if s in q {
        var i :| 0 <= i < |q| && q[i] == s;
      }
    }
  }

  /** Re-pointing every site of `from`, in order, to MAX(sort_order) + 1 + index
      of `into` concatenates the two lists. */
  lemma PlaceSitesPours(cats: CategoryTable, sites: SiteTable, p: Id, from: Id, into: Id, base: nat)
    requires from in cats && into in cats && cats[from].page == p == cats[into].page && from != into
    requires forall u :: u in CategorySites(sites, p, into) ==> sites[u].sortOrder < base
    ensures Content(cats, PlaceSites(sites, p, SiteListing(sites, p, from), into, base), p)
         == PourSites(Content(cats, sites, p), from, into)
  {
    var q := SiteListing(sites, p, from);
    var sites' := PlaceSites(sites, p, q, into, base);
    SiteListElems(sites, p, from);
    PlacedRows(sites, p, q, into, base);
    PouredLists(cats, sites, p, from, into, base);
    assert SiteInfos(sites', p) == SiteInfos(sites, p);
  }

  lemma PouredLists(cats: CategoryTable, sites: SiteTable, p: Id, from: Id, into: Id, base: nat)
    requires from in cats && into in cats && cats[from].page == p == cats[into].page && from != into
    requires forall u :: u in CategorySites(sites, p, into) ==> sites[u].sortOrder < base
    ensures SiteLists(cats, PlaceSites(sites, p, SiteListing(sites, p, from), into, base), p)
         == PourSites(Content(cats, sites, p), from, into).lists
  {
    var sites' := PlaceSites(sites, p, SiteListing(sites, p, from), into, base);
    PouredInto(sites, p, from, into, base);
    PouredElsewhere(sites, p, from, into, base);
    hide PlaceSites, SiteListing, Listing;
    var d := Content(cats, sites, p);
    PouredAt(d, from, into);
    hide PourSites;
    assert forall k :: k in SiteLists(cats, sites', p) <==> k in d.lists;
    assert SiteLists(cats, sites', p) == PourSites(d, from, into).lists;
  }

  lemma PouredAt(d: Draft, from: Id, into: Id)
    requires from in d.lists && into in d.lists && from != into
    ensures var lists := PourSites(d, from, into).lists;
            && lists.Keys == d.lists.Keys && lists[from] == [] && lists[into] == d.lists[into] + d.lists[from]
            && forall k :: k in d.lists && k != from && k != into ==> lists[k] == d.lists[k]
  {}

  lemma PouredInto(sites: SiteTable, p: Id, from: Id, into: Id, base: nat)
    requires from != into
    requires forall u :: u in CategorySites(sites, p, into) ==> sites[u].sortOrder < base
    ensures SiteListing(PlaceSites(sites, p, SiteListing(sites, p, from), into, base), p, into)
         == SiteListing(sites, p, into) + SiteListing(sites, p, from)
  {
    var q := SiteListing(sites, p, from);
    var sites' := PlaceSites(sites, p, q, into, base);
    SiteListElems(sites, p, from);
    PlaceSitesAt(sites, p, q, into, base);
    PlacedRows(sites, p, q, into, base);
    var ids := CategorySites(sites, p, into);
    assert CategorySites(sites', p, into) == ids + Elems(q);
    ListingAppendBlock(ids, q, base, SiteKeys(sites), SiteKeys(sites'));
  }

  lemma PouredElsewhere(sites: SiteTable, p: Id, from: Id, into: Id, base: nat)
    requires from != into
    ensures var sites' := PlaceSites(sites, p, SiteListing(sites, p, from), into, base);
            SiteListing(sites', p, from) == []
            && forall k :: k != from && k != into ==> SiteListing(sites', p, k) == SiteListing(sites, p, k)
  {
    var q := SiteListing(sites, p, from);
    var sites' := PlaceSites(sites, p, q, into, base);
    SiteListElems(sites, p, from);
    PlaceSitesAt(sites, p, q, into, base);
    PlacedRows(sites, p, q, into, base);
    assert CategorySites(sites', p, from) == {};
    forall k | k != from && k != into ensures SiteListing(sites', p, k) == SiteListing(sites, p, k) {
      assert CategorySites(sites', p, k) == CategorySites(sites, p, k);
      SiteListingFrame(sites, sites', p, k);
    }
  }

  // ------------------------------------------------------------- reordering

  ghost predicate OrderOnPage(sites: SiteTable, p: Id, order: seq<CategoryOrder>) {
    NoDup(AllSiteIds(order)) && AllOnPage(sites, p, AllSiteIds(order))
  }

  lemma {:induction false} OrderOnPagePrefix(sites: SiteTable, p: Id, order: seq<CategoryOrder>)
    requires OrderOnPage(sites, p, order) && order != []
    ensures var n := |order| - 1;
            OrderOnPage(sites, p, order[..n])
            && NoDup(order[n].siteIds) && AllOnPage(sites, p, order[n].siteIds)
            && forall s :: s in order[n].siteIds ==> s !in AllSiteIds(order[..n])
  {
    var n := |order| - 1;
    var front, back := AllSiteIds(order[..n]), order[n].siteIds;
    var all := AllSiteIds(order);
    assert all == front + back;
    assert all[..|front|] == front && all[|front|..] == back;
    forall a, b | 0 <= a < b < |front| ensures front[a] != front[b] {
      assert all[a] == front[a] && all[b] == front[b];
    }
    AllSiteIdsParts(order, n, n);
    forall s | s in front || s in back ensures s in all {}
    forall s | s in back ensures s !in front {
      var b :| 0 <= b < |back| && back[b] == s;
      forall a | 0 <= a < |front| ensures front[a] != s {
        assert all[a] == front[a] && all[|front| + b] == s;
      }
    }
  }

  /** The nested loop keeps page, payload and every unnamed site. */
  lemma {:induction false} PlaceAllKeeps(sites: SiteTable, p: Id, order: seq<CategoryOrder>)
    requires OrderOnPage(sites, p, order)
    ensures var sites' := PlaceAll(sites, p, order);
            sites'.Keys == sites.Keys
            && (forall s :: s in sites ==> sites'[s].page == sites[s].page && sites'[s].info == sites[s].info)
            && (forall s :: s in sites && s !in AllSiteIds(order) ==> sites'[s] == sites[s])
  {
    if order != [] {
      var n := |order| - 1;
      OrderOnPagePrefix(sites, p, order);
      PlaceAllKeeps(sites, p, order[..n]);
      var mid := PlaceAll(sites, p, order[..n]);
      assert AllOnPage(mid, p, order[n].siteIds);
      PlaceSitesAt(mid, p, order[n].siteIds, order[n].id, 0);
      PlacedRows(mid, p, order[n].siteIds, order[n].id, 0);
      assert forall s :: s !in AllSiteIds(order) ==> s !in AllSiteIds(order[..n]) && s !in order[n].siteIds;
    }
  }

  /** ... and every named site sits where the order puts it. */
  lemma {:induction false} PlaceAllAt(sites: SiteTable, p: Id, order: seq<CategoryOrder>, i: int, j: int)
    requires OrderOnPage(sites, p, order)
    requires 0 <= i < |order| && 0 <= j < |order[i].siteIds|
    ensures var s := order[i].siteIds[j];
            s in sites && s in PlaceAll(sites, p, order)
            && PlaceAll(sites, p, order)[s] == sites[s].(category := order[i].id, sortOrder := j)
  {
    var n := |order| - 1;
    var front, last, s := order[..n], order[n], order[i].siteIds[j];
    OrderOnPagePrefix(sites, p, order);
    PlaceAllKeeps(sites, p, front);
    var mid := PlaceAll(sites, p, front);
    assert AllOnPage(mid, p, last.siteIds);
    PlaceSitesAt(mid, p, last.siteIds, last.id, 0);
    if i < n {
      assert front[i] == order[i];
      PlaceAllAt(sites, p, front, i, j);
      AllSiteIdsAt(front, i, s);
      assert s !in last.siteIds;
    } else {
      assert s !in AllSiteIds(front);
    }
  }

  /** The reorder loop realises exactly the requested arrangement. */
  lemma ReorderArranges(cats: CategoryTable, sites: SiteTable, p: Id, order: seq<CategoryOrder>)
    requires CompleteOrder(PageCategories(cats, p), PageSites(sites, p), order)
    ensures Arranged(Content(cats, sites, p), order,
                     Content(NumberCategories(cats, CategoryIds(order)), PlaceAll(sites, p, order), p))
  {
    var q := CategoryIds(order);
    CompleteOnPage(sites, p, order);
    ReorderedCategories(cats, p, q);
    PlaceAllKeeps(sites, p, order);
    assert SiteInfos(PlaceAll(sites, p, order), p) == SiteInfos(sites, p);
    ReorderedLists(cats, sites, p, order);
  }

  lemma CompleteOnPage(sites: SiteTable, p: Id, order: seq<CategoryOrder>)
    requires NoDup(AllSiteIds(order)) && Elems(AllSiteIds(order)) == PageSites(sites, p)
    ensures OrderOnPage(sites, p, order)
  {
    forall x | x in AllSiteIds(order) ensures x in sites && sites[x].page == p {
      assert x in Elems(AllSiteIds(order));
    }
  }

  lemma ReorderedLists(cats: CategoryTable, sites: SiteTable, p: Id, order: seq<CategoryOrder>)
    requires CompleteOrder(PageCategories(cats, p), PageSites(sites, p), order)
    ensures Requested(order, SiteLists(NumberCategories(cats, CategoryIds(order)), PlaceAll(sites, p, order), p))
  {
    var q := CategoryIds(order);
    var cats', sites' := NumberCategories(cats, q), PlaceAll(sites, p, order);
    ReorderedCategories(cats, p, q);
    assert PageCategories(cats', p) == PageCategories(cats, p);
    var lists := SiteLists(cats', sites', p);
    assert lists.Keys == PageCategories(cats', p);
    CompleteOnPage(sites, p, order);
    forall i | 0 <= i < |order| ensures order[i].id in lists && lists[order[i].id] == order[i].siteIds {
      assert q[i] in Elems(q);
      ReorderedList(sites, p, order, i);
    }
  }

  lemma ReorderedCategories(cats: CategoryTable, p: Id, q: seq<Id>)
    requires NoDup(q) && Elems(q) == PageCategories(cats, p)
    ensures var cats' := NumberCategories(cats, q);
            cats'.Keys == cats.Keys
            && (forall c :: c in cats ==> cats'[c].page == cats[c].page && cats'[c].info == cats[c].info)
            && CategoryListing(cats', p) == q && CategoryInfos(cats', p) == CategoryInfos(cats, p)
  {
    var cats' := NumberCategories(cats, q);
    RenumberedRows(cats, p, q);
    hide NumberCategories, NoDup;
    assert PageCategories(cats', p) == Elems(q);
    ListingNumbered(q, CategoryKeys(cats'));
  }

  lemma RenumberedRows(cats: CategoryTable, p: Id, q: seq<Id>)
    requires NoDup(q) && Elems(q) == PageCategories(cats, p)
    ensures var cats' := NumberCategories(cats, q);
            cats'.Keys == cats.Keys
            && (forall c :: c in cats ==> cats'[c].page == cats[c].page && cats'[c].info == cats[c].info)
            && (forall i :: 0 <= i < |q| ==> q[i] in cats' && cats'[q[i]].sortOrder == i)
  {
    var cats' := NumberCategories(cats, q);
    assert forall x :: x in q ==> x in Elems(q);
    NumberCategoriesAt(cats, q);
    hide NumberCategories, NoDup;
    forall c | c in cats ensures cats'[c].page == cats[c].page && cats'[c].info == cats[c].info {
      if c in q {
        var i :| 0 <= i < |q| && q[i] == c;
      }
    }
  }

  lemma ReorderedList(sites: SiteTable, p: Id, order: seq<CategoryOrder>, i: int)
    requires OrderOnPage(sites, p, order) && Elems(AllSiteIds(order)) == PageSites(sites, p)
    requires NoDup(CategoryIds(order)) && 0 <= i < |order|
    ensures SiteListing(PlaceAll(sites, p, order), p, order[i].id) == order[i].siteIds
  {
    var sites' := PlaceAll(sites, p, order);
    var q := order[i].siteIds;
    PlaceAllKeeps(sites, p, order);
    AllSiteIdsParts(order, i, i);
    forall s ensures s in CategorySites(sites', p, order[i].id) <==> s in Elems(q) {
      if s in q {
        AllSiteIdsAt(order, i, s);
        assert s in Elems(AllSiteIds(order));
        var j :| 0 <= j < |q| && q[j] == s;
        PlaceAllAt(sites, p, order, i, j);
      }
      if s in CategorySites(sites', p, order[i].id) {
        assert s in PageSites(sites, p) && s in Elems(AllSiteIds(order));
        var k := AllSiteIdsFind(order, s);
        var j :| 0 <= j < |order[k].siteIds| && order[k].siteIds[j] == s;
        PlaceAllAt(sites, p, order, k, j);
        assert CategoryIds(order)[k] == CategoryIds(order)[i];
      }
    }
    assert CategorySites(sites', p, order[i].id) == Elems(q);
    forall j | 0 <= j < |q| ensures q[j] in SiteKeys(sites') && SiteKeys(sites')[q[j]] == j {
      PlaceAllAt(sites, p, order, i, j);
    }
    ListingNumbered(q, SiteKeys(sites'));
  }
}
