/** A page draft as its owner sees it: an ordered list of categories, each with
    an ordered list of sites. No sort orders, no foreign keys. */
module Drafts {
  import opened Prelude
  import opened Ordering

  datatype CategoryInfo = CategoryInfo(name: string, icon: string, uncategorized: bool, enabled: bool)

  datatype SiteInfo = SiteInfo(title: string, url: string, icon: string, description: string, enabled: bool)

  datatype Draft = Draft(
    title: string,
    description: string,
    settings: string,
    order: seq<Id>,
    categories: map<Id, CategoryInfo>,
    lists: map<Id, seq<Id>>,
    sites: map<Id, SiteInfo>)

  datatype CategoryOrder = CategoryOrder(id: Id, siteIds: seq<Id>)

  /** Every category is listed once and every site sits in exactly one list, once. */
  ghost predicate WellFormed(d: Draft) {
    && NoDup(d.order)
    && Elems(d.order) == d.categories.Keys == d.lists.Keys
    && (forall c :: c in d.lists ==> NoDup(d.lists[c]) && Elems(d.lists[c]) <= d.sites.Keys)
    && (forall s :: s in d.sites ==> exists c :: c in d.lists && s in d.lists[c])
    && (forall c, c', s :: c in d.lists && c' in d.lists && s in d.lists[c] && s in d.lists[c'] ==> c == c')
  }

  function AddCategory(d: Draft, c: Id, info: CategoryInfo): Draft {
    d.(order := d.order + [c], categories := d.categories[c := info], lists := d.lists[c := []])
  }

  function EditCategory(d: Draft, c: Id, info: CategoryInfo): Draft {
    d.(categories := d.categories[c := info])
  }

  /** Drops a category together with the sites in its list. */
  function DropCategory(d: Draft, c: Id): Draft
    requires c in d.lists
  {
    d.(order := Without(d.order, c), categories := d.categories - {c}, lists := d.lists - {c},
       sites := d.sites - Elems(d.lists[c]))
  }

  /** Appends the whole list of `from` to the list of `into`. */
  function PourSites(d: Draft, from: Id, into: Id): Draft
    requires from in d.lists && into in d.lists && from != into
  {
    d.(lists := d.lists[into := d.lists[into] + d.lists[from]][from := []])
  }

  function AddSite(d: Draft, c: Id, s: Id, info: SiteInfo): Draft
    requires c in d.lists
  {
    d.(lists := d.lists[c := d.lists[c] + [s]], sites := d.sites[s := info])
  }

  function EditSite(d: Draft, s: Id, info: SiteInfo): Draft {
    d.(sites := d.sites[s := info])
  }

  function DropSite(d: Draft, s: Id): Draft {
    d.(lists := map c | c in d.lists :: Without(d.lists[c], s), sites := d.sites - {s})
  }

  /** Takes the site out of whatever list holds it and appends it to `c`. */
  function MoveSite(d: Draft, s: Id, c: Id): Draft
    requires c in d.lists
  {
    d.(lists := map k | k in d.lists ::
         if k == c then Without(d.lists[k], s) + [s] else Without(d.lists[k], s))
  }

  function EnableSites(d: Draft, ids: seq<Id>, enabled: bool): Draft {
    d.(sites := map s | s in d.sites :: if s in ids then d.sites[s].(enabled := enabled) else d.sites[s])
  }

  function CategoryIds(order: seq<CategoryOrder>): (q: seq<Id>)
    ensures |q| == |order| && forall i :: 0 <= i < |q| ==> q[i] == order[i].id
  {
    seq(|order|, i requires 0 <= i < |order| => order[i].id)
  }

  function AllSiteIds(order: seq<CategoryOrder>): seq<Id> {
    if order == [] then [] else AllSiteIds(order[..|order| - 1]) + order[|order| - 1].siteIds
  }

  /** The order names every category once and every site once. */
  ghost predicate CompleteOrder(categories: set<Id>, sites: set<Id>, order: seq<CategoryOrder>) {
    && NoDup(CategoryIds(order)) && Elems(CategoryIds(order)) == categories
    && NoDup(AllSiteIds(order)) && Elems(AllSiteIds(order)) == sites
  }

  ghost predicate Requested(order: seq<CategoryOrder>, lists: map<Id, seq<Id>>) {
    && lists.Keys == Elems(CategoryIds(order))
    && forall i :: 0 <= i < |order| ==> order[i].id in lists && lists[order[i].id] == order[i].siteIds
  }

  /** `d'` is `d` with categories and lists exactly as requested. */
  ghost predicate Arranged(d: Draft, order: seq<CategoryOrder>, d': Draft) {
    && d' == d.(order := CategoryIds(order), lists := d'.lists)
    && Requested(order, d'.lists)
  }

  lemma {:induction false} AllSiteIdsAt(order: seq<CategoryOrder>, i: int, s: Id)
    requires 0 <= i < |order| && s in order[i].siteIds
    ensures s in AllSiteIds(order)
  {
    var n := |order| - 1;
    if i < n {
      AllSiteIdsAt(order[..n], i, s);
    }
  }

  lemma {:induction false} AllSiteIdsFind(order: seq<CategoryOrder>, s: Id) returns (i: int)
    requires s in AllSiteIds(order)
    ensures 0 <= i < |order| && s in order[i].siteIds
  {
    var n := |order| - 1;
    if s in order[n].siteIds {
      i := n;
    } else {
      i := AllSiteIdsFind(order[..n], s);
    }
  }

  lemma {:induction false} AllSiteIdsParts(order: seq<CategoryOrder>, i: int, j: int)
    requires NoDup(AllSiteIds(order)) && 0 <= i < |order| && 0 <= j < |order|
    ensures NoDup(order[i].siteIds)
    ensures i != j ==> forall s :: s in order[i].siteIds ==> s !in order[j].siteIds
  {
    var n := |order| - 1;
    var front, back := AllSiteIds(order[..n]), order[n].siteIds;
    var all := AllSiteIds(order);
    assert all == front + back;
    assert NoDup(front) by {
      forall a, b | 0 <= a < b < |front| ensures front[a] != front[b] {
        assert all[a] == front[a] && all[b] == front[b];
      }
    }
    assert NoDup(back) by {
      forall a, b | 0 <= a < b < |back| ensures back[a] != back[b] {
        assert all[|front| + a] == back[a] && all[|front| + b] == back[b];
      }
    }
    assert forall s :: s in front ==> s !in back by {
      forall s | s in front ensures s !in back {
        var a :| 0 <= a < |front| && front[a] == s;
        forall b | 0 <= b < |back| ensures back[b] != s {
          assert all[a] == s && all[|front| + b] == back[b];
        }
      }
    }
    if i < n && j < n {
      AllSiteIdsParts(order[..n], i, j);
    } else if i < n {
      AllSiteIdsParts(order[..n], i, i);
      forall s | s in order[i].siteIds ensures s !in order[j].siteIds {
        AllSiteIdsAt(order[..n], i, s);
      }
    } else if j < n {
      forall s | s in order[i].siteIds ensures s !in order[j].siteIds {
        if s in order[j].siteIds {
          AllSiteIdsAt(order[..n], j, s);
        }
      }
    }
  }

  /** There is only one draft that realises a complete order. */
  lemma ArrangedUnique(d: Draft, order: seq<CategoryOrder>, a: Draft, b: Draft)
    requires Arranged(d, order, a) && Arranged(d, order, b)
    ensures a == b
  {
    forall c | c in a.lists ensures a.lists[c] == b.lists[c] {
      assert c in CategoryIds(order);
    }
    assert a.lists == b.lists;
  }

  /** Arranging by a complete order loses and duplicates nothing. */
  lemma ArrangedWellFormed(d: Draft, order: seq<CategoryOrder>, d': Draft)
    requires CompleteOrder(d.categories.Keys, d.sites.Keys, order) && Arranged(d, order, d')
    ensures WellFormed(d')
  {
    forall c | c in d'.lists ensures NoDup(d'.lists[c]) && Elems(d'.lists[c]) <= d'.sites.Keys {
      assert c in CategoryIds(order);
      var i :| 0 <= i < |order| && order[i].id == c;
      AllSiteIdsParts(order, i, i);
      forall s | s in order[i].siteIds ensures s in d.sites {
        AllSiteIdsAt(order, i, s);
        assert s in Elems(AllSiteIds(order));
      }
    }
    forall s | s in d'.sites ensures exists c :: c in d'.lists && s in d'.lists[c] {
      assert s in Elems(AllSiteIds(order));
      var i := AllSiteIdsFind(order, s);
      assert s in d'.lists[order[i].id];
    }
    forall c, c', s | c in d'.lists && c' in d'.lists && s in d'.lists[c] && s in d'.lists[c']
      ensures c == c'
    {
      assert c in CategoryIds(order) && c' in CategoryIds(order);
      var i :| 0 <= i < |order| && order[i].id == c;
      var j :| 0 <= j < |order| && order[j].id == c';
      AllSiteIdsParts(order, i, j);
    }
  }
}
