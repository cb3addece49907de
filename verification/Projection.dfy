/** What a visitor may see of a draft. */
module Projection {
  import opened Prelude
  import opened Ordering
  import opened Drafts

  datatype PublicSite = PublicSite(id: Id, category: Id, title: string, url: string, icon: string, description: string)

  datatype PublicCategory = PublicCategory(id: Id, page: Id, name: string, icon: string, sites: seq<PublicSite>)

  function Shown(s: Id, c: Id, info: SiteInfo): PublicSite {
    PublicSite(s, c, info.title, info.url, info.icon, info.description)
  }

  /** The enabled sites of a list, in order. */
  function EnabledSites(sites: map<Id, SiteInfo>, c: Id, q: seq<Id>): seq<PublicSite> {
    if q == [] then []
    else
      var n := |q| - 1;
      var front := EnabledSites(sites, c, q[..n]);
      if q[n] in sites && sites[q[n]].enabled then front + [Shown(q[n], c, sites[q[n]])] else front
  }

  /** The enabled, non-empty categories of a list, in order. */
  function ShownCategories(page: Id, d: Draft, q: seq<Id>): seq<PublicCategory> {
    if q == [] then []
    else
      var n := |q| - 1;
      var c := q[n];
      var front := ShownCategories(page, d, q[..n]);
      if c in d.categories && c in d.lists && d.categories[c].enabled && EnabledSites(d.sites, c, d.lists[c]) != []
      then front + [PublicCategory(c, page, d.categories[c].name, d.categories[c].icon,
          EnabledSites(d.sites, c, d.lists[c]))]
      else front
  }

  function Project(page: Id, d: Draft): seq<PublicCategory> {
    ShownCategories(page, d, d.order)
  }

  // -------------------------------------------- what the projection promises

  ghost predicate Lists(shown: seq<PublicSite>, s: Id) {
    exists i :: 0 <= i < |shown| && shown[i].id == s
  }

  lemma ListsAppend(shown: seq<PublicSite>, last: PublicSite, s: Id)
    ensures Lists(shown + [last], s) <==> Lists(shown, s) || last.id == s
  {
    var all := shown + [last];
    if Lists(shown, s) {
      var i :| 0 <= i < |shown| && shown[i].id == s;
      assert all[i].id == s;
    }
    if last.id == s {
      assert all[|shown|].id == s;
    }
  }

  lemma {:induction false} EnabledSitesExact(sites: map<Id, SiteInfo>, c: Id, q: seq<Id>, s: Id)
    ensures Lists(EnabledSites(sites, c, q), s) <==> s in q && s in sites && sites[s].enabled
  {
    if q != [] {
      var n := |q| - 1;
      EnabledSitesExact(sites, c, q[..n], s);
      assert s in q <==> s in q[..n] || s == q[n];
      if q[n] in sites && sites[q[n]].enabled {
        ListsAppend(EnabledSites(sites, c, q[..n]), Shown(q[n], c, sites[q[n]]), s);
      }
    }
  }

  lemma {:induction false} EnabledSitesOnce(sites: map<Id, SiteInfo>, c: Id, q: seq<Id>)
    requires NoDup(q)
    ensures forall i, j :: 0 <= i < j < |EnabledSites(sites, c, q)| ==>
              EnabledSites(sites, c, q)[i].id != EnabledSites(sites, c, q)[j].id
  {
    if q != [] {
      var n := |q| - 1;
      EnabledSitesOnce(sites, c, q[..n]);
      var front := EnabledSites(sites, c, q[..n]);
      forall i | 0 <= i < |front| ensures front[i].id != q[n] {
        assert Lists(front, front[i].id);
        EnabledSitesExact(sites, c, q[..n], front[i].id);
      }
    }
  }

  ghost predicate Visible(d: Draft, c: Id, s: Id) {
    && c in d.order && c in d.categories && d.categories[c].enabled
    && c in d.lists && s in d.lists[c] && s in d.sites && d.sites[s].enabled
  }

  ghost predicate Appears(shown: seq<PublicCategory>, c: Id, s: Id) {
    exists i :: 0 <= i < |shown| && shown[i].id == c && Lists(shown[i].sites, s)
  }

  lemma AppearsAppend(shown: seq<PublicCategory>, last: PublicCategory, c: Id, s: Id)
    ensures Appears(shown + [last], c, s) <==> Appears(shown, c, s) || (last.id == c && Lists(last.sites, s))
  {
    var all := shown + [last];
    if Appears(shown, c, s) {
      var i :| 0 <= i < |shown| && shown[i].id == c && Lists(shown[i].sites, s);
      assert all[i] == shown[i];
    }
    if last.id == c && Lists(last.sites, s) {
      assert all[|shown|] == last;
    }
  }

  lemma {:induction false} ShownExact(page: Id, d: Draft, q: seq<Id>, c: Id, s: Id)
    ensures Appears(ShownCategories(page, d, q), c, s)
       <==> c in q && c in d.categories && d.categories[c].enabled
            && c in d.lists && s in d.lists[c] && s in d.sites && d.sites[s].enabled
  {
    if q != [] {
      var n := |q| - 1;
      var k := q[n];
      ShownExact(page, d, q[..n], c, s);
      assert c in q <==> c in q[..n] || c == k;
      if k in d.categories && k in d.lists && d.categories[k].enabled {
        var sites := EnabledSites(d.sites, k, d.lists[k]);
        EnabledSitesExact(d.sites, k, d.lists[k], s);
        if sites != [] {
          AppearsAppend(ShownCategories(page, d, q[..n]),
                        PublicCategory(k, page, d.categories[k].name, d.categories[k].icon, sites), c, s);
        }
      }
    }
  }

  /** The projection lists exactly the enabled sites of enabled categories. */
  lemma ProjectionExact(page: Id, d: Draft, c: Id, s: Id)
    ensures Appears(Project(page, d), c, s) <==> Visible(d, c, s)
  {
    ShownExact(page, d, d.order, c, s);
  }

  lemma {:induction false} ShownFrom(page: Id, d: Draft, q: seq<Id>, i: int)
    requires 0 <= i < |ShownCategories(page, d, q)|
    ensures var cat := ShownCategories(page, d, q)[i];
            && cat.id in q && cat.sites != [] && cat.page == page
            && cat.id in d.categories && cat.id in d.lists
            && cat.sites == EnabledSites(d.sites, cat.id, d.lists[cat.id])
            && cat.name == d.categories[cat.id].name
  {
    var n := |q| - 1;
    if i < |ShownCategories(page, d, q[..n])| {
      ShownFrom(page, d, q[..n], i);
    }
  }

  lemma {:induction false} ShownInOrder(page: Id, d: Draft, q: seq<Id>, i: int, j: int) returns (a: int, b: int)
    requires NoDup(q) && 0 <= i < j < |ShownCategories(page, d, q)|
    ensures 0 <= a < b < |q|
    ensures q[a] == ShownCategories(page, d, q)[i].id && q[b] == ShownCategories(page, d, q)[j].id
  {
    var n := |q| - 1;
    var front := ShownCategories(page, d, q[..n]);
    if j < |front| {
      a, b := ShownInOrder(page, d, q[..n], i, j);
    } else {
      ShownFrom(page, d, q[..n], i);
      a :| 0 <= a < n && q[a] == front[i].id;
      b := n;
    }
  }

  /** ... each site once, no empty category, categories in display order. */
  lemma ProjectionTidy(page: Id, d: Draft, i: int, j: int)
    requires WellFormed(d)
    requires 0 <= i < |Project(page, d)| && 0 <= j < |Project(page, d)|
    ensures Project(page, d)[i].sites != []
    ensures i < j
            ==> exists a, b :: 0 <= a < b < |d.order| && d.order[a] == Project(page, d)[i].id
                 && d.order[b] == Project(page, d)[j].id
    ensures forall m, n ::
              0 <= m < |Project(page, d)[i].sites| && 0 <= n < |Project(page, d)[j].sites| && !(i == j && m == n)
              ==> Project(page, d)[i].sites[m].id != Project(page, d)[j].sites[n].id
  {
    var all := Project(page, d);
    ShownFrom(page, d, d.order, i);
    ShownFrom(page, d, d.order, j);
    if i < j {
      var a, b := ShownInOrder(page, d, d.order, i, j);
    } else if j < i {
      var a, b := ShownInOrder(page, d, d.order, j, i);
    }
    forall m, n | 0 <= m < |all[i].sites| && 0 <= n < |all[j].sites| && all[i].sites[m].id == all[j].sites[n].id
      ensures i == j && m == n
    {
      var ci, cj := all[i].id, all[j].id;
      assert Lists(all[i].sites, all[i].sites[m].id) && Lists(all[j].sites, all[j].sites[n].id);
      EnabledSitesExact(d.sites, ci, d.lists[ci], all[i].sites[m].id);
      EnabledSitesExact(d.sites, cj, d.lists[cj], all[j].sites[n].id);
      assert ci == cj;
      EnabledSitesOnce(d.sites, ci, d.lists[ci]);
    }
  }
}
