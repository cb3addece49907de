/** An import, told without any counter or cache: each selected site is judged
    against the draft as it stands at that moment. */
module ImportModel {
  import opened Prelude
  import opened Drafts
  import opened Text

  datatype ImportSite = ImportSite(
    sourceId: string, title: string, url: string, duplicate: bool, valid: bool, truncated: bool, enabled: bool)

  datatype Selected = Selected(categoryName: string, categoryEnabled: bool, site: ImportSite)

  datatype Tally = Tally(draft: Draft, categoriesCreated: nat, sitesCreated: nat, duplicates: nat, invalid: nat)

  datatype ImportError = Limit

  /** The identifiers drawn for an item, should it need them. */
  datatype Fresh = Fresh(category: Id, site: Id)

  function Urls(d: Draft): set<string> {
    set s | s in d.sites :: d.sites[s].url
  }

  function NameKey(name: string): string {
    FOLD(Trim(name))
  }

  /** The category a lower-cased name denotes; a later one wins. */
  function NameMap(q: seq<Id>, infos: map<Id, CategoryInfo>): map<string, Id> {
    if q == [] then map[]
    else
      var n := |q| - 1;
      var m := NameMap(q[..n], infos);
      if q[n] in infos then m[FOLD(infos[q[n]].name) := q[n]] else m
  }

  function Names(d: Draft): map<string, Id> {
    NameMap(d.order, d.categories)
  }

  function NewCategory(item: Selected): CategoryInfo {
    CategoryInfo(Trim(item.categoryName), "", false, item.categoryEnabled)
  }

  function NewSite(item: Selected): SiteInfo {
    SiteInfo(item.site.title, item.site.url, "", "", item.site.enabled)
  }

  /** The draft with the item's category present, if a new one may be added. */
  function WithCategory(t: Tally, item: Selected, ids: Fresh, maxCategories: nat): Result<Tally, ImportError> {
    if NameKey(item.categoryName) in Names(t.draft) then Ok(t)
    else if |t.draft.categories| >= maxCategories then Err(Limit)
    else Ok(t.(draft := AddCategory(t.draft, ids.category, NewCategory(item)),
        categoriesCreated := t.categoriesCreated + 1))
  }

  /** The category the item goes to. */
  function Target(d: Draft, item: Selected): Id {
    var key := NameKey(item.categoryName);
    if key in Names(d) then Names(d)[key] else 0
  }

  function ImportItem(t: Tally, item: Selected, ids: Fresh, maxCategories: nat,
                      maxSites: nat): Result<Tally, ImportError> {
    if !item.site.valid then Ok(t.(invalid := t.invalid + 1))
    else if item.site.url in Urls(t.draft) then Ok(t.(duplicates := t.duplicates + 1))
    else
      var w := WithCategory(t, item, ids, maxCategories);
      if w.Err? then w else Placed(w.value, item, ids.site, maxSites)
  }

  /** The item's site appended to its category's list, if one more is allowed. */
  function Placed(t: Tally, item: Selected, site: Id, maxSites: nat): Result<Tally, ImportError> {
    var c := Target(t.draft, item);
    if |t.draft.sites| >= maxSites || c !in t.draft.lists then Err(Limit)
    else Ok(t.(draft := AddSite(t.draft, c, site, NewSite(item)), sitesCreated := t.sitesCreated + 1))
  }

  function ImportAll(t: Tally, items: seq<Selected>, ids: seq<Fresh>, maxCategories: nat,
                     maxSites: nat): Result<Tally, ImportError>
    requires |ids| == |items|
  {
    if items == [] then Ok(t)
    else
      var n := |items| - 1;
      var r := ImportAll(t, items[..n], ids[..n], maxCategories, maxSites);
      if r.Err? then r else ImportItem(r.value, items[n], ids[n], maxCategories, maxSites)
  }

  function Start(d: Draft): Tally {
    Tally(d, 0, 0, 0, 0)
  }

  /** Mode replace begins from the bare uncategorized category. */
  function Cleared(d: Draft, keep: set<Id>): Draft {
    d.(order := KeepIn(d.order, keep), categories := map c | c in d.categories && c in keep :: d.categories[c],
       lists := map c | c in d.lists && c in keep :: [], sites := map[])
  }

  function KeepIn(q: seq<Id>, keep: set<Id>): seq<Id> {
    if q == [] then []
    else if q[0] in keep then [q[0]] + KeepIn(q[1..], keep)
    else KeepIn(q[1..], keep)
  }

  function Indelible(d: Draft): set<Id> {
    set c | c in d.categories && d.categories[c].uncategorized
  }

  /** Where an import starts from. */
  function Base(d: Draft, replace: bool): Draft {
    if replace then Cleared(d, Indelible(d)) else d
  }

  /** The page's draft after an import of its content. */
  function WithContent(d: Draft, content: Draft): Draft {
    content.(title := d.title, description := d.description, settings := d.settings)
  }

  // -------------------------------------------------------------- properties

  /** An order that only knows categories the draft has. */
  ghost predicate Coherent(d: Draft) {
    && d.categories.Keys == d.lists.Keys
    && forall c :: c in d.order ==> c in d.categories
  }

  lemma {:induction false} NameMapIn(q: seq<Id>, infos: map<Id, CategoryInfo>)
    ensures forall k :: k in NameMap(q, infos) ==> NameMap(q, infos)[k] in q && NameMap(q, infos)[k] in infos
    ensures forall c :: c in q && c in infos ==> FOLD(infos[c].name) in NameMap(q, infos)
  {
    if q != [] {
      var n := |q| - 1;
      NameMapIn(q[..n], infos);
      assert q == q[..n] + [q[n]];
    }
  }

  lemma {:induction false} NameMapFrame(q: seq<Id>, infos: map<Id, CategoryInfo>, c: Id, info: CategoryInfo)
    requires c !in q
    ensures NameMap(q, infos[c := info]) == NameMap(q, infos)
  {
    if q != [] {
      NameMapFrame(q[..|q| - 1], infos, c, info);
    }
  }

  /** Appending a category extends the name map by exactly its key. */
  lemma NamesAppend(d: Draft, c: Id, info: CategoryInfo)
    requires c !in d.order
    ensures Names(AddCategory(d, c, info)) == Names(d)[FOLD(info.name) := c]
  {
    var q := d.order + [c];
    assert q[..|q| - 1] == d.order;
    NameMapFrame(d.order, d.categories, c, info);
  }

  lemma UrlsAppend(d: Draft, c: Id, s: Id, info: SiteInfo)
    requires c in d.lists && s !in d.sites
    ensures Urls(AddSite(d, c, s, info)) == Urls(d) + {info.url}
  {
    var e := AddSite(d, c, s, info);
    forall u ensures u in Urls(e) <==> u in Urls(d) + {info.url} {
      if u in Urls(d) {
        var x :| x in d.sites && d.sites[x].url == u;
        assert x in e.sites && e.sites[x].url == u;
      }
      if u == info.url {
        assert s in e.sites && e.sites[s].url == u;
      }
    }
  }

  ghost predicate FreshFor(d: Draft, ids: seq<Fresh>) {
    && (forall i :: 0 <= i < |ids| ==> ids[i].category !in d.categories && ids[i].site !in d.sites)
    && (forall i, j :: 0 <= i < j < |ids| ==> ids[i].category != ids[j].category && ids[i].site != ids[j].site)
  }

  ghost predicate Stepped(t: Tally, ids: Fresh, u: Tally) {
    && Coherent(u.draft)
    && t.draft.sites.Keys <= u.draft.sites.Keys <= t.draft.sites.Keys + {ids.site}
    && t.draft.categories.Keys <= u.draft.categories.Keys <= t.draft.categories.Keys + {ids.category}
    && u.sitesCreated + u.duplicates + u.invalid == t.sitesCreated + t.duplicates + t.invalid + 1
    && |u.draft.sites| == |t.draft.sites| + (u.sitesCreated - t.sitesCreated)
    && |u.draft.categories| == |t.draft.categories| + (u.categoriesCreated - t.categoriesCreated)
  }

  ghost predicate Grown(t: Draft, u: Draft, maxCategories: nat, maxSites: nat) {
    && Prefix(t.order, u.order)
    && (|t.sites| <= maxSites ==> |u.sites| <= maxSites)
    && (|t.categories| <= maxCategories ==> |u.categories| <= maxCategories)
    && (forall c :: c in t.lists ==> c in u.lists && Prefix(t.lists[c], u.lists[c]))
  }

  function ValidUrls(items: seq<Selected>): set<string> {
    set i | 0 <= i < |items| && items[i].site.valid :: items[i].site.url
  }

  /** One item: the draft stays coherent, ids come from the item's own draw. */
  lemma ItemStep(t: Tally, item: Selected, ids: Fresh, maxCategories: nat, maxSites: nat)
    requires Coherent(t.draft) && ids.category !in t.draft.categories && ids.site !in t.draft.sites
    ensures var r := ImportItem(t, item, ids, maxCategories, maxSites); r.Ok? ==> Stepped(t, ids, r.value)
  {
    hide Names, Urls, NameKey, Coherent, WithCategory, Placed, CategoryAdded, SiteAdded;
    var w := WithCategory(t, item, ids, maxCategories);
    if item.site.valid && item.site.url !in Urls(t.draft) && w.Ok? {
      var r := Placed(w.value, item, ids.site, maxSites);
      CategoryStep(t, item, ids, maxCategories);
      assert CategoryAdded(t, ids.category, w.value);
      if r.Ok? {
        SitesOfCategory(t, ids.category, w.value);
        SiteStep(w.value, item, ids.site, maxSites);
        BothAdded(t, ids, w.value, r.value);
      }
    }
  }

  ghost predicate CategoryAdded(t: Tally, c: Id, u: Tally) {
    && Coherent(u.draft) && u.draft.sites == t.draft.sites
    && t.draft.categories.Keys <= u.draft.categories.Keys <= t.draft.categories.Keys + {c}
    && |u.draft.categories| == |t.draft.categories| + (u.categoriesCreated - t.categoriesCreated)
    && u == t.(draft := u.draft, categoriesCreated := u.categoriesCreated)
  }

  ghost predicate SiteAdded(t: Tally, s: Id, u: Tally) {
    && Coherent(u.draft) && u.draft.categories == t.draft.categories
    && u.draft.sites.Keys == t.draft.sites.Keys + {s} && |u.draft.sites| == |t.draft.sites| + 1
    && u == t.(draft := u.draft, sitesCreated := t.sitesCreated + 1)
  }

  lemma SitesOfCategory(t: Tally, c: Id, u: Tally)
    requires CategoryAdded(t, c, u)
    ensures Coherent(u.draft) && u.draft.sites == t.draft.sites
  {}

  lemma BothAdded(t: Tally, ids: Fresh, u: Tally, v: Tally)
    requires CategoryAdded(t, ids.category, u) && SiteAdded(u, ids.site, v)
    ensures Stepped(t, ids, v)
  {
    hide Coherent;
  }

  lemma CategoryStep(t: Tally, item: Selected, ids: Fresh, maxCategories: nat)
    requires Coherent(t.draft) && ids.category !in t.draft.categories
    ensures var r := WithCategory(t, item, ids, maxCategories); r.Ok? ==> CategoryAdded(t, ids.category, r.value)
  {
    hide Names, NameKey;
  }

  lemma SiteStep(t: Tally, item: Selected, site: Id, maxSites: nat)
    requires Coherent(t.draft) && site !in t.draft.sites
    ensures var r := Placed(t, item, site, maxSites); r.Ok? ==> SiteAdded(t, site, r.value)
  {
    hide Names, NameKey, Target;
  }

  ghost predicate Prefix(a: seq<Id>, b: seq<Id>) {
    |a| <= |b| && b[..|a|] == a
  }

  function DrawnSites(ids: seq<Fresh>): set<Id> {
    set i | 0 <= i < |ids| :: ids[i].site
  }

  function DrawnCategories(ids: seq<Fresh>): set<Id> {
    set i | 0 <= i < |ids| :: ids[i].category
  }

  lemma IdsStep(ids: seq<Fresh>)
    requires ids != []
    ensures var n := |ids| - 1;
            DrawnSites(ids) == DrawnSites(ids[..n]) + {ids[n].site}
                && DrawnCategories(ids) == DrawnCategories(ids[..n]) + {ids[n].category}
  {
    var n := |ids| - 1;
    assert ids == ids[..n] + [ids[n]];
    forall x ensures x in DrawnSites(ids) <==> x in DrawnSites(ids[..n]) + {ids[n].site} {
      if x in DrawnSites(ids[..n]) {
        var i :| 0 <= i < n && ids[..n][i].site == x;
        assert ids[i].site == x;
      }
    }
    forall x ensures x in DrawnCategories(ids) <==> x in DrawnCategories(ids[..n]) + {ids[n].category} {
      if x in DrawnCategories(ids[..n]) {
        var i :| 0 <= i < n && ids[..n][i].category == x;
        assert ids[i].category == x;
      }
    }
  }

  /** What an accepted import has done to the draft and the counters. */
  ghost predicate Outcome(t: Tally, n: nat, ids: seq<Fresh>, maxCategories: nat, maxSites: nat, u: Tally) {
    && Coherent(u.draft)
    && t.draft.sites.Keys <= u.draft.sites.Keys <= t.draft.sites.Keys + DrawnSites(ids)
    && t.draft.categories.Keys <= u.draft.categories.Keys <= t.draft.categories.Keys + DrawnCategories(ids)
    && u.sitesCreated + u.duplicates + u.invalid == t.sitesCreated + t.duplicates + t.invalid + n
    && |u.draft.sites| - u.sitesCreated == |t.draft.sites| - t.sitesCreated
    && |u.draft.categories| - u.categoriesCreated == |t.draft.categories| - t.categoriesCreated
    && Grown(t.draft, u.draft, maxCategories, maxSites)
  }

  /** The three site counters add up to the selection, limits hold, and every
      list has only grown at its end. */
  lemma {:induction false} ImportOutcome(t: Tally, items: seq<Selected>, ids: seq<Fresh>, maxCategories: nat,
                                         maxSites: nat)
    requires |ids| == |items| && Coherent(t.draft) && FreshFor(t.draft, ids)
    ensures var r := ImportAll(t, items, ids, maxCategories, maxSites);
            r.Ok? ==> Outcome(t, |items|, ids, maxCategories, maxSites, r.value)
  {
    hide Outcome, ImportItem, Coherent;
    if items == [] {
      NoItems(t, ids, maxCategories, maxSites);
    } else {
      var n := |items| - 1;
      var r := ImportAll(t, items[..n], ids[..n], maxCategories, maxSites);
      hide FreshFor;
      ImportOutcome(t, items[..n], ids[..n], maxCategories, maxSites);
      if r.Ok? {
        var u := r.value;
        NextOutcome(t, n, ids, maxCategories, maxSites, u, items[n]);
      }
    }
  }

  lemma NoItems(t: Tally, ids: seq<Fresh>, maxCategories: nat, maxSites: nat)
    requires ids == [] && Coherent(t.draft)
    ensures Outcome(t, 0, ids, maxCategories, maxSites, t)
  {}

  lemma NotDrawn(t: Tally, n: nat, ids: seq<Fresh>, maxCategories: nat, maxSites: nat, u: Tally)
    requires |ids| == n + 1 && FreshFor(t.draft, ids) && Outcome(t, n, ids[..n], maxCategories, maxSites, u)
    ensures Coherent(u.draft) && ids[n].site !in u.draft.sites && ids[n].category !in u.draft.categories
  {}

  lemma NextOutcome(t: Tally, n: nat, ids: seq<Fresh>, maxCategories: nat, maxSites: nat, u: Tally, item: Selected)
    requires |ids| == n + 1 && FreshFor(t.draft, ids) && Outcome(t, n, ids[..n], maxCategories, maxSites, u)
    ensures var r := ImportItem(u, item, ids[n], maxCategories, maxSites);
            r.Ok? ==> Outcome(t, n + 1, ids, maxCategories, maxSites, r.value)
  {
    hide FreshFor, Coherent, Outcome, ImportItem, Stepped, Grown;
    NotDrawn(t, n, ids, maxCategories, maxSites, u);
    ItemStep(u, item, ids[n], maxCategories, maxSites);
    ItemGrows(u, item, ids[n], maxCategories, maxSites);
    var r := ImportItem(u, item, ids[n], maxCategories, maxSites);
    if r.Ok? {
      OutcomeStep(t, n, ids, maxCategories, maxSites, u, r.value);
    }
  }

  lemma OutcomeStep(t: Tally, n: nat, ids: seq<Fresh>, maxCategories: nat, maxSites: nat, u: Tally, v: Tally)
    requires |ids| == n + 1 && Outcome(t, n, ids[..n], maxCategories, maxSites, u)
    requires Stepped(u, ids[n], v) && Grown(u.draft, v.draft, maxCategories, maxSites)
    ensures Outcome(t, n + 1, ids, maxCategories, maxSites, v)
  {
    hide DrawnSites, DrawnCategories, Grown, Coherent;
    IdsStep(ids);
    GrownChain(t.draft, u.draft, v.draft, maxCategories, maxSites);
  }

  lemma GrownChain(a: Draft, b: Draft, c: Draft, maxCategories: nat, maxSites: nat)
    requires Grown(a, b, maxCategories, maxSites) && Grown(b, c, maxCategories, maxSites)
    ensures Grown(a, c, maxCategories, maxSites)
  {
    forall k | k in a.lists ensures k in c.lists && Prefix(a.lists[k], c.lists[k]) {
      var x, y, z := a.lists[k], b.lists[k], c.lists[k];
      assert z[..|x|] == y[..|x|];
    }
    assert c.order[..|a.order|] == b.order[..|a.order|];
  }

  lemma ItemGrows(u: Tally, item: Selected, ids: Fresh, maxCategories: nat, maxSites: nat)
    requires Coherent(u.draft) && ids.category !in u.draft.categories && ids.site !in u.draft.sites
    ensures var r := ImportItem(u, item, ids, maxCategories, maxSites);
            r.Ok? ==> Grown(u.draft, r.value.draft, maxCategories, maxSites)
  {
    hide Names, Urls, NameKey, Target;
  }

  /** After an import the page has its old URLs and those of the valid items. */
  lemma {:induction false} ImportedUrls(t: Tally, items: seq<Selected>, ids: seq<Fresh>, maxCategories: nat,
                                        maxSites: nat)
    requires |ids| == |items| && Coherent(t.draft) && FreshFor(t.draft, ids)
    ensures var r := ImportAll(t, items, ids, maxCategories, maxSites);
            r.Ok? ==> Urls(r.value.draft) == Urls(t.draft) + ValidUrls(items)
  {
    hide Coherent, Outcome, ValidUrls, ImportItem, Urls;
    if items == [] {
      NoValidUrls();
    } else {
      var n := |items| - 1;
      var r := ImportAll(t, items[..n], ids[..n], maxCategories, maxSites);
      hide FreshFor;
      ImportedUrls(t, items[..n], ids[..n], maxCategories, maxSites);
      if r.Ok? {
        ImportOutcome(t, items[..n], ids[..n], maxCategories, maxSites);
        UrlsStep(t, items, ids, maxCategories, maxSites, r.value);
      }
    }
  }

  lemma UrlsStep(t: Tally, items: seq<Selected>, ids: seq<Fresh>, maxCategories: nat, maxSites: nat, u: Tally)
    requires items != [] && |ids| == |items| && FreshFor(t.draft, ids)
    requires var n := |items| - 1;
             Outcome(t, n, ids[..n], maxCategories, maxSites, u)
                 && Urls(u.draft) == Urls(t.draft) + ValidUrls(items[..n])
    ensures var n := |items| - 1;
            var r := ImportItem(u, items[n], ids[n], maxCategories, maxSites);
            r.Ok? ==> Urls(r.value.draft) == Urls(t.draft) + ValidUrls(items)
  {
    hide Coherent, Outcome, ValidUrls, ImportItem, Urls, FreshFor;
    var n := |items| - 1;
    NotDrawn(t, n, ids, maxCategories, maxSites, u);
    ItemUrls(u, items[n], ids[n], maxCategories, maxSites);
    ValidUrlsStep(items);
  }

  lemma NoValidUrls()
    ensures ValidUrls([]) == {}
  {}

  lemma ValidUrlsStep(items: seq<Selected>)
    requires items != []
    ensures var n := |items| - 1;
            ValidUrls(items) == ValidUrls(items[..n]) + (if items[n].site.valid then {items[n].site.url} else {})
  {
    var n := |items| - 1;
    forall x
      ensures x in ValidUrls(items)
              <==> x in ValidUrls(items[..n]) + (if items[n].site.valid then {items[n].site.url} else {})
    {
      if x in ValidUrls(items) {
        var i :| 0 <= i < |items| && items[i].site.valid && items[i].site.url == x;
        if i < n {
          assert items[..n][i].site.url == x;
        }
      }
      if x in ValidUrls(items[..n]) {
        var i :| 0 <= i < n && items[..n][i].site.valid && items[..n][i].site.url == x;
        assert items[i].site.url == x;
      }
    }
  }

  lemma ItemUrls(t: Tally, item: Selected, ids: Fresh, maxCategories: nat, maxSites: nat)
    requires Coherent(t.draft) && ids.category !in t.draft.categories && ids.site !in t.draft.sites
    ensures var r := ImportItem(t, item, ids, maxCategories, maxSites);
            r.Ok? ==> Urls(r.value.draft) == Urls(t.draft) + (if item.site.valid then {item.site.url} else {})
  {
    hide Names, NameKey;
    var r := ImportItem(t, item, ids, maxCategories, maxSites);
    if r.Ok? && item.site.valid && item.site.url !in Urls(t.draft) {
      var w := WithCategory(t, item, ids, maxCategories);
      assert w.value.draft.sites == t.draft.sites;
      assert Urls(w.value.draft) == Urls(t.draft);
      UrlsAppend(w.value.draft, Target(w.value.draft, item), ids.site, NewSite(item));
    }
  }

  lemma {:induction false} AllPresent(d: Draft, items: seq<Selected>, ids: seq<Fresh>, maxCategories: nat,
                                      maxSites: nat)
    requires |ids| == |items|
    requires forall i :: 0 <= i < |items| && items[i].site.valid ==> items[i].site.url in Urls(d)
    ensures var r := ImportAll(Start(d), items, ids, maxCategories, maxSites);
            r.Ok? && r.value.draft == d && r.value.sitesCreated == 0 && r.value.categoriesCreated == 0
  {
    if items != [] {
      var n := |items| - 1;
      assert forall i :: 0 <= i < n ==> items[..n][i] == items[i];
      AllPresent(d, items[..n], ids[..n], maxCategories, maxSites);
    }
  }

  /** Repeating a successful merge creates nothing and leaves the draft alone. */
  lemma RepeatedMergeCreatesNothing(d: Draft, items: seq<Selected>, ids: seq<Fresh>, again: seq<Fresh>,
                                    maxCategories: nat, maxSites: nat)
    requires |ids| == |items| == |again| && Coherent(d) && FreshFor(d, ids)
    ensures var first := ImportAll(Start(d), items, ids, maxCategories, maxSites);
            first.Ok? ==>
              var second := ImportAll(Start(first.value.draft), items, again, maxCategories, maxSites);
              second.Ok? && second.value.draft == first.value.draft
              && second.value.sitesCreated == 0 && second.value.categoriesCreated == 0
  {
    var r := ImportAll(Start(d), items, ids, maxCategories, maxSites);
    if r.Ok? {
      ImportedUrls(Start(d), items, ids, maxCategories, maxSites);
      forall i | 0 <= i < |items| && items[i].site.valid ensures items[i].site.url in Urls(r.value.draft) {
        assert items[i].site.url in ValidUrls(items);
      }
      AllPresent(r.value.draft, items, again, maxCategories, maxSites);
    }
  }

  lemma {:induction false} KeptIn(q: seq<Id>, keep: set<Id>)
    ensures forall x :: x in KeepIn(q, keep) <==> x in q && x in keep
  {
    if q != [] {
      assert q == [q[0]] + q[1..];
      KeptIn(q[1..], keep);
    }
  }

  /** Mode replace leaves the uncategorized category, empty, and no site at all; a
      merge begins from the draft as it is. */
  lemma BaseMeans(d: Draft)
    requires d.categories.Keys == d.lists.Keys
    ensures Base(d, false) == d
    ensures var b := Base(d, true);
            && b.sites == map[] && b.categories.Keys == b.lists.Keys
            && (forall c :: c in b.categories <==> c in d.categories && d.categories[c].uncategorized)
            && (forall c :: c in b.categories ==> b.categories[c] == d.categories[c] && b.lists[c] == [])
            && (forall c :: c in b.order <==> c in d.order && c in b.categories)
  {
    KeptIn(d.order, Indelible(d));
  }

  // ------------------------------------------------- one item, field by field

  /** Some listed category bears the name, whatever its case. */
  ghost predicate Bears(d: Draft, c: Id, name: string) {
    c in d.order && c in d.categories && FOLD(d.categories[c].name) == FOLD(Trim(name))
  }

  lemma {:induction false} NameMapKey(q: seq<Id>, infos: map<Id, CategoryInfo>, key: string)
    requires key in NameMap(q, infos)
    ensures NameMap(q, infos)[key] in infos && FOLD(infos[NameMap(q, infos)[key]].name) == key
  {
    var n := |q| - 1;
    if !(q[n] in infos && FOLD(infos[q[n]].name) == key) {
      NameMapKey(q[..n], infos, key);
    }
  }

  lemma NameBorne(d: Draft, name: string)
    ensures NameKey(name) in Names(d) ==> Bears(d, Names(d)[NameKey(name)], name)
    ensures NameKey(name) !in Names(d) ==> forall c :: !Bears(d, c, name)
  {
    NameMapIn(d.order, d.categories);
    if NameKey(name) in Names(d) {
      NameMapKey(d.order, d.categories, NameKey(name));
    }
  }

  ghost predicate HasUrl(d: Draft, url: string) {
    exists s :: s in d.sites && d.sites[s].url == url
  }

  /** An invalid item and one whose URL the draft has change nothing but a count. */
  lemma ItemPassed(t: Tally, item: Selected, ids: Fresh, maxCategories: nat, maxSites: nat)
    requires !item.site.valid || HasUrl(t.draft, item.site.url)
    ensures ImportItem(t, item, ids, maxCategories, maxSites)
            == Ok(if item.site.valid then t.(duplicates := t.duplicates + 1) else t.(invalid := t.invalid + 1))
  {}

  /** Any other item becomes one site, last in the list of a category of its name:
      one the draft has, or a new one at the end of the order; nothing else moves. */
  lemma ItemLands(t: Tally, item: Selected, ids: Fresh, maxCategories: nat, maxSites: nat) returns (c: Id)
    requires Coherent(t.draft) && ids.category !in t.draft.categories && ids.site !in t.draft.sites
    requires item.site.valid && !HasUrl(t.draft, item.site.url)
    ensures var known := exists k :: Bears(t.draft, k, item.categoryName);
            var r := ImportItem(t, item, ids, maxCategories, maxSites);
            && (known ==> Bears(t.draft, c, item.categoryName) && c in t.draft.lists) && (!known ==> c == ids.category)
            && (r.Ok? <==> |t.draft.sites| < maxSites && (known || |t.draft.categories| < maxCategories))
            && (r.Ok? ==>
                  var was, now := t.draft, r.value.draft;
                  && r.value == t.(draft := now, sitesCreated := t.sitesCreated + 1,
                         categoriesCreated := t.categoriesCreated + if known then 0 else 1)
                  && now.sites == was.sites[ids.site := SiteInfo(item.site.title, item.site.url, "", "",
                         item.site.enabled)]
                  && now.lists == was.lists[c := (if known then was.lists[c] else []) + [ids.site]]
                  && now.order == (if known then was.order else was.order + [c])
                  && now.categories == (if known then was.categories
                         else was.categories[c := CategoryInfo(Trim(item.categoryName), "", false,
                             item.categoryEnabled)]))
  {
    var known := NameKey(item.categoryName) in Names(t.draft);
    NameBorne(t.draft, item.categoryName);
    c := if known then Names(t.draft)[NameKey(item.categoryName)] else ids.category;
    if known {
      assert Bears(t.draft, c, item.categoryName);
    } else {
      NewNameFound(t.draft, ids.category, item);
    }
    hide Names, Trim;
    assert item.site.url !in Urls(t.draft);
  }

  lemma NewNameFound(d: Draft, c: Id, item: Selected)
    requires Coherent(d) && c !in d.categories
    ensures var e := AddCategory(d, c, NewCategory(item));
            NameKey(item.categoryName) in Names(e) && Names(e)[NameKey(item.categoryName)] == c
  {
    NamesAppend(d, c, NewCategory(item));
  }
}
