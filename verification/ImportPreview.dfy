/** internal/dataexchange/service.go: buildPreview and selectSites, and why the
    preview's totals are what a commit of everything reports. */
module ImportPreview {
  import opened Prelude
  import opened Drafts
  import opened Text
  import opened ImportModel

  datatype ParsedSite = ParsedSite(sourceId: string, title: string, url: string, enabled: bool)

  datatype ParsedCategory = ParsedCategory(sourceId: string, name: string, enabled: bool, sites: seq<ParsedSite>)

  datatype ImportCategory = ImportCategory(sourceId: string, name: string, enabled: bool, truncated: bool,
      sites: seq<ImportSite>)

  datatype Totals = Totals(categories: nat, sites: nat, duplicates: nat, invalid: nat, truncated: nat)

  /** cleanHTTPURL and the hostname of its result. */
  datatype UrlRules = UrlRules(clean: string -> Option<string>, host: string -> string)

  const MAX_CATEGORY_NAME: nat := 60
  const MAX_SITE_TITLE: nat := 100

  function ClampRunes(value: string, max: nat): (r: (string, bool))
    requires max > 0
    ensures |r.0| <= max && r.0 <= value && (r.1 <==> r.0 != value)
  {
    if |value| <= max then (value, false) else (value[..max], true)
  }

  function NormalizeCategoryName(name: string): (r: (string, bool))
    ensures 0 < |r.0| <= MAX_CATEGORY_NAME
    ensures if Trim(name) != "" then r.0 <= Trim(name) else r.0 == "未分类"
    ensures r.1 <==> |Trim(name)| > MAX_CATEGORY_NAME
    ensures !r.1 && Trim(name) != "" ==> r.0 == Trim(name)
  {
    var trimmed := Trim(name);
    if trimmed == "" then ("未分类", false) else ClampRunes(trimmed, MAX_CATEGORY_NAME)
  }

  function NormalizeSiteTitle(title: string, url: string, rules: UrlRules): (r: (string, bool))
    ensures 0 < |r.0| <= MAX_SITE_TITLE
    ensures Trim(title) != "" ==> r.0 <= Trim(title) && (r.1 <==> |Trim(title)| > MAX_SITE_TITLE)
    ensures var host := Trim((rules.host)(url));
            Trim(title) == "" ==>
              && (r.1 <==> |host| > MAX_SITE_TITLE)
              && if host != "" then r.0 <= host else r.0 == "未命名站点"
    ensures !r.1 && Trim(title) != "" ==> r.0 == Trim(title)
  {
    var trimmed := Trim(title);
    var named := if trimmed == "" then Trim((rules.host)(url)) else trimmed;
    ClampRunes(if named == "" then "未命名站点" else named, MAX_SITE_TITLE)
  }

  /** A parsed site after repair, before duplicates are looked for. */
  function Repaired(site: ParsedSite, rules: UrlRules): ImportSite {
    var url := Trim(site.url);
    match (rules.clean)(url)
    case None => ImportSite(site.sourceId, Trim(site.title), url, false, false, false, site.enabled)
    case Some(cleaned) =>
      var (title, truncated) := NormalizeSiteTitle(Trim(site.title), cleaned, rules);
      ImportSite(site.sourceId, title, cleaned, false, true, truncated, site.enabled)
  }

  /** A site with an address that can be used is valid under the address as cleaned
      and its title, or the host's name; one without is kept as it is and invalid. */
  lemma RepairedMeans(site: ParsedSite, rules: UrlRules)
    ensures var r := Repaired(site, rules);
            && r.sourceId == site.sourceId && r.enabled == site.enabled && !r.duplicate
            && (r.valid <==> (rules.clean)(Trim(site.url)).Some?)
            && (!r.valid ==> r.url == Trim(site.url) && r.title == Trim(site.title) && !r.truncated)
            && (r.valid ==> r.url == (rules.clean)(Trim(site.url)).value && 0 < |r.title| <= 100
                            && (r.truncated ==> |r.title| == 100))
  {
    hide Trim;
  }

  /** The preview's sites in order, each with its category. */
  function Flat(categories: seq<ImportCategory>): seq<Selected> {
    if categories == [] then []
    else
      var n := |categories| - 1;
      Flat(categories[..n]) + Items(categories[n].name, categories[n].enabled, categories[n].sites)
  }

  function Items(name: string, enabled: bool, sites: seq<ImportSite>): (items: seq<Selected>)
    ensures |items| == |sites|
  {
    seq(|sites|, i requires 0 <= i < |sites| => Selected(name, enabled, sites[i]))
  }

  /** `duplicate` marks the valid sites whose URL is on the page or further up. */
  ghost predicate Judged(existing: set<string>, items: seq<Selected>) {
    forall k :: 0 <= k < |items| ==>
      (items[k].site.duplicate <==> items[k].site.valid && items[k].site.url in existing + ValidUrls(items[..k]))
  }

  /** Each output site is its input repaired, up to the duplicate mark. */
  ghost predicate RepairedSites(parsed: seq<ParsedSite>, sites: seq<ImportSite>, rules: UrlRules) {
    && |sites| == |parsed|
    && forall j :: 0 <= j < |sites| ==> sites[j].(duplicate := false) == Repaired(parsed[j], rules)
  }

  ghost predicate RepairedCategories(parsed: seq<ParsedCategory>, categories: seq<ImportCategory>, rules: UrlRules) {
    && |categories| == |parsed|
    && forall i :: 0 <= i < |categories| ==> RepairedCategory(parsed[i], categories[i], rules)
  }

  ghost predicate RepairedCategory(parsed: ParsedCategory, category: ImportCategory, rules: UrlRules) {
    && category.sourceId == parsed.sourceId && category.enabled == parsed.enabled
    && (category.name, category.truncated) == NormalizeCategoryName(parsed.name)
    && RepairedSites(parsed.sites, category.sites, rules)
  }

  function CountDuplicates(items: seq<Selected>): nat {
    if items == [] then 0
    else CountDuplicates(items[..|items| - 1]) + (if items[|items| - 1].site.duplicate then 1 else 0)
  }

  function CountInvalid(items: seq<Selected>): nat {
    if items == [] then 0 else CountInvalid(items[..|items| - 1]) + (if items[|items| - 1].site.valid then 0 else 1)
  }

  function CountTruncated(items: seq<Selected>): nat {
    if items == [] then 0
    else CountTruncated(items[..|items| - 1]) + (if items[|items| - 1].site.truncated then 1 else 0)
  }

  function TotalsOf(categories: nat, items: seq<Selected>): Totals {
    Totals(categories, |items|, CountDuplicates(items), CountInvalid(items), CountTruncated(items))
  }

  lemma CountAppend(items: seq<Selected>, item: Selected)
    ensures CountDuplicates(items + [item]) == CountDuplicates(items) + (if item.site.duplicate then 1 else 0)
    ensures CountInvalid(items + [item]) == CountInvalid(items) + (if item.site.valid then 0 else 1)
    ensures CountTruncated(items + [item]) == CountTruncated(items) + (if item.site.truncated then 1 else 0)
    ensures ValidUrls(items + [item]) == ValidUrls(items) + (if item.site.valid then {item.site.url} else {})
  {
    var all := items + [item];
    assert all[..|all| - 1] == items;
    ValidUrlsStep(all);
  }

  lemma JudgedAppend(existing: set<string>, items: seq<Selected>, item: Selected)
    requires Judged(existing, items)
    requires item.site.duplicate <==> item.site.valid && item.site.url in existing + ValidUrls(items)
    ensures Judged(existing, items + [item])
  {
    var all := items + [item];
    forall k | 0 <= k < |all|
      ensures all[k].site.duplicate <==> all[k].site.valid && all[k].site.url in existing + ValidUrls(all[..k])
    {
      if k < |items| {
        assert all[..k] == items[..k];
      } else {
        assert all[..k] == items;
      }
    }
  }

  /** What the preview loops know after the items so far. */
  ghost predicate Counted(existing: set<string>, categories: nat, items: seq<Selected>, seen: set<string>,
                          totals: Totals) {
    && Judged(existing, items)
    && seen == existing + ValidUrls(items)
    && totals == TotalsOf(categories, items)
  }

  /** The next item's contribution to the totals. */
  function Counting(totals: Totals, site: ImportSite): Totals {
    Totals(totals.categories, totals.sites + 1, totals.duplicates + (if site.duplicate then 1 else 0),
           totals.invalid + (if site.valid then 0 else 1), totals.truncated + (if site.truncated then 1 else 0))
  }

  lemma CountedAppend(existing: set<string>, categories: nat, items: seq<Selected>, seen: set<string>, totals: Totals,
                      item: Selected)
    requires Counted(existing, categories, items, seen, totals)
    requires item.site.duplicate <==> item.site.valid && item.site.url in seen
    ensures Counted(existing, categories, items + [item], if item.site.valid then seen + {item.site.url}
            else seen, Counting(totals, item.site))
  {
    hide Judged, ValidUrls, CountDuplicates, CountInvalid, CountTruncated;
    JudgedAppend(existing, items, item);
    CountAppend(items, item);
  }

  lemma ItemsAppend(name: string, enabled: bool, sites: seq<ImportSite>, site: ImportSite)
    ensures Items(name, enabled, sites + [site]) == Items(name, enabled, sites) + [Selected(name, enabled, site)]
  {}

  method BuildPreview(parsed: seq<ParsedCategory>, existing: set<string>, rules: UrlRules)
    returns (categories: seq<ImportCategory>, totals: Totals)
    ensures RepairedCategories(parsed, categories, rules)
    ensures Judged(existing, Flat(categories))
    ensures totals == TotalsOf(|parsed|, Flat(categories))
  {
    hide Counted, Judged, NormalizeCategoryName, NormalizeSiteTitle, Flat, TotalsOf, Trim, Items;
    categories := [];
    totals := Totals(|parsed|, 0, 0, 0, 0);
    var seen := existing;
    NothingSeen(existing, |parsed|);
    for i := 0 to |parsed|
      invariant RepairedCategories(parsed[..i], categories, rules)
      invariant Counted(existing, |parsed|, Flat(categories), seen, totals)
    {
      var source := parsed[i];
      var (name, truncated) := NormalizeCategoryName(source.name);
      var sites: seq<ImportSite> := [];
      ghost var before := Flat(categories);
      NoItemsYet(before, name, source.enabled);
      for k := 0 to |source.sites|
        invariant RepairedSites(source.sites[..k], sites, rules)
        invariant Counted(existing, |parsed|, before + Items(name, source.enabled, sites), seen, totals)
      {
        var sourceSite := source.sites[k];
        var site := ImportSite(sourceSite.sourceId, Trim(sourceSite.title), Trim(sourceSite.url), false, false, false,
            sourceSite.enabled);
        ghost var wasSeen, wasTotals := seen, totals;
        totals := totals.(sites := totals.sites + 1);
        match (rules.clean)(site.url) {
          case None => totals := totals.(invalid := totals.invalid + 1);
          case Some(cleaned) =>
            var (title, clamped) := NormalizeSiteTitle(site.title, cleaned, rules);
            site := site.(url := cleaned, title := title, truncated := clamped, valid := true);
            if clamped {
              totals := totals.(truncated := totals.truncated + 1);
            }
            if cleaned in seen {
              site := site.(duplicate := true);
              totals := totals.(duplicates := totals.duplicates + 1);
            } else {
              seen := seen + {cleaned};
            }
        }
        ghost var items := before + Items(name, source.enabled, sites);
        ghost var item := Selected(name, source.enabled, site);
        CountedAppend(existing, |parsed|, items, wasSeen, wasTotals, item);
        assert seen == if site.valid then wasSeen + {site.url} else wasSeen;
        ItemsAppend(name, source.enabled, sites, site);
        assert before + (Items(name, source.enabled, sites) + [item]) == items + [item];
        sites := sites + [site];
      }
      assert source.sites[..|source.sites|] == source.sites;
      FlatAppend(categories, ImportCategory(source.sourceId, name, source.enabled, truncated, sites));
      categories := categories + [ImportCategory(source.sourceId, name, source.enabled, truncated, sites)];
    }
    assert parsed[..|parsed|] == parsed;
    CountedAll(existing, |parsed|, Flat(categories), seen, totals);
  }

  lemma CountedAll(existing: set<string>, categories: nat, items: seq<Selected>, seen: set<string>, totals: Totals)
    requires Counted(existing, categories, items, seen, totals)
    ensures Judged(existing, items) && totals == TotalsOf(categories, items)
  {}

  lemma NothingSeen(existing: set<string>, categories: nat)
    ensures Counted(existing, categories, Flat([]), existing, Totals(categories, 0, 0, 0, 0))
  {}

  lemma NoItemsYet(before: seq<Selected>, name: string, enabled: bool)
    ensures before + Items(name, enabled, []) == before
  {}

  lemma FlatAppend(categories: seq<ImportCategory>, c: ImportCategory)
    ensures Flat(categories + [c]) == Flat(categories) + Items(c.name, c.enabled, c.sites)
  {
    assert (categories + [c])[..|categories|] == categories;
  }

  // ---------------------------------------------------------------- selection

  /** The item an id selects; when ids repeat the last one wins. */
  function ItemWith(items: seq<Selected>, id: string): Option<Selected> {
    if items == [] then None
    else if items[|items| - 1].site.sourceId == id then Some(items[|items| - 1])
    else ItemWith(items[..|items| - 1], id)
  }

  function Index(items: seq<Selected>): map<string, Selected> {
    if items == [] then map[]
    else Index(items[..|items| - 1])[items[|items| - 1].site.sourceId := items[|items| - 1]]
  }

  lemma {:induction false} IndexFinds(items: seq<Selected>, id: string)
    ensures ItemWith(items, id) == if id in Index(items) then Some(Index(items)[id]) else None
  {
    if items != [] {
      IndexFinds(items[..|items| - 1], id);
    }
  }

  ghost predicate Picked(items: seq<Selected>, ids: seq<string>, selected: seq<Selected>) {
    && |selected| == |ids|
    && forall i :: 0 <= i < |ids| ==> ItemWith(items, ids[i]) == Some(selected[i])
  }

  method SelectSites(categories: seq<ImportCategory>, ids: seq<string>) returns (r: Option<seq<Selected>>)
    ensures r.Some? ==> Picked(Flat(categories), ids, r.value)
    ensures r.None? ==> exists i :: 0 <= i < |ids| && ItemWith(Flat(categories), ids[i]) == None
  {
    hide Flat, Index, ItemWith;
    var available: map<string, Selected> := map[];
    NothingIndexed();
    for i := 0 to |categories|
      invariant available == Index(Flat(categories[..i]))
    {
      var c := categories[i];
      ghost var before := Flat(categories[..i]);
      assert before + Items(c.name, c.enabled, c.sites[..0]) == before;
      for k := 0 to |c.sites|
        invariant available == Index(before + Items(c.name, c.enabled, c.sites[..k]))
      {
        IndexAppend(before + Items(c.name, c.enabled, c.sites[..k]), Selected(c.name, c.enabled, c.sites[k]));
        assert before + Items(c.name, c.enabled, c.sites[..k + 1])
            == before + Items(c.name, c.enabled, c.sites[..k]) + [Selected(c.name, c.enabled, c.sites[k])];
        available := available[c.sites[k].sourceId := Selected(c.name, c.enabled, c.sites[k])];
      }
      assert c.sites[..|c.sites|] == c.sites;
      FlatAppend(categories[..i], c);
      assert categories[..i + 1] == categories[..i] + [c];
    }
    assert categories[..|categories|] == categories;
    var selected: seq<Selected> := [];
    for i := 0 to |ids|
      invariant Picked(Flat(categories), ids[..i], selected)
    {
      IndexFinds(Flat(categories), ids[i]);
      if ids[i] !in available {
        return None;
      }
      selected := selected + [available[ids[i]]];
    }
    assert ids[..|ids|] == ids;
    return Some(selected);
  }

  lemma NothingIndexed()
    ensures Flat([]) == [] && Index([]) == map[]
  {}

  lemma IndexAppend(items: seq<Selected>, item: Selected)
    ensures Index(items + [item]) == Index(items)[item.site.sourceId := item]
  {
    assert (items + [item])[..|items|] == items;
  }

  function SourceIds(items: seq<Selected>): (ids: seq<string>)
    ensures |ids| == |items|
  {
    seq(|items|, i requires 0 <= i < |items| => items[i].site.sourceId)
  }

  ghost predicate Distinct(ids: seq<string>) {
    forall i, j :: 0 <= i < j < |ids| ==> ids[i] != ids[j]
  }

  lemma {:induction false} DistinctFinds(items: seq<Selected>, k: nat)
    requires Distinct(SourceIds(items)) && k < |items|
    ensures ItemWith(items, items[k].site.sourceId) == Some(items[k])
  {
    var n := |items| - 1;
    if k < n {
      assert SourceIds(items)[k] != SourceIds(items)[n];
      assert SourceIds(items[..n]) == SourceIds(items)[..n];
      DistinctFinds(items[..n], k);
    }
  }

  /** With distinct ids, selecting them all in order selects the whole preview. */
  lemma SelectAll(items: seq<Selected>, selected: seq<Selected>)
    requires Distinct(SourceIds(items)) && Picked(items, SourceIds(items), selected)
    ensures selected == items
  {
    forall k | 0 <= k < |items| ensures selected[k] == items[k] {
      DistinctFinds(items, k);
    }
  }

  // ------------------------------------------------------ preview and commit

  /** Importing judged items reports exactly the marks counted by the preview. */
  lemma {:induction false} MarksPredict(d: Draft, items: seq<Selected>, ids: seq<Fresh>, maxCategories: nat,
                                        maxSites: nat)
    requires |ids| == |items| && Coherent(d) && FreshFor(d, ids) && Judged(Urls(d), items)
    ensures var r := ImportAll(Start(d), items, ids, maxCategories, maxSites);
            r.Ok? ==> r.value.duplicates == CountDuplicates(items) && r.value.invalid == CountInvalid(items)
  {
    hide ImportItem, ValidUrls, Urls, Coherent;
    if items != [] {
      var n := |items| - 1;
      var r := ImportAll(Start(d), items[..n], ids[..n], maxCategories, maxSites);
      JudgedPrefix(Urls(d), items);
      hide FreshFor, Judged;
      MarksPredict(d, items[..n], ids[..n], maxCategories, maxSites);
      if r.Ok? {
        ImportedUrls(Start(d), items[..n], ids[..n], maxCategories, maxSites);
        MarkStep(r.value, items[n], ids[n], maxCategories, maxSites);
      }
    }
  }

  lemma JudgedPrefix(existing: set<string>, items: seq<Selected>)
    requires Judged(existing, items) && items != []
    ensures var n := |items| - 1;
            Judged(existing, items[..n])
            && (items[n].site.duplicate
                <==> items[n].site.valid && items[n].site.url in existing + ValidUrls(items[..n]))
  {
    var n := |items| - 1;
    assert forall k :: 0 <= k < n ==> items[..n][..k] == items[..k];
  }

  lemma MarkStep(t: Tally, item: Selected, ids: Fresh, maxCategories: nat, maxSites: nat)
    requires item.site.duplicate <==> item.site.valid && item.site.url in Urls(t.draft)
    ensures var r := ImportItem(t, item, ids, maxCategories, maxSites);
            r.Ok? ==>
              && r.value.duplicates == t.duplicates + (if item.site.duplicate then 1 else 0)
              && r.value.invalid == t.invalid + (if item.site.valid then 0 else 1)
  {}

  /** Committing every previewed site in preview order, with the page's URLs as
      they were, gives the totals the preview showed. */
  lemma PreviewPredictsCommit(d: Draft, categories: seq<ImportCategory>, existing: set<string>, totals: Totals,
                              selected: seq<Selected>,
                              ids: seq<Fresh>, maxCategories: nat, maxSites: nat)
    requires Judged(existing, Flat(categories)) && totals == TotalsOf(|categories|, Flat(categories))
    requires Distinct(SourceIds(Flat(categories))) && Picked(Flat(categories), SourceIds(Flat(categories)), selected)
    requires Urls(d) == existing && Coherent(d) && |ids| == |selected| && FreshFor(d, ids)
    ensures var r := ImportAll(Start(d), selected, ids, maxCategories, maxSites);
            r.Ok? ==>
              && r.value.duplicates == totals.duplicates && r.value.invalid == totals.invalid
              && r.value.sitesCreated == totals.sites - totals.duplicates - totals.invalid
  {
    SelectAll(Flat(categories), selected);
    MarksPredict(d, selected, ids, maxCategories, maxSites);
    ImportOutcome(Start(d), selected, ids, maxCategories, maxSites);
  }
}
