/** internal/dataexchange/parse.go: reading a decoded nav.ax export. No site is
    lost or doubled, and source ids are made distinct. */
module JsonImport {
  import opened Prelude
  import opened Text
  import opened ImportPreview

  datatype SourceCategory = SourceCategory(id: string, name: string, enabled: Option<bool>)

  datatype SourceSite = SourceSite(id: string, category: string, title: string, url: string, enabled: Option<bool>)

  datatype Document = Document(format: string, version: int, categories: seq<SourceCategory>, sites: seq<SourceSite>)

  // -------------------------------------------------------------- source ids

  function Decimal(n: nat): (s: string)
    ensures s != ""
  {
    (if n < 10 then "" else Decimal(n / 10)) + [('0' as int + n % 10) as char]
  }

  function Value(s: string): nat {
    if s == "" then 0 else Value(s[..|s| - 1]) * 10 + (if '0' <= s[|s| - 1] then s[|s| - 1] as int - '0' as int else 0)
  }

  lemma ValueAppend(s: string, d: nat)
    requires d < 10
    ensures Value(s + [('0' as int + d) as char]) == Value(s) * 10 + d
  {
    var t := s + [('0' as int + d) as char];
    assert t[..|t| - 1] == s;
  }

  /** A number can be read back, so different numbers look different. */
  lemma {:induction false} DecimalValue(n: nat)
    ensures Value(Decimal(n)) == n
  {
    hide Value;
    if n < 10 {
      ValueAppend("", n);
      assert Value("") == 0 by { ValueEmpty(); }
    } else {
      DecimalValue(n / 10);
      ValueAppend(Decimal(n / 10), n % 10);
    }
  }

  lemma ValueEmpty()
    ensures Value("") == 0
  {}

  /** The k-th candidate: base, base-2, base-3, ... */
  function Candidate(base: string, k: nat): string {
    if k <= 1 then base else base + "-" + Decimal(k)
  }

  lemma CandidatesDiffer(base: string, j: nat, k: nat)
    requires 1 <= j < k
    ensures Candidate(base, j) != Candidate(base, k)
  {
    var b := base + "-" + Decimal(k);
    if j > 1 {
      DecimalValue(j);
      DecimalValue(k);
      var a := base + "-" + Decimal(j);
      assert a[|base| + 1..] == Decimal(j) && b[|base| + 1..] == Decimal(k);
    } else {
      assert |b| > |base|;
    }
  }

  function Tried(base: string, k: nat): (s: set<string>)
    requires k >= 1
  {
    set j | 1 <= j < k :: Candidate(base, j)
  }

  /** The candidates tried so far are as many as there are suffixes. */
  lemma {:induction false} TriedCount(base: string, k: nat)
    requires k >= 1
    ensures |Tried(base, k)| == k - 1
  {
    if k > 1 {
      TriedCount(base, k - 1);
      forall x ensures x in Tried(base, k) <==> x in Tried(base, k - 1) + {Candidate(base, k - 1)} {
        if x in Tried(base, k) {
          var j :| 1 <= j < k && Candidate(base, j) == x;
        }
      }
      if Candidate(base, k - 1) in Tried(base, k - 1) {
        var j :| 1 <= j < k - 1 && Candidate(base, j) == Candidate(base, k - 1);
        CandidatesDiffer(base, j, k - 1);
      }
      assert Tried(base, k) == Tried(base, k - 1) + {Candidate(base, k - 1)};
    } else {
      assert Tried(base, 1) == {};
    }
  }

  function Base(candidate: string, fallback: string): string {
    if Trim(candidate) == "" then fallback else Trim(candidate)
  }

  /** The first candidate not used yet. */
  ghost predicate FirstFree(base: string, used: set<string>, id: string) {
    exists k: nat ::
      && k >= 1 && id == Candidate(base, k) && id !in used
      && forall j :: 1 <= j < k ==> Candidate(base, j) in used
  }

  /** The suffix search: it ends because only the used ids can be in its way. */
  method UniqueSourceId(candidate: string, fallback: string, used: set<string>) returns (id: string, used': set<string>)
    ensures FirstFree(Base(candidate, fallback), used, id)
    ensures id !in used && used' == used + {id}
  {
    var base := Trim(candidate);
    if base == "" {
      base := fallback;
    }
    id := base;
    var suffix := 2;
    while id in used
      invariant suffix >= 2 && id == Candidate(base, suffix - 1)
      invariant forall j :: 1 <= j < suffix - 1 ==> Candidate(base, j) in used
      decreases |used| + 2 - suffix
    {
      assert Tried(base, suffix) <= used;
      TriedCount(base, suffix);
      SubsetSize(Tried(base, suffix), used);
      id := base + "-" + Decimal(suffix);
      suffix := suffix + 1;
    }
    used' := used + {id};
  }

  /** Ids handed out one after the other, each the first candidate of its base that
      was not handed out before. */
  ghost predicate Chosen(bases: seq<string>, ids: seq<string>) {
    |ids| <= |bases| && forall i :: 0 <= i < |ids| ==> FirstFree(bases[i], Handed(ids, i), ids[i])
  }

  function Handed(ids: seq<string>, n: nat): set<string>
    requires n <= |ids|
  {
    set i | 0 <= i < n :: ids[i]
  }

  lemma ChosenNext(bases: seq<string>, ids: seq<string>, used: set<string>, id: string)
    requires Chosen(bases, ids) && |ids| < |bases| && FirstFree(bases[|ids|], used, id)
    requires forall x :: x in used <==> x in ids
    ensures Chosen(bases, ids + [id])
  {
    hide FirstFree;
    var more := ids + [id];
    forall i | 0 <= i < |more| ensures FirstFree(bases[i], Handed(more, i), more[i]) {
      if i < |ids| {
        assert Handed(more, i) == Handed(ids, i);
      } else {
        assert Handed(more, i) == used by {
          forall x ensures x in Handed(more, i) <==> x in used {
            if x in ids {
              var k :| 0 <= k < |ids| && ids[k] == x;
              assert more[k] == x;
            }
          }
        }
      }
    }
  }

  /** Ids that are distinct in the file are kept as they are. */
  lemma {:induction false} DistinctKept(bases: seq<string>, ids: seq<string>, n: nat)
    requires Chosen(bases, ids) && n <= |ids| && Distinct(bases)
    ensures ids[..n] == bases[..n]
  {
    if n > 0 {
      DistinctKept(bases, ids, n - 1);
      var i := n - 1;
      forall x | x in Handed(ids, i) ensures x != bases[i] {
        var k :| 0 <= k < i && ids[k] == x;
        assert ids[..i][k] == bases[..i][k];
      }
      assert Candidate(bases[i], 1) == bases[i];
      assert ids[..n] == ids[..i] + [ids[i]] && bases[..n] == bases[..i] + [bases[i]];
    }
  }

  function SiteBases(doc: Document, siteLabel: nat -> string): (bases: seq<string>)
    ensures |bases| == |doc.sites|
  {
    seq(|doc.sites|, i requires 0 <= i < |doc.sites| => Base(doc.sites[i].id, siteLabel(i + 1)))
  }

  /** Those of the file's categories, then of the one for orphans. */
  function CategoryBases(doc: Document, categoryLabel: nat -> string): (bases: seq<string>)
    ensures |bases| == |doc.categories| + 1
  {
    seq(|doc.categories|, c requires 0 <= c < |doc.categories| => Base(doc.categories[c].id, categoryLabel(c + 1)))
    + ["uncategorized"]
  }

  lemma ExtraBase(fallback: string)
    ensures Base("uncategorized", fallback) == "uncategorized"
  {
    assert !IsSpace("uncategorized"[0]) && !IsSpace("uncategorized"[12]);
  }

  // ------------------------------------------------------------ conservation

  function Flag(enabled: Option<bool>): bool {
    if enabled == None then true else enabled.value
  }

  /** Where a category id leads: its last occurrence. */
  function Home(categories: seq<SourceCategory>, id: string): Option<nat> {
    if categories == [] then None
    else if categories[|categories| - 1].id == id then Some(|categories| - 1)
    else Home(categories[..|categories| - 1], id)
  }

  function ById(categories: seq<SourceCategory>): map<string, nat> {
    if categories == [] then map[]
    else ById(categories[..|categories| - 1])[categories[|categories| - 1].id := |categories| - 1]
  }

  lemma {:induction false} ByIdIsHome(categories: seq<SourceCategory>, id: string)
    ensures Home(categories, id) == if id in ById(categories) then Some(ById(categories)[id]) else None
    ensures id in ById(categories) ==> ById(categories)[id] < |categories|
  {
    if categories != [] {
      ByIdIsHome(categories[..|categories| - 1], id);
    }
  }

  /** The output category of a site; orphans share one extra category. */
  function Landing(doc: Document, site: SourceSite): nat {
    match Home(doc.categories, site.category)
    case None => |doc.categories|
    case Some(i) => i
  }

  predicate Orphan(doc: Document, site: SourceSite) {
    Home(doc.categories, site.category) == None
  }

  function Converted(site: SourceSite, id: string): ParsedSite {
    ParsedSite(id, Trim(site.title), Trim(site.url), Flag(site.enabled))
  }

  /** The sites among the first `n` that land in category `c`, in input order. */
  function Landed(doc: Document, ids: seq<string>, c: nat, n: nat): seq<ParsedSite>
    requires n <= |doc.sites| && n <= |ids|
  {
    if n == 0 then []
    else Landed(doc, ids, c, n - 1) + if Landing(doc, doc.sites[n - 1]) == c
        then [Converted(doc.sites[n - 1], ids[n - 1])] else []
  }

  function Total(categories: seq<ParsedCategory>): nat {
    if categories == [] then 0 else Total(categories[..|categories| - 1]) + |categories[|categories| - 1].sites|
  }

  /** What the first `n` sites have been made into. */
  ghost predicate Filed(doc: Document, ids: seq<string>, n: nat, categories: seq<ParsedCategory>, extra: bool) {
    && n <= |doc.sites| && n <= |ids|
    && |categories| == |doc.categories| + (if extra then 1 else 0)
    && (forall c :: 0 <= c < |categories| ==> categories[c].sites == Landed(doc, ids, c, n))
    && (extra <==> exists i :: 0 <= i < n && Orphan(doc, doc.sites[i]))
  }

  /** Categories keep their text and order; the extra one comes last. */
  ghost predicate Headed(doc: Document, categories: seq<ParsedCategory>) {
    && |doc.categories| <= |categories| <= |doc.categories| + 1
    && (forall c :: 0 <= c < |doc.categories| ==>
          categories[c].name == Trim(doc.categories[c].name)
              && categories[c].enabled == Flag(doc.categories[c].enabled))
    && (|categories| > |doc.categories|
        ==> categories[|doc.categories|].name == "未分类" && categories[|doc.categories|].enabled)
  }

  function CategoryIds(categories: seq<ParsedCategory>): (ids: seq<string>)
    ensures |ids| == |categories|
  {
    seq(|categories|, i requires 0 <= i < |categories| => categories[i].sourceId)
  }

  lemma LandingBound(doc: Document, site: SourceSite)
    ensures Landing(doc, site) <= |doc.categories| && (Landing(doc, site) == |doc.categories| <==> Orphan(doc, site))
  {
    ByIdIsHome(doc.categories, site.category);
  }

  method ParseNavaxJson(doc: Document, categoryLabel: nat -> string, siteLabel: nat -> string)
    returns (r: Result<seq<ParsedCategory>, ()>, ghost ids: seq<string>)
    ensures r.Ok? <==> doc.format == "navax-export" && doc.version == 1
    ensures r.Ok? ==> |ids| == |doc.sites| && Distinct(ids) && Distinct(CategoryIds(r.value)) && Headed(doc, r.value)
    ensures r.Ok? ==> exists extra :: Filed(doc, ids, |doc.sites|, r.value, extra)
    ensures r.Ok? ==> Chosen(SiteBases(doc, siteLabel), ids)
    ensures r.Ok? ==> Chosen(CategoryBases(doc, categoryLabel), CategoryIds(r.value))
  {
    hide Landed, Home, ById, FirstFree, Trim, Chosen, Base, Headed, Filed, Landing, Converted;
    ids := [];
    if doc.format != "navax-export" || doc.version != 1 { return Err(()), ids; }
    var categories, byId, usedCategoryIds := ReadCategories(doc, categoryLabel);
    var extra := false;
    var usedSiteIds: set<string> := {};
    NothingFiled(doc, categories);
    NothingChosen(SiteBases(doc, siteLabel));
    ghost var bases := CategoryBases(doc, categoryLabel);
    for index := 0 to |doc.sites|
      invariant Filed(doc, ids, index, categories, extra) && Headed(doc, categories)
      invariant Chosen(SiteBases(doc, siteLabel), ids) && Chosen(bases, CategoryIds(categories))
      invariant |categories| == |doc.categories| + (if extra then 1 else 0)
      invariant |ids| == index && Distinct(ids) && forall x :: x in usedSiteIds <==> x in ids
      invariant Distinct(CategoryIds(categories)) && forall x :: x in usedCategoryIds <==> x in CategoryIds(categories)
    {
      var source := doc.sites[index];
      ByIdIsHome(doc.categories, source.category);
      ghost var before, was := extra, categories;
      var target := |doc.categories|;
      if source.category in byId {
        target := byId[source.category];
      } else if !extra {
        var id, used := UniqueSourceId("uncategorized", categoryLabel(|categories| + 1), usedCategoryIds);
        ExtraCategory(doc, ids, index, categories, id, usedCategoryIds);
        ExtraBase(categoryLabel(|categories| + 1));
        ChosenNext(bases, CategoryIds(categories), usedCategoryIds, id);
        categories := categories + [ParsedCategory(id, "未分类", true, [])];
        usedCategoryIds := used;
        extra := true;
      }
      var sourceId, used := UniqueSourceId(source.id, siteLabel(index + 1), usedSiteIds);
      ChosenNext(SiteBases(doc, siteLabel), ids, usedSiteIds, sourceId);
      usedSiteIds := used;
      FiledParts(doc, ids, index, was, before);
      LandingIs(doc, source, target);
      SiteFiled(doc, ids, index, categories, before, extra, target, sourceId);
      ids := ids + [sourceId];
      categories := categories[target := categories[target].(sites := categories[target].sites
          + [Converted(source, sourceId)])];
    }
    return Ok(categories), ids;
  }

  lemma NothingChosen(bases: seq<string>)
    ensures Chosen(bases, [])
  {}

  lemma NothingFiled(doc: Document, categories: seq<ParsedCategory>)
    requires |categories| == |doc.categories| && forall c :: 0 <= c < |categories| ==> categories[c].sites == []
    ensures Filed(doc, [], 0, categories, false)
  {
    NothingLanded(doc);
  }

  lemma FiledParts(doc: Document, ids: seq<string>, n: nat, categories: seq<ParsedCategory>, extra: bool)
    requires Filed(doc, ids, n, categories, extra)
    ensures n <= |doc.sites| && n <= |ids| && |categories| == |doc.categories| + (if extra then 1 else 0)
    ensures forall c :: 0 <= c < |categories| ==> categories[c].sites == Landed(doc, ids, c, n)
    ensures extra <==> exists i :: 0 <= i < n && Orphan(doc, doc.sites[i])
  {}

  lemma LandingIs(doc: Document, site: SourceSite, target: nat)
    requires target == match Home(doc.categories, site.category) case None => |doc.categories| case Some(i) => i
    ensures Landing(doc, site) == target && (Orphan(doc, site) <==> Home(doc.categories, site.category) == None)
  {}

  method ReadCategories(doc: Document, categoryLabel: nat -> string)
    returns (categories: seq<ParsedCategory>, byId: map<string, nat>, used: set<string>)
    ensures |categories| == |doc.categories| && Headed(doc, categories) && byId == ById(doc.categories)
    ensures forall c :: 0 <= c < |categories| ==> categories[c].sites == []
    ensures Distinct(CategoryIds(categories)) && forall x :: x in used <==> x in CategoryIds(categories)
    ensures Chosen(CategoryBases(doc, categoryLabel), CategoryIds(categories))
  {
    hide Trim, FirstFree, Chosen, Base;
    categories, byId, used := [], map[], {};
    ghost var bases := CategoryBases(doc, categoryLabel);
    NothingChosen(bases);
    assert CategoryIds([]) == [];
    for index := 0 to |doc.categories|
      invariant Chosen(bases, CategoryIds(categories))
      invariant |categories| == index && byId == ById(doc.categories[..index])
      invariant forall c :: 0 <= c < index ==>
                  categories[c].name == Trim(doc.categories[c].name)
                      && categories[c].enabled == Flag(doc.categories[c].enabled) && categories[c].sites == []
      invariant Distinct(CategoryIds(categories)) && forall x :: x in used <==> x in CategoryIds(categories)
    {
      var source := doc.categories[index];
      assert doc.categories[..index + 1][..index] == doc.categories[..index];
      var sourceId, used' := UniqueSourceId(source.id, categoryLabel(index + 1), used);
      ChosenNext(bases, CategoryIds(categories), used, sourceId);
      ghost var was := categories;
      byId := byId[source.id := |categories|];
      categories := categories + [ParsedCategory(sourceId, Trim(source.name), Flag(source.enabled), [])];
      used := used';
      assert CategoryIds(categories) == CategoryIds(was) + [sourceId];
    }
    assert doc.categories[..|doc.categories|] == doc.categories;
  }

  lemma {:induction false} NothingFor(doc: Document, ids: seq<string>, c: nat, n: nat)
    requires n <= |doc.sites| && n <= |ids| && forall i :: 0 <= i < n ==> Landing(doc, doc.sites[i]) != c
    ensures Landed(doc, ids, c, n) == []
  {
    if n > 0 {
      NothingFor(doc, ids, c, n - 1);
    }
  }

  lemma NothingLanded(doc: Document)
    ensures forall c: nat :: Landed(doc, [], c, 0) == []
  {}

  /** Appending the category for orphans, of which none has been met yet. */
  lemma ExtraCategory(doc: Document, ids: seq<string>, n: nat, categories: seq<ParsedCategory>, id: string,
                      used: set<string>)
    requires Filed(doc, ids, n, categories, false) && Headed(doc, categories)
    requires Distinct(CategoryIds(categories)) && id !in used && forall x :: x in used <==> x in CategoryIds(categories)
    ensures var more := categories + [ParsedCategory(id, "未分类", true, [])];
            && Headed(doc, more) && Distinct(CategoryIds(more)) && CategoryIds(more) == CategoryIds(categories) + [id]
            && (forall c :: 0 <= c < |more| ==> more[c].sites == Landed(doc, ids, c, n))
  {
    hide Landed, Home, Trim;
    var more := categories + [ParsedCategory(id, "未分类", true, [])];
    assert CategoryIds(more) == CategoryIds(categories) + [id];
    forall i | 0 <= i < n ensures Landing(doc, doc.sites[i]) != |doc.categories| {
      LandingBound(doc, doc.sites[i]);
    }
    NothingFor(doc, ids, |doc.categories|, n);
  }

  lemma {:induction false} LandedFrame(doc: Document, ids: seq<string>, id: string, c: nat, n: nat)
    requires n <= |doc.sites| && n <= |ids|
    ensures Landed(doc, ids + [id], c, n) == Landed(doc, ids, c, n)
  {
    if n > 0 {
      LandedFrame(doc, ids, id, c, n - 1);
    }
  }

  /** Filing the next site at the end of its category. */
  lemma SiteFiled(doc: Document, ids: seq<string>, n: nat, categories: seq<ParsedCategory>, before: bool, extra: bool,
                  target: nat, id: string)
    requires n < |doc.sites| && |ids| == n && target == Landing(doc, doc.sites[n]) && target < |categories|
    requires |categories| == |doc.categories| + (if extra then 1 else 0)
    requires forall c :: 0 <= c < |categories| ==> categories[c].sites == Landed(doc, ids, c, n)
    requires before <==> exists i :: 0 <= i < n && Orphan(doc, doc.sites[i])
    requires extra <==> before || Orphan(doc, doc.sites[n])
    ensures var next := categories[target := categories[target].(sites := categories[target].sites
            + [Converted(doc.sites[n], id)])];
            && Filed(doc, ids + [id], n + 1, next, extra)
            && CategoryIds(next) == CategoryIds(categories)
            && (Headed(doc, categories) ==> Headed(doc, next))
  {
    hide Home, Trim;
    var next := categories[target := categories[target].(sites := categories[target].sites
        + [Converted(doc.sites[n], id)])];
    forall c | 0 <= c < |next| ensures next[c].sites == Landed(doc, ids + [id], c, n + 1) {
      LandedFrame(doc, ids, id, c, n);
    }
    assert CategoryIds(next) == CategoryIds(categories);
  }

  // ---------------------------------------------------------------- counting

  function Sizes(doc: Document, ids: seq<string>, n: nat, cs: nat): nat
    requires n <= |doc.sites| && n <= |ids|
  {
    if cs == 0 then 0 else Sizes(doc, ids, n, cs - 1) + |Landed(doc, ids, cs - 1, n)|
  }

  lemma {:induction false} SizesStep(doc: Document, ids: seq<string>, n: nat, cs: nat)
    requires 0 < n <= |doc.sites| && n <= |ids|
    ensures Sizes(doc, ids, n, cs) == Sizes(doc, ids, n - 1, cs) + if Landing(doc, doc.sites[n - 1]) < cs then 1 else 0
  {
    if cs > 0 {
      SizesStep(doc, ids, n, cs - 1);
    }
  }

  lemma {:induction false} SizesAll(doc: Document, ids: seq<string>, n: nat, cs: nat)
    requires n <= |doc.sites| && n <= |ids| && forall i :: 0 <= i < n ==> Landing(doc, doc.sites[i]) < cs
    ensures Sizes(doc, ids, n, cs) == n
  {
    if n > 0 {
      SizesStep(doc, ids, n, cs);
      SizesAll(doc, ids, n - 1, cs);
    } else {
      NoSizes(doc, ids, cs);
    }
  }

  lemma {:induction false} NoSizes(doc: Document, ids: seq<string>, cs: nat)
    ensures Sizes(doc, ids, 0, cs) == 0
  {
    if cs > 0 {
      NoSizes(doc, ids, cs - 1);
    }
  }

  lemma {:induction false} TotalIsSizes(doc: Document, ids: seq<string>, n: nat, categories: seq<ParsedCategory>)
    requires n <= |doc.sites| && n <= |ids|
    requires forall c :: 0 <= c < |categories| ==> categories[c].sites == Landed(doc, ids, c, n)
    ensures Total(categories) == Sizes(doc, ids, n, |categories|)
  {
    if categories != [] {
      TotalIsSizes(doc, ids, n, categories[..|categories| - 1]);
    }
  }

  /** As many sites come out as went in. */
  lemma SitesConserved(doc: Document, ids: seq<string>, categories: seq<ParsedCategory>, extra: bool)
    requires |ids| == |doc.sites| && Filed(doc, ids, |doc.sites|, categories, extra)
    ensures Total(categories) == |doc.sites|
  {
    forall i | 0 <= i < |doc.sites| ensures Landing(doc, doc.sites[i]) < |categories| {
      LandingBound(doc, doc.sites[i]);
    }
    TotalIsSizes(doc, ids, |doc.sites|, categories);
    SizesAll(doc, ids, |doc.sites|, |categories|);
  }

  /** Every input site is in the category it names, and in no other. */
  lemma {:induction false} SiteLandsOnce(doc: Document, ids: seq<string>, n: nat, i: nat, c: nat)
    requires i < n <= |doc.sites| && n <= |ids| && Distinct(ids)
    ensures Converted(doc.sites[i], ids[i]) in Landed(doc, ids, c, n) <==> Landing(doc, doc.sites[i]) == c
  {
    if i == n - 1 {
      NotEarlier(doc, ids, n - 1, i, c);
    } else {
      SiteLandsOnce(doc, ids, n - 1, i, c);
      assert ids[i] != ids[n - 1];
    }
  }

  lemma {:induction false} NotEarlier(doc: Document, ids: seq<string>, n: nat, i: nat, c: nat)
    requires n <= i < |doc.sites| && i < |ids| && Distinct(ids)
    ensures Converted(doc.sites[i], ids[i]) !in Landed(doc, ids, c, n)
  {
    if n > 0 {
      NotEarlier(doc, ids, n - 1, i, c);
      assert ids[n - 1] != ids[i];
    }
  }

  /** The categories whose id the site names. */
  ghost predicate Names(doc: Document, c: int, site: SourceSite) {
    0 <= c < |doc.categories| && doc.categories[c].id == site.category
  }

  lemma {:induction false} HomeIsLast(categories: seq<SourceCategory>, id: string)
    ensures match Home(categories, id)
            case None => forall c :: 0 <= c < |categories| ==> categories[c].id != id
            case Some(h) => h < |categories| && categories[h].id == id
                            && forall c :: h < c < |categories| ==> categories[c].id != id
  {
    if categories != [] {
      HomeIsLast(categories[..|categories| - 1], id);
    }
  }

  lemma {:induction false} LandedHolds(doc: Document, ids: seq<string>, n: nat, i: nat) returns (k: nat)
    requires i < n <= |doc.sites| && n <= |ids|
    ensures var sites := Landed(doc, ids, Landing(doc, doc.sites[i]), n);
            k < |sites| && sites[k] == Converted(doc.sites[i], ids[i])
  {
    var c := Landing(doc, doc.sites[i]);
    if i == n - 1 {
      k := |Landed(doc, ids, c, n - 1)|;
    } else {
      k := LandedHolds(doc, ids, n - 1, i);
    }
  }

  /** Where a site of the file is found again and as what: in the last category that
      has the id it names, otherwise in the one that comes last for all of those. */
  lemma SiteReads(doc: Document, ids: seq<string>, categories: seq<ParsedCategory>, extra: bool, i: nat)
    returns (c: nat, k: nat)
    requires |ids| == |doc.sites| && Filed(doc, ids, |doc.sites|, categories, extra) && i < |doc.sites|
    ensures c < |categories| && k < |categories[c].sites|
    ensures var source, site := doc.sites[i], categories[c].sites[k];
            && site.sourceId == ids[i] && site.title == Trim(source.title) && site.url == Trim(source.url)
            && (site.enabled <==> source.enabled != Some(false))
            && if exists d :: Names(doc, d, source)
               then Names(doc, c, source) && forall d :: d > c ==> !Names(doc, d, source)
               else c == |doc.categories|
  {
    hide Landed, Trim, Home;
    LandingBound(doc, doc.sites[i]);
    HomeIsLast(doc.categories, doc.sites[i].category);
    c := Landing(doc, doc.sites[i]);
    k := LandedHolds(doc, ids, |doc.sites|, i);
  }
}
