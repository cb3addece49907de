/** Source ids stay distinct from the parsers through the preview, which is what
    makes "select everything" mean every site once. */
module ImportIds {
  import opened ImportPreview
  import opened Markup
  import B = Bookmarks
  import J = JsonImport

  predicate At(parsed: seq<ParsedCategory>, c: int, i: int) {
    0 <= c < |parsed| && 0 <= i < |parsed[c].sites|
  }

  function IdAt(parsed: seq<ParsedCategory>, c: int, i: int): string
    requires At(parsed, c, i)
  {
    parsed[c].sites[i].sourceId
  }

  /** No two sites bear one id. */
  ghost predicate DistinctSites(parsed: seq<ParsedCategory>) {
    forall c, i, d, j :: At(parsed, c, i) && At(parsed, d, j) && IdAt(parsed, c, i) == IdAt(parsed, d, j)
        ==> c == d && i == j
  }

  // --------------------------------------------------------------- the preview

  lemma {:induction false} FlatFrom(parsed: seq<ParsedCategory>, categories: seq<ImportCategory>, rules: UrlRules,
                                    k: nat)
    returns (c: nat, i: nat)
    requires RepairedCategories(parsed, categories, rules) && k < |Flat(categories)|
    ensures At(parsed, c, i) && Flat(categories)[k].site.sourceId == IdAt(parsed, c, i)
  {
    var n := |categories| - 1;
    assert RepairedCategory(parsed[n], categories[n], rules);
    if k < |Flat(categories[..n])| {
      c, i := FlatFrom(parsed[..n], categories[..n], rules, k);
    } else {
      c, i := n, k - |Flat(categories[..n])|;
      assert categories[n].sites[i].(duplicate := false) == Repaired(parsed[n].sites[i], rules);
    }
  }

  /** A preview of distinct sites has distinct ids. */
  lemma {:induction false} PreviewDistinct(parsed: seq<ParsedCategory>, categories: seq<ImportCategory>,
                                           rules: UrlRules)
    requires RepairedCategories(parsed, categories, rules) && DistinctSites(parsed)
    ensures Distinct(SourceIds(Flat(categories)))
  {
    if categories != [] {
      var n := |categories| - 1;
      var front := Flat(categories[..n]);
      PrefixDistinct(parsed, n);
      PreviewDistinct(parsed[..n], categories[..n], rules);
      var ids := SourceIds(Flat(categories));
      forall k, l | 0 <= k < l < |ids| ensures ids[k] != ids[l] {
        if l < |front| {
          assert SourceIds(front)[k] != SourceIds(front)[l];
        } else {
          LastSite(parsed, categories, rules, l);
          if k < |front| {
            var c, i := FlatFrom(parsed[..n], categories[..n], rules, k);
            assert IdAt(parsed, c, i) == ids[k] && At(parsed, c, i);
          } else {
            LastSite(parsed, categories, rules, k);
          }
        }
      }
    }
  }

  lemma PrefixDistinct(parsed: seq<ParsedCategory>, n: nat)
    requires DistinctSites(parsed) && n <= |parsed|
    ensures DistinctSites(parsed[..n])
  {
    forall c, i, d, j | At(parsed[..n], c, i) && At(parsed[..n], d, j)
        && IdAt(parsed[..n], c, i) == IdAt(parsed[..n], d, j)
      ensures c == d && i == j
    {
      assert At(parsed, c, i) && At(parsed, d, j) && IdAt(parsed, c, i) == IdAt(parsed, d, j);
    }
  }

  lemma LastSite(parsed: seq<ParsedCategory>, categories: seq<ImportCategory>, rules: UrlRules, k: nat)
    requires categories != [] && RepairedCategories(parsed, categories, rules)
    requires |Flat(categories[..|categories| - 1])| <= k < |Flat(categories)|
    ensures var n := |categories| - 1;
            var i := k - |Flat(categories[..n])|;
            At(parsed, n, i) && Flat(categories)[k].site.sourceId == IdAt(parsed, n, i)
  {
    var n := |categories| - 1;
    var i := k - |Flat(categories[..n])|;
    assert RepairedCategory(parsed[n], categories[n], rules);
    assert categories[n].sites[i].(duplicate := false) == Repaired(parsed[n].sites[i], rules);
  }

  // ------------------------------------------------------------- bookmark files

  ghost predicate Injective(number: nat -> string) {
    forall m: nat, n: nat :: number(m) == number(n) ==> m == n
  }

  predicate Numbered(id: string, number: nat -> string, n: nat) {
    exists m: nat :: 1 <= m <= n && id == number(m)
  }

  /** Every site has one of the numbers given out, and no number went out twice. */
  ghost predicate WellNumbered(r: B.Reading, labels: B.Labels) {
    && DistinctSites(r.categories)
    && forall c, i :: At(r.categories, c, i) ==> Numbered(IdAt(r.categories, c, i), labels.site, r.sites)
  }

  lemma AnchorNumbered(r: B.Reading, anchor: (string, string), labels: B.Labels, entity: Entities)
    requires WellNumbered(r, labels) && Injective(labels.site)
    ensures WellNumbered(B.AddAnchor(r, anchor, labels, entity), labels)
  {
    hide FindHref, B.Folder, Unescape, CleanText;
    var s := B.AddAnchor(r, anchor, labels, entity);
    if FindHref(anchor.0, false).Some? {
      var (categories, index) := B.WithCategory(r.categories, B.Folder(r), labels);
      hide B.WithCategory;
      SiteAppended(r.categories, categories, index, s.categories, labels.site, r.sites);
    }
  }

  /** One more site, at the end of category `index`, under the next number. */
  lemma SiteAppended(old0: seq<ParsedCategory>, mid: seq<ParsedCategory>, index: nat, new0: seq<ParsedCategory>,
                     number: nat -> string, n: nat)
    requires DistinctSites(old0) && Injective(number)
    requires forall c, i :: At(old0, c, i) ==> Numbered(IdAt(old0, c, i), number, n)
    requires mid == old0 || (|mid| == |old0| + 1 && mid[..|old0|] == old0 && mid[|old0|].sites == [])
    requires index < |mid|
    requires exists site: ParsedSite :: site.sourceId == number(n + 1)
               && new0 == mid[index := mid[index].(sites := mid[index].sites + [site])]
    ensures DistinctSites(new0) && forall c, i :: At(new0, c, i) ==> Numbered(IdAt(new0, c, i), number, n + 1)
  {
    var last := |mid[index].sites|;
    forall c, i | At(new0, c, i)
      ensures if c == index && i == last then IdAt(new0, c, i) == number(n + 1)
              else At(old0, c, i) && IdAt(old0, c, i) == IdAt(new0, c, i) && IdAt(new0, c, i) != number(n + 1)
      ensures Numbered(IdAt(new0, c, i), number, n + 1)
    {
      if c != index || i != last {
        assert At(mid, c, i) && IdAt(mid, c, i) == IdAt(new0, c, i);
        assert At(old0, c, i) && IdAt(old0, c, i) == IdAt(new0, c, i);
        var m: nat :| 1 <= m <= n && IdAt(old0, c, i) == number(m);
      }
    }
  }

  lemma {:induction false} AnchorsNumbered(r: B.Reading, anchors: seq<(string, string)>, labels: B.Labels,
                                           entity: Entities)
    requires WellNumbered(r, labels) && Injective(labels.site)
    ensures WellNumbered(B.AddAnchors(r, anchors, labels, entity), labels)
  {
    hide WellNumbered, B.AddAnchor;
    if anchors != [] {
      var n := |anchors| - 1;
      AnchorsNumbered(r, anchors[..n], labels, entity);
      AnchorNumbered(B.AddAnchors(r, anchors[..n], labels, entity), anchors[n], labels, entity);
    }
  }

  lemma {:induction false} OpensKeepSites(r: B.Reading, n: nat)
    ensures B.Opens(r, n).categories == r.categories && B.Opens(r, n).sites == r.sites
    ensures B.Closes(r, n).categories == r.categories && B.Closes(r, n).sites == r.sites
  {
    if n > 0 {
      OpensKeepSites(r, n - 1);
    }
  }

  lemma LineNumbered(r: B.Reading, line: string, labels: B.Labels, entity: Entities)
    requires WellNumbered(r, labels) && Injective(labels.site)
    ensures WellNumbered(B.ReadLine(r, line, labels, entity), labels)
  {
    hide Count, FindAnchors, CleanText, FindH3, B.Opens, B.Closes, B.AddAnchors;
    var announced := B.Announce(r, line, entity);
    var entered := B.Opens(announced, Count(line, "<dl"));
    OpensKeepSites(announced, Count(line, "<dl"));
    AnchorsNumbered(entered, FindAnchors(line), labels, entity);
    OpensKeepSites(B.AddAnchors(entered, FindAnchors(line), labels, entity), Count(line, "</dl>"));
  }

  lemma {:induction false} LinesNumbered(r: B.Reading, lines: seq<string>, labels: B.Labels, entity: Entities)
    requires WellNumbered(r, labels) && Injective(labels.site)
    ensures WellNumbered(B.ReadLines(r, lines, labels, entity), labels)
  {
    hide WellNumbered, B.ReadLine;
    if lines != [] {
      var n := |lines| - 1;
      LinesNumbered(r, lines[..n], labels, entity);
      LineNumbered(B.ReadLines(r, lines[..n], labels, entity), lines[n], labels, entity);
    }
  }

  /** Whatever a bookmark file contains, its sites come out with distinct ids. */
  lemma BookmarksDistinct(content: string, labels: B.Labels, entity: Entities)
    requires Injective(labels.site) && B.Parsed(content, labels, entity).Ok?
    ensures DistinctSites(B.Parsed(content, labels, entity).value)
  {
    hide B.ReadLines, Lines, Normalise, Cut;
    assert WellNumbered(B.NOTHING, labels);
    LinesNumbered(B.NOTHING, Lines(Normalise(content)), labels, entity);
  }

  // ------------------------------------------------------------------ JSON files

  /** Where the i-th site landed in category `c` stands in the file. */
  lemma {:induction false} LandedFrom(doc: J.Document, ids: seq<string>, c: nat, n: nat, i: nat) returns (k: nat)
    requires n <= |doc.sites| && n <= |ids| && i < |J.Landed(doc, ids, c, n)|
    ensures k < n && J.Landing(doc, doc.sites[k]) == c && J.Landed(doc, ids, c, n)[i].sourceId == ids[k]
    ensures i == |J.Landed(doc, ids, c, k)|
  {
    if i < |J.Landed(doc, ids, c, n - 1)| {
      k := LandedFrom(doc, ids, c, n - 1, i);
    } else {
      k := n - 1;
    }
  }

  /** Whatever a JSON export contains, its sites come out with distinct ids. */
  lemma JsonDistinct(doc: J.Document, ids: seq<string>, categories: seq<ParsedCategory>, extra: bool)
    requires J.Filed(doc, ids, |doc.sites|, categories, extra) && Distinct(ids)
    ensures DistinctSites(categories)
  {
    forall c, i, d, j | At(categories, c, i) && At(categories, d, j) && IdAt(categories, c, i) == IdAt(categories, d, j)
      ensures c == d && i == j
    {
      var k := LandedFrom(doc, ids, c, |doc.sites|, i);
      var l := LandedFrom(doc, ids, d, |doc.sites|, j);
      assert ids[k] == ids[l];
      assert k == l;
    }
  }
}
