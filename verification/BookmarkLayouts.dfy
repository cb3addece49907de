/** The parser scans each line for every link on it: where the line breaks of a
    bookmark file fall, inside a folder, does not matter. */
module BookmarkLayouts {
  import opened Prelude
  import opened Text
  import opened Markup
  import opened ImportPreview
  import opened Bookmarks
  import opened BookmarkRoundTrip

  /** Site lines written one after the other without newlines. */
  function Glued(sites: seq<PageSite>): string {
    if sites == [] then "" else SiteLine(sites[0]) + Glued(sites[1..])
  }

  function Anchors(sites: seq<PageSite>): (q: seq<(string, string)>)
    ensures |q| == |sites|
  {
    seq(|sites|, i requires 0 <= i < |sites| => (Attributes(sites[i]), Escape(sites[i].title)))
  }

  ghost predicate Tidy(sites: seq<PageSite>) {
    forall i :: 0 <= i < |sites| ==> Trimmed(sites[i].title) && Trimmed(sites[i].url)
  }

  lemma {:induction false} GluedTagged(sites: seq<PageSite>)
    ensures Tagged(SITE_TAGS, Glued(sites))
  {
    if sites != [] {
      hide Tagged, SiteLine;
      SiteTagged(sites[0]);
      GluedTagged(sites[1..]);
      TaggedConcat(SITE_TAGS, SiteLine(sites[0]), Glued(sites[1..]));
    } else {
      TaggedPlain(SITE_TAGS, "");
    }
  }

  /** All the links of a line are found, in order. */
  lemma {:induction false} GluedFound(sites: seq<PageSite>, after: string)
    ensures FindAnchors(Glued(sites) + after) == Anchors(sites) + FindAnchors(after)
  {
    hide FindAnchors, SiteLine, Attributes, Escape;
    if sites == [] {
      assert Glued(sites) + after == after && Anchors(sites) == [];
    } else {
      var rest := Glued(sites[1..]) + after;
      assert Glued(sites) + after == SiteLine(sites[0]) + rest;
      AnchorFirst(sites[0], rest);
      GluedFound(sites[1..], after);
      assert Anchors(sites) == [(Attributes(sites[0]), Escape(sites[0].title))] + Anchors(sites[1..]);
    }
  }

  lemma GluedCounts(sites: seq<PageSite>, after: string)
    ensures var line := Glued(sites) + after;
            && FindH3(line) == FindH3(after) && Count(line, "<dl") == Count(after, "<dl")
            && Count(line, "</dl>") == Count(after, "</dl>")
  {
    hide FindH3, FindAnchors, Count, Tagged, Glued;
    GluedTagged(sites);
    UnlikeAt(SITE_TAGS, "<h3", [1, 1, 1]);
    UnlikeAt(SITE_TAGS, "<dl", [2, 1, 1]);
    UnlikeAt(SITE_TAGS, "</dl>", [1, 1, 2]);
    SkipTagged(SITE_TAGS, Glued(sites), after);
  }

  /** Its links are added as the lines, one by one, add theirs. */
  lemma {:induction false} AnchorsRead(r: Reading, sites: seq<PageSite>, labels: Labels, entity: Entities)
    requires Standard(entity) && Tidy(sites)
    ensures AddAnchors(r, Anchors(sites), labels, entity) == ReadLines(r, SiteLines(sites), labels, entity)
  {
    hide Standard, AddAnchor, ReadLine, SiteLine, Attributes, Escape, Placed, Trimmed;
    if sites != [] {
      var n := |sites| - 1;
      AnchorsRead(r, sites[..n], labels, entity);
      assert Anchors(sites)[..n] == Anchors(sites[..n]) && SiteLines(sites)[..n] == SiteLines(sites[..n]);
      var s := AddAnchors(r, Anchors(sites[..n]), labels, entity);
      AnchorPlaced(s, sites[n], labels, entity);
      SiteLineRead(s, sites[n], labels, entity);
    }
  }

  /** Several site lines written on one line read as those sites in order. */
  lemma GluedRead(r: Reading, sites: seq<PageSite>, labels: Labels, entity: Entities)
    requires Standard(entity) && Tidy(sites)
    ensures ReadLine(r, Glued(sites), labels, entity) == ReadLines(r, SiteLines(sites), labels, entity)
  {
    hide Standard, FindH3, FindAnchors, Count, Glued, SiteLines, Anchors, AddAnchors, ReadLines, Tidy;
    assert Glued(sites) + "" == Glued(sites);
    GluedFound(sites, "");
    GluedCounts(sites, "");
    NothingFound();
    assert Anchors(sites) + [] == Anchors(sites);
    AnchorsRead(r, sites, labels, entity);
  }

  // -------------------------------------------------- a folder on one line

  /** A folder with its heading, its list and its links, all on one line. */
  function OneLine(name: string, sites: seq<PageSite>): string {
    FolderLine(name) + ("<DL><p>" + (Glued(sites) + "</DL><p>"))
  }

  lemma OneLineHead(name: string, after: string)
    ensures var line := FolderLine(name) + after;
            && FindAnchors(line) == FindAnchors(after) && Count(line, "<dl") == Count(after, "<dl")
            && Count(line, "</dl>") == Count(after, "</dl>")
  {
    hide FindH3, FindAnchors, Count, Tagged, FolderLine;
    FolderTagged(name);
    UnlikeAt(FOLDER_TAGS, "<a", [1, 1, 1]);
    UnlikeAt(FOLDER_TAGS, "<dl", [2, 1, 1]);
    UnlikeAt(FOLDER_TAGS, "</dl>", [1, 1, 2]);
    SkipTagged(FOLDER_TAGS, FolderLine(name), after);
  }

  lemma OneLineList(after: string)
    ensures var line := "<DL><p>" + after;
            && FindAnchors(line) == FindAnchors(after) && Count(line, "<dl") == 1 + Count(after, "<dl")
            && Count(line, "</dl>") == Count(after, "</dl>")
  {
    hide FindH3, FindAnchors, Count, Tagged, Front;
    var tags := ["<DL>", "<p>"];
    OpenTagged("");
    assert "" + "<DL><p>" == "<DL><p>";
    UnlikeAt(tags, "<a", [1, 1]);
    UnlikeAt(tags, "</dl>", [1, 1]);
    SkipTagged(tags, "<DL><p>", after);
    OpenTail();
    UnlikeAt(["<p>"], "<dl", [1]);
    SkipTagged(["<p>"], "><p>", after);
    ListFront(after);
    CountFront("<DL><p>" + after, "<dl");
  }

  lemma ListFront(after: string)
    ensures Front("<DL><p>" + after, "<dl") && ("<DL><p>" + after)[3..] == "><p>" + after
  {
    assert ("<DL><p>" + after)[..3] == "<DL" && Lower("<DL") == "<dl";
  }

  /** A folder on one line reads as its block: the heading before the list, the
      list before the links, the end after them. */
  lemma OneLineRead(r: Reading, name: string, sites: seq<PageSite>, labels: Labels, entity: Entities)
    requires Standard(entity) && Folded(name) && FOLD(name) !in Indexed(r.categories) && sites != [] && r.pending == ""
    requires Tidy(sites)
    ensures ReadLine(r, OneLine(name, sites), labels, entity) == ReadLines(r, Block(name, sites), labels, entity)
  {
    hide Standard, FindH3, FindAnchors, Count, Glued, SiteLines, Anchors, AddAnchors, ReadLines, FolderLine, Tidy,
         Indexed, CleanText, Escape, AddAnchor;
    var close := "</DL><p>";
    var links := Glued(sites) + close;
    var list := "<DL><p>" + links;
    FolderFirst(name, list);
    TextBack(name, entity);
    OneLineHead(name, list);
    OneLineList(links);
    GluedFound(sites, close);
    GluedCounts(sites, close);
    CloseCounted("");
    assert "" + close == close && Anchors(sites) + [] == Anchors(sites);
    var entered := Open(r.(pending := name));
    assert Opens(r.(pending := name), 1) == Open(Opens(r.(pending := name), 0));
    var s := AddAnchors(entered, Anchors(sites), labels, entity);
    assert Closes(s, 1) == Close(Closes(s, 0));
    AnchorsRead(entered, sites, labels, entity);
    BlockSteps(r, name, sites, labels, entity);
  }

  lemma BlockSteps(r: Reading, name: string, sites: seq<PageSite>, labels: Labels, entity: Entities)
    requires Standard(entity) && Trimmed(name)
    ensures ReadLines(r, Block(name, sites), labels, entity)
            == Close(ReadLines(Open(r.(pending := name)), SiteLines(sites), labels, entity))
  {
    hide Standard, ReadLine, ReadLines, FolderLine, SiteLines, Trimmed, Open, Close;
    var head := [FolderLine(name), "    <DL><p>"];
    ReadLinesConcat(r, head + SiteLines(sites), ["    </DL><p>"], labels, entity);
    ReadLinesConcat(r, head, SiteLines(sites), labels, entity);
    ReadLinesTwo(r, FolderLine(name), "    <DL><p>", labels, entity);
    FolderLineRead(r, name, labels, entity);
    assert "    " + "<DL><p>" == "    <DL><p>" && "    " + "</DL><p>" == "    </DL><p>";
    OpenLineRead(r.(pending := name), "    ", labels, entity);
    var s := ReadLines(Open(r.(pending := name)), SiteLines(sites), labels, entity);
    ReadLinesOne(s, "    </DL><p>", labels, entity);
    CloseLineRead(s, "    ", labels, entity);
  }

  // ------------------------------------------------------------- whole files

  /** How the sites of a folder are spread over lines. */
  type Layout = seq<PageSite> -> seq<seq<PageSite>>

  function Flattened(groups: seq<seq<PageSite>>): seq<PageSite> {
    if groups == [] then [] else Flattened(groups[..|groups| - 1]) + groups[|groups| - 1]
  }

  /** No site is left out, moved or repeated, and no line is empty. */
  ghost predicate Spreads(layout: Layout) {
    forall q :: Flattened(layout(q)) == q && [] !in layout(q)
  }

  function GluedLines(groups: seq<seq<PageSite>>): seq<string> {
    if groups == [] then [] else GluedLines(groups[..|groups| - 1]) + [Glued(groups[|groups| - 1])]
  }

  function LaidBlock(name: string, groups: seq<seq<PageSite>>): seq<string> {
    [FolderLine(name), "    <DL><p>"] + GluedLines(groups) + ["    </DL><p>"]
  }

  function LaidBlocks(categories: seq<PageCategory>, sites: seq<PageSite>, layout: Layout): seq<string> {
    if categories == [] then []
    else
      var c := categories[|categories| - 1];
      var q := SitesOf(sites, c.id);
      LaidBlocks(categories[..|categories| - 1], sites, layout)
      + if c.enabled && q != [] then LaidBlock(c.name, layout(q)) else []
  }

  /** The file of a page with its site lines spread otherwise. */
  function LaidOut(page: Page, stamp: string, layout: Layout): string {
    File(page.title, stamp, ["<DL><p>"] + LaidBlocks(page.categories, page.sites, layout) + ["</DL><p>"])
  }

  lemma {:induction false} GroupsRead(r: Reading, groups: seq<seq<PageSite>>, labels: Labels, entity: Entities)
    requires Standard(entity) && Tidy(Flattened(groups))
    ensures ReadLines(r, GluedLines(groups), labels, entity)
            == ReadLines(r, SiteLines(Flattened(groups)), labels, entity)
  {
    hide Standard, ReadLine, Glued, SiteLine, Trimmed;
    if groups != [] {
      var n := |groups| - 1;
      var front, last := Flattened(groups[..n]), groups[n];
      assert Tidy(front) && Tidy(last) by {
        assert forall i :: 0 <= i < |front| ==> front[i] == (front + last)[i];
        assert forall i :: 0 <= i < |last| ==> last[i] == (front + last)[|front| + i];
      }
      GroupsRead(r, groups[..n], labels, entity);
      GluedRead(ReadLines(r, SiteLines(front), labels, entity), last, labels, entity);
      assert SiteLines(front + last) == SiteLines(front) + SiteLines(last);
      ReadLinesConcat(r, SiteLines(front), SiteLines(last), labels, entity);
    }
  }

  lemma LaidBlockRead(r: Reading, name: string, groups: seq<seq<PageSite>>, labels: Labels, entity: Entities)
    requires Standard(entity) && Tidy(Flattened(groups))
    ensures ReadLines(r, LaidBlock(name, groups), labels, entity)
            == ReadLines(r, Block(name, Flattened(groups)), labels, entity)
  {
    hide Standard, ReadLine, ReadLines, FolderLine, SiteLines, GluedLines, Flattened, Tidy;
    var head := [FolderLine(name), "    <DL><p>"];
    GroupsRead(ReadLines(r, head, labels, entity), groups, labels, entity);
    SameInside(r, head, GluedLines(groups), SiteLines(Flattened(groups)), ["    </DL><p>"], labels, entity);
  }

  lemma {:induction false} LaidBlocksRead(r: Reading, categories: seq<PageCategory>, sites: seq<PageSite>,
                                          layout: Layout, labels: Labels, entity: Entities)
    requires Standard(entity) && GoodSites(sites) && Spreads(layout)
    ensures ReadLines(r, LaidBlocks(categories, sites, layout), labels, entity)
            == ReadLines(r, Blocks(categories, sites), labels, entity)
  {
    hide Standard, ReadLines, GoodSites, Block, LaidBlock, Tidy;
    if categories != [] {
      var n := |categories| - 1;
      var c, q := categories[n], SitesOf(sites, categories[n].id);
      LaidBlocksRead(r, categories[..n], sites, layout, labels, entity);
      if c.enabled && q != [] {
        GoodSitesOf(sites, c.id);
        TidyIs(q);
        assert Flattened(layout(q)) == q;
        ReadLinesConcat(r, Blocks(categories[..n], sites), Block(c.name, q), labels, entity);
        ReadLinesConcat(r, LaidBlocks(categories[..n], sites, layout), LaidBlock(c.name, layout(q)), labels, entity);
        LaidBlockRead(ReadLines(r, Blocks(categories[..n], sites), labels, entity), c.name, layout(q), labels, entity);
      } else {
        assert Blocks(categories, sites) == Blocks(categories[..n], sites) + [];
        assert LaidBlocks(categories, sites, layout) == LaidBlocks(categories[..n], sites, layout) + [];
        assert Blocks(categories[..n], sites) + [] == Blocks(categories[..n], sites);
        assert LaidBlocks(categories[..n], sites, layout) + [] == LaidBlocks(categories[..n], sites, layout);
      }
    }
  }

  lemma TidyIs(sites: seq<PageSite>)
    requires forall i :: 0 <= i < |sites| ==> Trimmed(sites[i].title) && Trimmed(sites[i].url)
    ensures Tidy(sites)
  {}

  predicate OneLined(sites: seq<PageSite>) {
    forall i :: 0 <= i < |sites| ==> '\n' !in sites[i].title && '\n' !in sites[i].url
  }

  lemma {:induction false} GluedSteady(sites: seq<PageSite>)
    requires OneLined(sites)
    ensures '\n' !in Glued(sites) && (sites != [] ==> Steady(Glued(sites)))
  {
    if sites != [] {
      hide SiteLine;
      SiteSteady(sites[0]);
      GluedSteady(sites[1..]);
      assert sites[1..] == [] ==> Glued(sites[1..]) == "";
    }
  }

  lemma {:induction false} GroupsSteady(groups: seq<seq<PageSite>>)
    requires OneLined(Flattened(groups)) && [] !in groups
    ensures forall i :: 0 <= i < |GluedLines(groups)| ==> Steady(GluedLines(groups)[i])
  {
    hide Steady, Glued;
    if groups != [] {
      var n := |groups| - 1;
      var front, last := Flattened(groups[..n]), groups[n];
      assert OneLined(front) && OneLined(last) by {
        assert forall i :: 0 <= i < |front| ==> front[i] == (front + last)[i];
        assert forall i :: 0 <= i < |last| ==> last[i] == (front + last)[|front| + i];
      }
      GroupsSteady(groups[..n]);
      GluedSteady(last);
    }
  }

  lemma {:induction false} LaidBlocksSteady(categories: seq<PageCategory>, sites: seq<PageSite>, layout: Layout)
    requires forall i :: 0 <= i < |categories| ==> '\n' !in categories[i].name
    requires OneLined(sites) && Spreads(layout)
    ensures forall i :: 0 <= i < |LaidBlocks(categories, sites, layout)|
             ==> Steady(LaidBlocks(categories, sites, layout)[i])
  {
    if categories != [] {
      hide Steady, FolderLine, GluedLines, Flattened;
      var c := categories[|categories| - 1];
      LaidBlocksSteady(categories[..|categories| - 1], sites, layout);
      SitesOfIn(sites, c.id);
      var q := SitesOf(sites, c.id);
      forall i | 0 <= i < |q| ensures '\n' !in q[i].title && '\n' !in q[i].url {
        assert q[i] in sites;
      }
      assert Flattened(layout(q)) == q;
      GroupsSteady(layout(q));
      FolderSteady(c.name);
      FixedSteady();
    }
  }

  /** Export then import, wherever the line breaks between the sites of a folder
      fall: all on one line, one a line, or anything between. */
  lemma LaidOutRoundTrip(page: Page, stamp: string, layout: Layout, labels: Labels, entity: Entities)
    requires Exportable(page) && Standard(entity) && '<' !in stamp && Spreads(layout)
    ensures Parsed(LaidOut(page, stamp, layout), labels, entity) == Ok(Expected(page.categories, page.sites, labels).0)
  {
    BodyRead(page, labels, entity);
    LaidBodyRead(page, layout, labels, entity);
    LaidBodySteady(page, layout);
    hide Exportable, Standard, Steady, LaidBlocks, ReadLines, Parsed, Body, Spreads;
    FileParsed(page.title, stamp, ["<DL><p>"] + LaidBlocks(page.categories, page.sites, layout) + ["</DL><p>"], labels,
        entity);
  }

  lemma LaidBodySteady(page: Page, layout: Layout)
    requires Exportable(page) && Spreads(layout)
    ensures var body := ["<DL><p>"] + LaidBlocks(page.categories, page.sites, layout) + ["</DL><p>"];
            forall i :: 0 <= i < |body| ==> Steady(body[i])
  {
    hide Steady, Trimmed, LaidBlocks, Spreads;
    FixedSteady();
    LaidBlocksSteady(page.categories, page.sites, layout);
  }

  lemma LaidBodyRead(page: Page, layout: Layout, labels: Labels, entity: Entities)
    requires Exportable(page) && Standard(entity) && Spreads(layout)
    ensures ReadLines(NOTHING, ["<DL><p>"] + LaidBlocks(page.categories, page.sites, layout) + ["</DL><p>"], labels,
                entity)
            == ReadLines(NOTHING, Body(page), labels, entity)
  {
    assert GoodSites(page.sites);
    hide Standard, ReadLines, LaidBlocks, Blocks, Exportable, Spreads, GoodSites;
    var open := ["<DL><p>"];
    LaidBlocksRead(ReadLines(NOTHING, open, labels, entity), page.categories, page.sites, layout, labels, entity);
    SameInside(NOTHING, open, LaidBlocks(page.categories, page.sites, layout), Blocks(page.categories, page.sites),
        ["</DL><p>"], labels, entity);
  }

  lemma SameInside(r: Reading, open: seq<string>, a: seq<string>, b: seq<string>, close: seq<string>, labels: Labels,
                   entity: Entities)
    requires var s := ReadLines(r, open, labels, entity);
             ReadLines(s, a, labels, entity) == ReadLines(s, b, labels, entity)
    ensures ReadLines(r, open + a + close, labels, entity) == ReadLines(r, open + b + close, labels, entity)
  {
    hide ReadLines;
    ReadLinesConcat(r, open + a, close, labels, entity);
    ReadLinesConcat(r, open, a, labels, entity);
    ReadLinesConcat(r, open + b, close, labels, entity);
    ReadLinesConcat(r, open, b, labels, entity);
  }
}
