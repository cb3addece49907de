/** internal/dataexchange/export.go and parse.go: writing a page as a bookmark
    file and reading one back. */
module Bookmarks {
  import opened Prelude
  import opened Text
  import opened Markup
  import opened ImportPreview

  datatype PageCategory = PageCategory(id: Id, name: string, enabled: bool)

  datatype PageSite = PageSite(category: Id, title: string, url: string, enabled: bool)

  datatype Page = Page(title: string, categories: seq<PageCategory>, sites: seq<PageSite>)

  // ---------------------------------------------------------------- writing

  /** The enabled sites of a category, in page order. */
  function SitesOf(sites: seq<PageSite>, id: Id): seq<PageSite> {
    if sites == [] then []
    else
      var s := sites[|sites| - 1];
      SitesOf(sites[..|sites| - 1], id) + if s.enabled && s.category == id then [s] else []
  }

  const DOCTYPE: string := "<!DOCTYPE NETSCAPE-Bookmark-file-1>\n"
  const GENERATED: string := "<!-- Generated by nav.ax at "
  const META: string := "<META HTTP-EQUIV=\"Content-Type\""
  const CHARSET: string := " CONTENT=\"text/html; charset=UTF-8\">\n"

  function Opening(stamp: string): string {
    DOCTYPE + GENERATED + stamp + " -->\n" + META + CHARSET
  }

  function Titles(title: string): string {
    "<TITLE>" + Escape(title) + "</TITLE>\n<H1>" + Escape(title) + "</H1>"
  }

  function FolderLine(name: string): string {
    "    <DT><H3>" + Escape(name) + "</H3>"
  }

  function SiteLine(s: PageSite): string {
    "        <DT><A HREF=\"" + Escape(s.url) + "\">" + Escape(s.title) + "</A>"
  }

  function SiteLines(sites: seq<PageSite>): (ls: seq<string>)
    ensures |ls| == |sites|
  {
    seq(|sites|, i requires 0 <= i < |sites| => SiteLine(sites[i]))
  }

  function Block(name: string, sites: seq<PageSite>): seq<string> {
    [FolderLine(name), "    <DL><p>"] + SiteLines(sites) + ["    </DL><p>"]
  }

  /** The lines of the enabled categories that have an enabled site. */
  function Blocks(categories: seq<PageCategory>, sites: seq<PageSite>): seq<string> {
    if categories == [] then []
    else
      var c := categories[|categories| - 1];
      var q := SitesOf(sites, c.id);
      Blocks(categories[..|categories| - 1], sites) + if c.enabled && q != [] then Block(c.name, q) else []
  }

  function Body(page: Page): seq<string> {
    ["<DL><p>"] + Blocks(page.categories, page.sites) + ["</DL><p>"]
  }

  function Rendered(page: Page, stamp: string): string {
    Opening(stamp) + Titles(page.title) + "\n" + Join(Body(page))
  }

  lemma {:induction false} JoinConcat(a: seq<string>, b: seq<string>)
    ensures Join(a + b) == Join(a) + Join(b)
  {
    if a == [] {
      assert a + b == b;
    } else {
      assert (a + b)[1..] == a[1..] + b;
      JoinConcat(a[1..], b);
    }
  }

  method GroupByCategory(sites: seq<PageSite>) returns (byCategory: map<Id, seq<PageSite>>)
    ensures forall id :: SitesOf(sites, id) == if id in byCategory then byCategory[id] else []
  {
    byCategory := map[];
    for i := 0 to |sites|
      invariant forall id :: SitesOf(sites[..i], id) == if id in byCategory then byCategory[id] else []
    {
      assert sites[..i + 1][..i] == sites[..i];
      var site := sites[i];
      if site.enabled {
        byCategory := byCategory[site.category := (if site.category in byCategory then byCategory[site.category]
            else []) + [site]];
      }
    }
    assert sites[..|sites|] == sites;
  }

  method RenderBookmarks(page: Page, stamp: string) returns (output: string)
    ensures output == Rendered(page, stamp)
  {
    hide Escape, Opening, Titles, Join, Blocks, SitesOf, Block, OpeningText, ClosingText;
    var byCategory := GroupByCategory(page.sites);
    output := OpeningText(page.title, stamp);
    OpeningDone(page, stamp);
    for i := 0 to |page.categories|
      invariant output == Opened(page, stamp, i)
    {
      BlocksNext(page, stamp, i);
      var category := page.categories[i];
      if !category.enabled { continue; }
      var sites := if category.id in byCategory then byCategory[category.id] else [];
      if |sites| == 0 { continue; }
      var block := RenderBlock(category.name, sites);
      output := output + block;
    }
    ClosingDone(page, stamp);
    output := output + ClosingText();
  }

  /** Everything up to the first category. */
  function OpeningText(title: string, stamp: string): string {
    Opening(stamp) + "<TITLE>" + Escape(title) + "</TITLE>\n<H1>" + Escape(title) + "</H1>\n<DL><p>\n"
  }

  function ClosingText(): string {
    "</DL><p>\n"
  }

  /** The text after the first `i` categories. */
  function Opened(page: Page, stamp: string, i: nat): string
    requires i <= |page.categories|
  {
    Opening(stamp) + Titles(page.title) + "\n" + Join(["<DL><p>"] + Blocks(page.categories[..i], page.sites))
  }

  lemma OpeningDone(page: Page, stamp: string)
    ensures OpeningText(page.title, stamp) == Opened(page, stamp, 0)
  {
    hide Opening, Escape, Join;
    assert Blocks(page.categories[..0], page.sites) == [];
    assert ["<DL><p>"] + [] == [] + ["<DL><p>"];
    JoinOne([], "<DL><p>");
    NothingJoined();
    assert "</H1>\n<DL><p>\n" == "</H1>" + ("\n" + ("<DL><p>" + "\n"));
  }

  lemma NothingJoined()
    ensures Join([]) == ""
  {}

  lemma ClosingDone(page: Page, stamp: string)
    ensures Opened(page, stamp, |page.categories|) + ClosingText() == Rendered(page, stamp)
  {
    hide Opening, Titles, Join, Blocks;
    assert page.categories[..|page.categories|] == page.categories;
    JoinOne(["<DL><p>"] + Blocks(page.categories, page.sites), "</DL><p>");
    assert "</DL><p>" + "\n" == "</DL><p>\n";
  }

  lemma BlocksNext(page: Page, stamp: string, i: nat)
    requires i < |page.categories|
    ensures var c, q := page.categories[i], SitesOf(page.sites, page.categories[i].id);
            Opened(page, stamp, i + 1) == if c.enabled && q != [] then Opened(page, stamp, i) + Join(Block(c.name, q))
                else Opened(page, stamp, i)
  {
    hide Opening, Titles, Join, SitesOf, Block;
    var c, q := page.categories[i], SitesOf(page.sites, page.categories[i].id);
    var before := ["<DL><p>"] + Blocks(page.categories[..i], page.sites);
    assert page.categories[..i + 1][..i] == page.categories[..i];
    if c.enabled && q != [] {
      assert ["<DL><p>"] + Blocks(page.categories[..i + 1], page.sites) == before + Block(c.name, q);
      JoinConcat(before, Block(c.name, q));
    } else {
      assert Blocks(page.categories[..i + 1], page.sites) == Blocks(page.categories[..i], page.sites);
    }
  }

  method RenderBlock(name: string, sites: seq<PageSite>) returns (output: string)
    ensures output == Join(Block(name, sites))
  {
    hide Escape, Join, SiteLine, FolderLine;
    output := "    <DT><H3>" + Escape(name) + "</H3>\n    <DL><p>\n";
    BlockOpened(name);
    for k := 0 to |sites|
      invariant output == Join([FolderLine(name), "    <DL><p>"] + SiteLines(sites[..k]))
    {
      assert SiteLines(sites[..k + 1]) == SiteLines(sites[..k]) + [SiteLine(sites[k])];
      assert [FolderLine(name), "    <DL><p>"] + (SiteLines(sites[..k]) + [SiteLine(sites[k])])
          == [FolderLine(name), "    <DL><p>"] + SiteLines(sites[..k]) + [SiteLine(sites[k])];
      JoinOne([FolderLine(name), "    <DL><p>"] + SiteLines(sites[..k]), SiteLine(sites[k]));
      SiteWritten(sites[k]);
      output := output + ("        <DT><A HREF=\"" + Escape(sites[k].url) + "\">" + Escape(sites[k].title) + "</A>\n");
    }
    assert sites[..|sites|] == sites;
    JoinOne([FolderLine(name), "    <DL><p>"] + SiteLines(sites), "    </DL><p>");
    assert "    </DL><p>" + "\n" == "    </DL><p>\n";
    output := output + "    </DL><p>\n";
  }

  lemma JoinOne(ls: seq<string>, l: string)
    ensures Join(ls + [l]) == Join(ls) + (l + "\n")
  {
    JoinConcat(ls, [l]);
    assert Join([l]) == l + "\n" + "";
  }

  lemma BlockOpened(name: string)
    ensures "    <DT><H3>" + Escape(name) + "</H3>\n    <DL><p>\n"
            == Join([FolderLine(name), "    <DL><p>"] + SiteLines([]))
  {
    JoinOne([FolderLine(name)], "    <DL><p>");
    JoinOne([], FolderLine(name));
    assert [FolderLine(name), "    <DL><p>"] + SiteLines([]) == [FolderLine(name)] + ["    <DL><p>"];
    assert [] + [FolderLine(name)] == [FolderLine(name)];
    assert "</H3>\n    <DL><p>\n" == "</H3>" + "\n" + "    <DL><p>\n";
  }

  lemma SiteWritten(s: PageSite)
    ensures "        <DT><A HREF=\"" + Escape(s.url) + "\">" + Escape(s.title) + "</A>\n" == SiteLine(s) + "\n"
  {
    assert "</A>\n" == "</A>" + "\n";
  }

  // ---------------------------------------------------------------- reading

  /** How source ids are numbered. */
  datatype Labels = Labels(category: nat -> string, site: nat -> string)

  const UNCATEGORIZED: string := "未分类"

  datatype Reading = Reading(categories: seq<ParsedCategory>, folders: seq<string>, frames: seq<bool>, pending: string,
      sites: nat)

  const NOTHING: Reading := Reading([], [], [], "", 0)

  /** Which category a lower-cased name stands for. */
  function Indexed(categories: seq<ParsedCategory>): (m: map<string, nat>)
    ensures forall k :: k in m ==> m[k] < |categories|
  {
    if categories == [] then map[]
    else Indexed(categories[..|categories| - 1])[FOLD(categories[|categories| - 1].name) := |categories| - 1]
  }

  function CategoryName(name: string): string {
    if Trim(name) == "" then UNCATEGORIZED else Trim(name)
  }

  /** ensureCategory */
  function WithCategory(categories: seq<ParsedCategory>, name: string, labels: Labels): (seq<ParsedCategory>, nat) {
    var key := FOLD(CategoryName(name));
    if key in Indexed(categories) then (categories, Indexed(categories)[key])
    else (categories + [ParsedCategory((labels.category)(|categories| + 1), CategoryName(name), true, [])],
        |categories|)
  }

  function Folder(r: Reading): string {
    if r.folders == [] then UNCATEGORIZED else r.folders[|r.folders| - 1]
  }

  function AddAnchor(r: Reading, anchor: (string, string), labels: Labels, entity: Entities): Reading {
    match FindHref(anchor.0, false)
    case None => r
    case Some(raw) =>
      var (categories, index) := WithCategory(r.categories, Folder(r), labels);
      var site := ParsedSite((labels.site)(r.sites + 1), CleanText(anchor.1, entity), Unescape(Trim(raw), entity),
          false);
      r.(categories := if index < |categories|
          then categories[index := categories[index].(sites := categories[index].sites + [site])] else categories,
         sites := r.sites + 1)
  }

  function AddAnchors(r: Reading, anchors: seq<(string, string)>, labels: Labels, entity: Entities): Reading {
    if anchors == [] then r
    else AddAnchor(AddAnchors(r, anchors[..|anchors| - 1], labels, entity), anchors[|anchors| - 1], labels, entity)
  }

  /** `<DL`: the folder announced before it is entered, if there was one. */
  function Open(r: Reading): Reading {
    r.(folders := if r.pending != "" then r.folders + [r.pending]
        else r.folders, frames := r.frames + [r.pending != ""], pending := "")
  }

  /** `</DL>`: a folder is left only if this list had entered one. */
  function Close(r: Reading): Reading {
    if r.frames == [] then r
    else
      var n := |r.frames| - 1;
      r.(folders := if r.frames[n] && r.folders != [] then r.folders[..|r.folders| - 1]
          else r.folders, frames := r.frames[..n])
  }

  function Opens(r: Reading, n: nat): Reading {
    if n == 0 then r else Open(Opens(r, n - 1))
  }

  function Closes(r: Reading, n: nat): Reading {
    if n == 0 then r else Close(Closes(r, n - 1))
  }

  function Announce(r: Reading, line: string, entity: Entities): Reading {
    match FindH3(line)
    case None => r
    case Some(text) => r.(pending := CleanText(text, entity))
  }

  function ReadLine(r: Reading, line: string, labels: Labels, entity: Entities): Reading {
    var entered := Opens(Announce(r, line, entity), Count(line, "<dl"));
    Closes(AddAnchors(entered, FindAnchors(line), labels, entity), Count(line, "</dl>"))
  }

  function ReadLines(r: Reading, lines: seq<string>, labels: Labels, entity: Entities): Reading {
    if lines == [] then r
    else ReadLine(ReadLines(r, lines[..|lines| - 1], labels, entity), lines[|lines| - 1], labels, entity)
  }

  const SIGNATURE: string := "netscape-bookmark-file-1"

  function Parsed(content: string, labels: Labels, entity: Entities): Result<seq<ParsedCategory>, ()> {
    var r := ReadLines(NOTHING, Lines(Normalise(content)), labels, entity);
    if r.sites == 0 && Cut(content, SIGNATURE) == None then Err(()) else Ok(r.categories)
  }

  /** True frames and folders correspond, so leaving a folder never underflows. */
  function Trues(frames: seq<bool>): nat {
    if frames == [] then 0 else Trues(frames[..|frames| - 1]) + (if frames[|frames| - 1] then 1 else 0)
  }

  predicate Balanced(r: Reading) {
    |r.folders| == Trues(r.frames)
  }

  lemma {:induction false} OpensBalanced(r: Reading, n: nat)
    requires Balanced(r)
    ensures Balanced(Opens(r, n))
  {
    if n > 0 {
      OpensBalanced(r, n - 1);
      var s := Opens(r, n - 1);
      assert Open(s).frames[..|s.frames|] == s.frames;
    }
  }

  lemma {:induction false} ClosesBalanced(r: Reading, n: nat)
    requires Balanced(r)
    ensures Balanced(Closes(r, n))
  {
    if n > 0 {
      ClosesBalanced(r, n - 1);
    }
  }

  lemma {:induction false} AnchorsBalanced(r: Reading, anchors: seq<(string, string)>, labels: Labels, entity: Entities)
    requires Balanced(r)
    ensures Balanced(AddAnchors(r, anchors, labels, entity))
  {
    if anchors != [] {
      AnchorsBalanced(r, anchors[..|anchors| - 1], labels, entity);
    }
  }

  lemma ReadLineBalanced(r: Reading, line: string, labels: Labels, entity: Entities)
    requires Balanced(r)
    ensures Balanced(ReadLine(r, line, labels, entity))
  {
    var s := Announce(r, line, entity);
    OpensBalanced(s, Count(line, "<dl"));
    AnchorsBalanced(Opens(s, Count(line, "<dl")), FindAnchors(line), labels, entity);
    ClosesBalanced(AddAnchors(Opens(s, Count(line, "<dl")), FindAnchors(line), labels, entity), Count(line, "</dl>"));
  }

  lemma {:induction false} CountCut(s: string, pat: string)
    requires pat != ""
    ensures Count(s, pat) == if Cut(s, pat).None? then 0 else 1 + Count(Cut(s, pat).value.1, pat)
  {
    if !Front(s, pat) && s != "" {
      CountCut(s[1..], pat);
    }
  }

  /** parseBookmarksHTML with its stacks and its index of categories. */
  method ParseBookmarks(content: string, labels: Labels, entity: Entities)
    returns (result: Result<seq<ParsedCategory>, ()>)
    ensures result == Parsed(content, labels, entity)
  {
    hide Lower, Trim, Count, Cut, FindH3, FindAnchors, FindHref, CleanText, Unescape, Normalise, Lines, Indexed,
         CategoryName, ReadLine, Opens, Closes, AddAnchors, Balanced;
    var lines := Lines(Normalise(content));
    var categories: seq<ParsedCategory> := [];
    var categoryIndex: map<string, nat> := map[];
    var folders: seq<string> := [];
    var frames: seq<bool> := [];
    var pending := "";
    var siteNumber := 0;
    EmptyReading();
    for i := 0 to |lines|
      invariant Reading(categories, folders, frames, pending, siteNumber)
                == ReadLines(NOTHING, lines[..i], labels, entity)
      invariant categoryIndex == Indexed(categories)
      invariant Balanced(Reading(categories, folders, frames, pending, siteNumber))
    {
      var line := lines[i];
      ghost var before := Reading(categories, folders, frames, pending, siteNumber);
      assert lines[..i + 1][..i] == lines[..i];
      ReadLineBalanced(before, line, labels, entity);
      folders, frames, pending := EnterFolders(before, line, entity, folders, frames, pending);
      ghost var entered := Reading(categories, folders, frames, pending, siteNumber);
      categories, categoryIndex,
          siteNumber := CollectAnchors(entered, line, labels, entity, categories, categoryIndex, siteNumber, folders);
      ghost var collected := Reading(categories, folders, frames, pending, siteNumber);
      assert collected == AddAnchors(entered, FindAnchors(line), labels, entity);
      folders, frames := LeaveFolders(collected, line, folders, frames);
      LineRead(before, line, labels, entity);
    }
    assert lines[..|lines|] == lines;
    if siteNumber == 0 && Cut(content, SIGNATURE) == None {
      return Err(());
    }
    return Ok(categories);
  }

  lemma EmptyReading()
    ensures Indexed([]) == map[] && Balanced(NOTHING)
  {}

  lemma LineRead(r: Reading, line: string, labels: Labels, entity: Entities)
    ensures ReadLine(r, line, labels, entity)
            == Closes(AddAnchors(Opens(Announce(r, line, entity), Count(line, "<dl")), FindAnchors(line), labels,
                entity), Count(line, "</dl>"))
  {}

  /** The heading and the `<dl` scan of one line. */
  method EnterFolders(ghost r: Reading, line: string, entity: Entities, folders0: seq<string>, frames0: seq<bool>,
                      pending0: string)
    returns (folders: seq<string>, frames: seq<bool>, pending: string)
    requires r.folders == folders0 && r.frames == frames0 && r.pending == pending0
    ensures r.(folders := folders, frames := frames, pending := pending)
            == Opens(Announce(r, line, entity), Count(line, "<dl"))
  {
    hide Cut, FindH3, CleanText, Lower;
    folders, frames, pending := folders0, frames0, pending0;
    var heading := FindH3(line);
    if heading.Some? {
      pending := CleanText(heading.value, entity);
    }
    ghost var start := Announce(r, line, entity);
    var rest := line;
    ghost var n := 0;
    while Cut(rest, "<dl").Some?
      invariant r.(folders := folders, frames := frames, pending := pending) == Opens(start, n)
      invariant n + Count(rest, "<dl") == Count(line, "<dl")
      decreases |rest|
    {
      CountCut(rest, "<dl");
      CutShrinks(rest, "<dl");
      rest := Cut(rest, "<dl").value.1;
      var pushed := pending != "";
      if pushed {
        folders := folders + [pending];
        pending := "";
      }
      frames := frames + [pushed];
      n := n + 1;
    }
    CountCut(rest, "<dl");
  }

  method CollectAnchors(ghost r: Reading, line: string, labels: Labels, entity: Entities,
                        categories0: seq<ParsedCategory>, index0: map<string, nat>, sites0: nat, folders: seq<string>)
    returns (categories: seq<ParsedCategory>, categoryIndex: map<string, nat>, siteNumber: nat)
    requires r.categories == categories0 && r.sites == sites0 && r.folders == folders && index0 == Indexed(categories0)
    ensures r.(categories := categories, sites := siteNumber) == AddAnchors(r, FindAnchors(line), labels, entity)
    ensures categoryIndex == Indexed(categories)
  {
    hide Cut, FindAnchors, CleanText, Lower, FindHref, Unescape, Trim, Indexed, AddAnchors, AddAnchor, CategoryName;
    categories, categoryIndex, siteNumber := categories0, index0, sites0;
    var anchors := FindAnchors(line);
    NoAnchors(r, anchors, labels, entity);
    for k := 0 to |anchors|
      invariant r.(categories := categories, sites := siteNumber) == AddAnchors(r, anchors[..k], labels, entity)
      invariant categoryIndex == Indexed(categories)
    {
      ghost var before := r.(categories := categories, sites := siteNumber);
      AnchorsNext(r, anchors, k, labels, entity);
      var href := FindHref(anchors[k].0, false);
      if href.None? {
        NoLink(before, anchors[k], labels, entity);
        continue;
      }
      var name := CategoryName(if |folders| > 0 then folders[|folders| - 1] else UNCATEGORIZED);
      siteNumber := siteNumber + 1;
      var key := FOLD(name);
      var index := |categories|;
      if key in categoryIndex {
        index := categoryIndex[key];
      } else {
        IndexedAppend(categories, ParsedCategory((labels.category)(index + 1), name, true, []));
        categories := categories + [ParsedCategory((labels.category)(index + 1), name, true, [])];
        categoryIndex := categoryIndex[key := index];
      }
      var site := ParsedSite((labels.site)(siteNumber), CleanText(anchors[k].1, entity),
          Unescape(Trim(href.value), entity), false);
      IndexedRenamed(categories, index, categories[index].sites + [site]);
      Linked(before, anchors[k], href.value, labels, entity);
      categories := categories[index := categories[index].(sites := categories[index].sites + [site])];
    }
    assert anchors[..|anchors|] == anchors;
  }

  lemma NoAnchors(r: Reading, anchors: seq<(string, string)>, labels: Labels, entity: Entities)
    ensures AddAnchors(r, anchors[..0], labels, entity) == r
  {}

  lemma AnchorsNext(r: Reading, anchors: seq<(string, string)>, k: nat, labels: Labels, entity: Entities)
    requires k < |anchors|
    ensures AddAnchors(r, anchors[..k + 1], labels, entity)
            == AddAnchor(AddAnchors(r, anchors[..k], labels, entity), anchors[k], labels, entity)
  {
    hide AddAnchor;
    assert anchors[..k + 1][..k] == anchors[..k];
  }

  lemma NoLink(r: Reading, anchor: (string, string), labels: Labels, entity: Entities)
    requires FindHref(anchor.0, false).None?
    ensures AddAnchor(r, anchor, labels, entity) == r
  {
    hide FindHref;
  }

  /** A link adds its site to the category of the current folder, made if absent. */
  lemma Linked(r: Reading, anchor: (string, string), raw: string, labels: Labels, entity: Entities)
    requires FindHref(anchor.0, false) == Some(raw)
    ensures var name := CategoryName(Folder(r));
            var known := FOLD(name) in Indexed(r.categories);
            var categories := if known then r.categories
                else r.categories + [ParsedCategory((labels.category)(|r.categories| + 1), name, true, [])];
            var index := if known then Indexed(r.categories)[FOLD(name)] else |r.categories|;
            var site := ParsedSite((labels.site)(r.sites + 1), CleanText(anchor.1, entity), Unescape(Trim(raw), entity),
                false);
            && index < |categories|
            && AddAnchor(r, anchor, labels, entity)
               == r.(categories := categories[index := categories[index].(sites := categories[index].sites + [site])],
                   sites := r.sites + 1)
  {
    hide FindHref, CategoryName, Lower, Indexed, CleanText, Unescape, Trim;
  }

  lemma IndexedAppend(categories: seq<ParsedCategory>, c: ParsedCategory)
    ensures Indexed(categories + [c]) == Indexed(categories)[FOLD(c.name) := |categories|]
  {
    assert (categories + [c])[..|categories|] == categories;
  }

  lemma {:induction false} IndexedRenamed(categories: seq<ParsedCategory>, i: nat, sites: seq<ParsedSite>)
    requires i < |categories|
    ensures Indexed(categories[i := categories[i].(sites := sites)]) == Indexed(categories)
  {
    var n := |categories| - 1;
    var changed := categories[i := categories[i].(sites := sites)];
    if i < n {
      assert changed[..n] == categories[..n][i := categories[..n][i].(sites := sites)];
      IndexedRenamed(categories[..n], i, sites);
    } else {
      assert changed[..n] == categories[..n];
    }
  }

  method LeaveFolders(ghost r: Reading, line: string, folders0: seq<string>, frames0: seq<bool>)
    returns (folders: seq<string>, frames: seq<bool>)
    requires r.folders == folders0 && r.frames == frames0
    ensures r.(folders := folders, frames := frames) == Closes(r, Count(line, "</dl>"))
  {
    hide Count;
    folders, frames := folders0, frames0;
    var closeCount := Count(line, "</dl>");
    for n := 0 to closeCount
      invariant r.(folders := folders, frames := frames) == Closes(r, n)
    {
      if |frames| == 0 {
        NothingToClose(r, n, closeCount);
        break;
      }
      var last := |frames| - 1;
      if frames[last] && |folders| > 0 {
        folders := folders[..|folders| - 1];
      }
      frames := frames[..last];
    }
  }

  lemma {:induction false} NothingToClose(r: Reading, n: nat, m: nat)
    requires n <= m && Closes(r, n).frames == []
    ensures Closes(r, m) == Closes(r, n)
    decreases m
  {
    if n < m {
      NothingToClose(r, n, m - 1);
    }
  }
}
