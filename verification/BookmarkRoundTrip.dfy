/** Reading back a written bookmark file gives the page's enabled, non-empty
    categories and their enabled sites: same order, same text. */
module BookmarkRoundTrip {
  import opened Prelude
  import opened Text
  import opened Markup
  import opened ImportPreview
  import opened Bookmarks

  /** What a page should come back as, and how many sites that is. */
  function Expected(categories: seq<PageCategory>, sites: seq<PageSite>, labels: Labels): (seq<ParsedCategory>, nat) {
    if categories == [] then ([], 0)
    else
      var c := categories[|categories| - 1];
      var q := SitesOf(sites, c.id);
      var before := Expected(categories[..|categories| - 1], sites, labels);
      if c.enabled && q != []
      then (before.0
          + [ParsedCategory((labels.category)(|before.0| + 1), c.name, true, ExpectedSites(q, before.1, labels))],
          before.1 + |q|)
      else before
  }

  function ExpectedSites(sites: seq<PageSite>, from: nat, labels: Labels): (q: seq<ParsedSite>)
    ensures |q| == |sites|
  {
    seq(|sites|, i requires 0 <= i < |sites| => ParsedSite((labels.site)(from + i + 1), sites[i].title, sites[i].url,
        false))
  }

  predicate Clean(s: string) {
    Trimmed(s) && '\n' !in s
  }

  /** Names and texts as the validators leave them. */
  ghost predicate Exportable(page: Page) {
    && (forall i :: 0 <= i < |page.categories| ==> Clean(page.categories[i].name) && page.categories[i].name != "")
    && (forall i :: 0 <= i < |page.sites| ==> Clean(page.sites[i].title) && Clean(page.sites[i].url))
    && (forall i, j :: 0 <= i < j < |page.categories|
         ==> FOLD(page.categories[i].name) != FOLD(page.categories[j].name))
  }

  // ---------------------------------------------------------- quiet lines

  /** A line that means nothing to the parser. */
  predicate Quiet(line: string) {
    FindH3(line) == None && FindAnchors(line) == [] && Count(line, "<dl") == 0 && Count(line, "</dl>") == 0
  }

  ghost predicate AllUnlike(tags: seq<string>) {
    Unlike(tags, "<h3") && Unlike(tags, "<a") && Unlike(tags, "<dl") && Unlike(tags, "</dl>")
  }

  lemma TaggedQuiet(tags: seq<string>, line: string)
    requires Tagged(tags, line) && AllUnlike(tags)
    ensures Quiet(line)
  {
    SkipTagged(tags, line, "");
    assert line + "" == line;
  }

  lemma {:induction false} QuietLines(r: Reading, lines: seq<string>, labels: Labels, entity: Entities)
    requires forall i :: 0 <= i < |lines| ==> Quiet(lines[i])
    ensures ReadLines(r, lines, labels, entity) == r
  {
    if lines != [] {
      hide Quiet, ReadLine;
      QuietLines(r, lines[..|lines| - 1], labels, entity);
    }
  }

  lemma {:induction false} ReadLinesConcat(r: Reading, a: seq<string>, b: seq<string>, labels: Labels, entity: Entities)
    ensures ReadLines(r, a + b, labels, entity) == ReadLines(ReadLines(r, a, labels, entity), b, labels, entity)
  {
    hide ReadLine;
    if b == [] {
      assert a + b == a;
    } else {
      var n := |b| - 1;
      ReadLinesConcat(r, a, b[..n], labels, entity);
      ReadMore(r, a + b[..n], b[n], labels, entity);
      assert a + b[..n] + [b[n]] == a + b;
    }
  }

  lemma ReadMore(r: Reading, lines: seq<string>, line: string, labels: Labels, entity: Entities)
    ensures ReadLines(r, lines + [line], labels, entity) == ReadLine(ReadLines(r, lines, labels, entity), line, labels,
        entity)
  {
    hide ReadLine;
    assert (lines + [line])[..|lines|] == lines;
  }

  // -------------------------------------------------- tags survive splitting

  ghost predicate Solid(tags: seq<string>) {
    forall k :: 0 <= k < |tags| ==> '\n' !in tags[k] && '\r' !in tags[k]
  }

  lemma {:induction false} FrontOfLine(tag: string, s: string)
    requires tag <= s && '\n' !in tag
    ensures tag <= Lines(s)[0]
  {
    if tag != "" {
      FrontOfLine(tag[1..], s[1..]);
    }
  }

  lemma {:induction false} FrontNormalised(tag: string, s: string)
    requires tag <= s && '\r' !in tag
    ensures tag <= Normalise(s)
  {
    if tag != "" {
      FrontNormalised(tag[1..], s[1..]);
    }
  }

  lemma {:induction false} TaggedLines(tags: seq<string>, s: string)
    requires Tagged(tags, s) && Solid(tags)
    ensures forall i :: 0 <= i < |Lines(s)| ==> Tagged(tags, Lines(s)[i])
  {
    if s != "" {
      TaggedLines(tags, s[1..]);
      if s[0] != '\n' {
        if s[0] == '<' {
          var k :| 0 <= k < |tags| && tags[k] <= s;
          FrontOfLine(tags[k], s);
        }
        TaggedCons(tags, s[0], Lines(s[1..])[0]);
      }
    }
  }

  lemma TaggedCons(tags: seq<string>, c: char, s: string)
    requires Tagged(tags, s) && (c == '<' ==> FrontTag(tags, [c] + s))
    ensures Tagged(tags, [c] + s)
  {
    forall i | 0 <= i < |[c] + s| && ([c] + s)[i] == '<' ensures FrontTag(tags, ([c] + s)[i..]) {
      if i == 0 {
        assert ([c] + s)[0..] == [c] + s;
      } else {
        assert ([c] + s)[i..] == s[i - 1..];
      }
    }
  }

  lemma {:induction false} TaggedNormalised(tags: seq<string>, s: string)
    requires Tagged(tags, s) && Solid(tags)
    ensures Tagged(tags, Normalise(s))
    decreases |s|
  {
    if s != "" {
      if |s| > 1 && s[0] == '\r' && s[1] == '\n' {
        assert s[1..][1..] == s[2..];
        TaggedNormalised(tags, s[2..]);
        TaggedCons(tags, '\n', Normalise(s[2..]));
      } else {
        TaggedNormalised(tags, s[1..]);
        if s[0] == '<' {
          var k :| 0 <= k < |tags| && tags[k] <= s;
          FrontNormalised(tags[k], s);
        }
        TaggedCons(tags, s[0], Normalise(s[1..]));
      }
    }
  }

  // ------------------------------------------------------- the opening lines

  const OPENING_TAGS: seq<string> := ["<!DOCTYPE", "<!-- ", "<META", "<TITLE>", "</TITLE>", "<H1>", "</H1>"]

  lemma UnlikeAt(tags: seq<string>, pat: string, at: seq<nat>)
    requires |at| == |tags|
    requires forall k :: 0 <= k < |tags|
              ==> at[k] < |tags[k]| && at[k] < |pat| && LowerChar(tags[k][at[k]]) != pat[at[k]]
    ensures Unlike(tags, pat)
  {
    forall k | 0 <= k < |tags| ensures Clash(tags[k], pat) {
      assert LowerChar(tags[k][at[k]]) != pat[at[k]];
    }
  }

  lemma OpeningUnlikeFolder()
    ensures Unlike(OPENING_TAGS, "<h3")
  {
    UnlikeAt(OPENING_TAGS, "<h3", [1, 1, 1, 1, 1, 2, 1]);
  }

  lemma OpeningUnlikeAnchor()
    ensures Unlike(OPENING_TAGS, "<a")
  {
    UnlikeAt(OPENING_TAGS, "<a", [1, 1, 1, 1, 1, 1, 1]);
  }

  lemma OpeningUnlikeOpen()
    ensures Unlike(OPENING_TAGS, "<dl")
  {
    UnlikeAt(OPENING_TAGS, "<dl", [1, 1, 1, 1, 1, 1, 1]);
  }

  lemma OpeningUnlikeClose()
    ensures Unlike(OPENING_TAGS, "</dl>")
  {
    UnlikeAt(OPENING_TAGS, "</dl>", [1, 1, 1, 1, 2, 1, 2]);
  }

  lemma OpeningPieces()
    ensures Tagged(OPENING_TAGS, DOCTYPE) && Tagged(OPENING_TAGS, GENERATED) && Tagged(OPENING_TAGS, " -->\n")
  {
    TaggedOne(OPENING_TAGS, DOCTYPE, 0);
    TaggedOne(OPENING_TAGS, GENERATED, 1);
    hide Tagged;
    TaggedPlain(OPENING_TAGS, " -->\n");
  }

  lemma MetaPieces()
    ensures Tagged(OPENING_TAGS, META) && Tagged(OPENING_TAGS, CHARSET)
  {
    TaggedOne(OPENING_TAGS, META, 2);
    hide Tagged;
    TaggedPlain(OPENING_TAGS, CHARSET);
  }

  lemma OpeningLines(stamp: string)
    requires '<' !in stamp
    ensures Tagged(OPENING_TAGS, Opening(stamp))
  {
    hide Tagged;
    var tags := OPENING_TAGS;
    OpeningPieces();
    MetaPieces();
    TaggedPlain(tags, stamp);
    TaggedConcat(tags, DOCTYPE, GENERATED);
    TaggedConcat(tags, DOCTYPE + GENERATED, stamp);
    TaggedConcat(tags, DOCTYPE + GENERATED + stamp, " -->\n");
    TaggedConcat(tags, DOCTYPE + GENERATED + stamp + " -->\n", META);
    TaggedConcat(tags, DOCTYPE + GENERATED + stamp + " -->\n" + META, CHARSET);
  }

  lemma TitleLines(title: string)
    ensures Tagged(OPENING_TAGS, Titles(title))
  {
    hide Tagged, Escape;
    var tags := OPENING_TAGS;
    EscapeClean(title);
    var e := Escape(title);
    TaggedOne(tags, "<TITLE>", 3);
    TaggedOne(tags, "</TITLE>", 4);
    TaggedPlain(tags, "\n");
    TaggedOne(tags, "<H1>", 5);
    TaggedOne(tags, "</H1>", 6);
    TaggedPlain(tags, e);
    TaggedConcat(tags, "<TITLE>", e);
    TaggedConcat(tags, "<TITLE>" + e, "</TITLE>");
    TaggedConcat(tags, "<TITLE>" + e + "</TITLE>", "\n");
    TaggedConcat(tags, "<TITLE>" + e + "</TITLE>" + "\n", "<H1>");
    TaggedConcat(tags, "<TITLE>" + e + "</TITLE>" + "\n" + "<H1>", e);
    TaggedConcat(tags, "<TITLE>" + e + "</TITLE>" + "\n" + "<H1>" + e, "</H1>");
    TitleParts(title);
  }

  lemma TitleParts(title: string)
    ensures Titles(title) == "<TITLE>" + Escape(title) + "</TITLE>" + "\n" + "<H1>" + Escape(title) + "</H1>"
  {
    assert "</TITLE>\n<H1>" == "</TITLE>" + "\n" + "<H1>";
  }

  /** Whatever the title says, no opening line means anything to the parser. */
  lemma OpeningQuiet(stamp: string, title: string)
    requires '<' !in stamp
    ensures var lines := Lines(Normalise(Opening(stamp) + Titles(title)));
            forall i :: 0 <= i < |lines| ==> Quiet(lines[i])
  {
    hide Tagged, Opening, Titles, Normalise, Lines, Quiet, Unlike;
    var s := Opening(stamp) + Titles(title);
    OpeningUnlikeFolder();
    OpeningUnlikeAnchor();
    OpeningUnlikeOpen();
    OpeningUnlikeClose();
    OpeningLines(stamp);
    TitleLines(title);
    TaggedConcat(OPENING_TAGS, Opening(stamp), Titles(title));
    TaggedNormalised(OPENING_TAGS, s);
    TaggedLines(OPENING_TAGS, Normalise(s));
    var lines := Lines(Normalise(s));
    forall i | 0 <= i < |lines| ensures Quiet(lines[i]) {
      TaggedQuiet(OPENING_TAGS, lines[i]);
    }
  }

  // ----------------------------------------------------------- the body lines

  lemma {:induction false} CutPlain(e: string, rest: string, pat: string)
    requires pat != "" && Front(rest, pat) && forall c :: c in e ==> LowerChar(c) != pat[0]
    ensures Cut(e + rest, pat) == Some((e, rest[|pat|..]))
  {
    if e == "" {
      assert e + rest == rest;
    } else {
      assert (e + rest)[1..] == e[1..] + rest;
      CutPlain(e[1..], rest, pat);
      assert !Front(e + rest, pat) by {
        assert |pat| <= |e + rest| ==> Lower((e + rest)[..|pat|])[0] == LowerChar(e[0]);
      }
      assert (e + rest)[0] == e[0] && [e[0]] + e[1..] == e;
    }
  }

  lemma NotLowered(s: string)
    requires forall c :: c in s ==> c != '<' && c != '>' && c != '"'
    ensures forall c :: c in s ==> LowerChar(c) != '<' && LowerChar(c) != '>' && LowerChar(c) != '"'
  {}

  lemma {:induction false} StripPlain(s: string)
    requires '<' !in s
    ensures StripTags(s) == s
  {
    if s != "" {
      StripPlain(s[1..]);
    }
  }

  /** Text comes back as it was written. */
  lemma TextBack(s: string, entity: Entities)
    requires Standard(entity) && Trimmed(s)
    ensures CleanText(Escape(s), entity) == s && Unescape(Trim(Escape(s)), entity) == s
  {
    hide Escape, Unescape, Standard;
    EscapeClean(s);
    StripPlain(Escape(s));
    UnescapeEscape(s, entity);
    EscapeTrimmed(s);
  }

  lemma FolderFound(name: string)
    ensures FindH3(FolderLine(name)) == Some(Escape(name))
  {
    FolderFirst(name, "");
    hide FindH3, FolderLine;
    assert FolderLine(name) + "" == FolderLine(name);
  }

  /** The heading of a folder line, whatever follows on the line. */
  lemma FolderFirst(name: string, after: string)
    ensures FindH3(FolderLine(name) + after) == Some(Escape(name))
  {
    hide Escape, FindH3, Element;
    var e := Escape(name);
    var rest := "<H3>" + e + "</H3>" + after;
    FolderSkipped(name, after);
    EscapeClean(name);
    FolderElement(e, after);
    assert rest[3..] == ">" + e + "</H3>" + after;
    assert rest[..3] == "<H3" && Lower("<H3") == "<h3";
    FindHere(rest, e);
  }

  lemma FolderSkipped(name: string, after: string)
    ensures FindH3(FolderLine(name) + after) == FindH3("<H3>" + Escape(name) + "</H3>" + after)
  {
    hide Escape, FindH3, Tagged;
    TaggedDt("    ");
    assert "    " + "<DT>" == "    <DT>";
    UnlikeAt(["<DT>"], "<h3", [1]);
    SkipTagged(["<DT>"], "    <DT>", "<H3>" + Escape(name) + "</H3>" + after);
    FolderParts(name, after);
  }

  lemma FolderParts(name: string, after: string)
    ensures FolderLine(name) + after == "    <DT>" + ("<H3>" + Escape(name) + "</H3>" + after)
  {
    hide Escape;
    assert "    <DT><H3>" == "    <DT>" + "<H3>";
  }

  lemma FolderElement(e: string, after: string)
    requires forall c :: c in e ==> c != '<' && c != '>' && c != '"'
    ensures Element(">" + e + "</H3>" + after, "</h3>") == Some(("", e, after))
  {
    assert "</H3>"[..5] == "</H3>" && Lower("</H3>") == "</h3>";
    ElementIs("", e, "</H3>", "</h3>", after);
    assert "" + ">" + e + "</H3>" + after == ">" + e + "</H3>" + after;
  }

  lemma ElementIs(attributes: string, text: string, end: string, close: string, after: string)
    requires forall c :: c in attributes ==> LowerChar(c) != '>'
    requires forall c :: c in text ==> c != '<' && c != '>' && c != '"'
    requires close != "" && close[0] == '<' && |end| == |close| && Front(end, close)
    ensures Element(attributes + ">" + text + end + after, close) == Some((attributes, text, after))
  {
    hide Cut;
    NotLowered(text);
    var rest := end + after;
    assert Front(rest, close) && rest[|close|..] == after by {
      assert rest[..|close|] == end;
    }
    var tail := ">" + text + rest;
    assert Front(tail, ">") by {
      assert tail[..1] == ">" && Lower(">") == ">";
    }
    CutPlain(attributes, tail, ">");
    assert tail[1..] == text + rest && attributes + tail == attributes + ">" + text + end + after;
    CutPlain(text, rest, close);
  }

  lemma FindHere(s: string, text: string)
    requires s != "" && Front(s, "<h3") && WordEnds(s[3..]) && Element(s[3..], "</h3>").Some?
             && Element(s[3..], "</h3>").value.1 == text
    ensures FindH3(s) == Some(text)
  {}

  lemma TaggedDt(indent: string)
    requires '<' !in indent
    ensures Tagged(["<DT>"], indent + "<DT>")
  {
    TaggedPlain(["<DT>"], indent);
    TaggedOne(["<DT>"], "<DT>", 0);
    TaggedConcat(["<DT>"], indent, "<DT>");
  }

  const FOLDER_TAGS: seq<string> := ["<DT>", "<H3>", "</H3>"]

  lemma FolderTagged(name: string)
    ensures Tagged(FOLDER_TAGS, FolderLine(name))
  {
    hide Tagged, Escape;
    var e := Escape(name);
    EscapeClean(name);
    TaggedPlain(FOLDER_TAGS, "    ");
    TaggedOne(FOLDER_TAGS, "<DT>", 0);
    TaggedOne(FOLDER_TAGS, "<H3>", 1);
    TaggedPlain(FOLDER_TAGS, e);
    TaggedOne(FOLDER_TAGS, "</H3>", 2);
    TaggedConcat(FOLDER_TAGS, "    ", "<DT>");
    TaggedConcat(FOLDER_TAGS, "    " + "<DT>", "<H3>");
    TaggedConcat(FOLDER_TAGS, "    " + "<DT>" + "<H3>", e);
    TaggedConcat(FOLDER_TAGS, "    " + "<DT>" + "<H3>" + e, "</H3>");
    assert "    <DT><H3>" == "    " + "<DT>" + "<H3>";
  }

  /** A folder line announces its folder and does nothing else. */
  lemma FolderLineRead(r: Reading, name: string, labels: Labels, entity: Entities)
    requires Standard(entity) && Trimmed(name)
    ensures ReadLine(r, FolderLine(name), labels, entity) == r.(pending := name)
  {
    hide Standard, CleanText, Escape, Tagged, FindH3, FindAnchors, Count;
    FolderFound(name);
    FolderTagged(name);
    TextBack(name, entity);
    UnlikeAt(FOLDER_TAGS, "<a", [1, 1, 1]);
    UnlikeAt(FOLDER_TAGS, "<dl", [2, 1, 1]);
    UnlikeAt(FOLDER_TAGS, "</dl>", [1, 1, 2]);
    var line := FolderLine(name);
    SkipTagged(FOLDER_TAGS, line, "");
    assert line + "" == line;
    NothingFound();
    assert AddAnchors(r.(pending := name), [], labels, entity) == r.(pending := name);
  }

  lemma NothingFound()
    ensures FindH3("") == None && FindAnchors("") == [] && Count("", "<dl") == 0 && Count("", "</dl>") == 0
  {}

  lemma CountFront(s: string, pat: string)
    requires pat != "" && Front(s, pat)
    ensures Count(s, pat) == 1 + Count(s[|pat|..], pat)
  {}

  lemma OpenTagged(indent: string)
    requires '<' !in indent
    ensures Tagged(["<DL>", "<p>"], indent + "<DL><p>")
  {
    hide Tagged;
    var tags := ["<DL>", "<p>"];
    TaggedPlain(tags, indent);
    TaggedOne(tags, "<DL>", 0);
    TaggedOne(tags, "<p>", 1);
    TaggedConcat(tags, "<DL>", "<p>");
    assert "<DL>" + "<p>" == "<DL><p>";
    TaggedConcat(tags, indent, "<DL><p>");
  }

  lemma OpenQuiet(indent: string)
    requires '<' !in indent
    ensures var line := indent + "<DL><p>"; FindH3(line) == None && FindAnchors(line) == [] && Count(line, "</dl>") == 0
  {
    hide Tagged, FindH3, FindAnchors, Count;
    var tags := ["<DL>", "<p>"];
    var line := indent + "<DL><p>";
    OpenTagged(indent);
    UnlikeAt(tags, "<h3", [1, 1]);
    UnlikeAt(tags, "<a", [1, 1]);
    UnlikeAt(tags, "</dl>", [1, 1]);
    SkipTagged(tags, line, "");
    assert line + "" == line;
    NothingFound();
  }

  lemma OpenOnce()
    ensures Count("<DL><p>", "<dl") == 1
  {
    hide Count, Front;
    OpenTailQuiet();
    OpenFront();
    CountFront("<DL><p>", "<dl");
  }

  lemma OpenFront()
    ensures Front("<DL><p>", "<dl") && "<DL><p>"[3..] == "><p>"
  {
    assert "<DL><p>"[..3] == "<DL" && Lower("<DL") == "<dl";
  }

  lemma OpenTailQuiet()
    ensures Count("><p>", "<dl") == 0
  {
    hide Count, Tagged;
    OpenTail();
    UnlikeAt(["<p>"], "<dl", [1]);
    SkipTagged(["<p>"], "><p>", "");
    assert "><p>" + "" == "><p>";
    NothingFound();
  }

  lemma OpenCounted(indent: string)
    requires '<' !in indent
    ensures var line := indent + "<DL><p>";
            FindH3(line) == None && FindAnchors(line) == [] && Count(line, "<dl") == 1 && Count(line, "</dl>") == 0
  {
    hide FindH3, FindAnchors, Count, Tagged;
    OpenQuiet(indent);
    OpenOnce();
    TaggedPlain([], indent);
    SkipTagged([], indent, "<DL><p>");
  }

  lemma OpenTail()
    ensures Tagged(["<p>"], "><p>")
  {
    TaggedPlain(["<p>"], ">");
    TaggedOne(["<p>"], "<p>", 0);
    TaggedConcat(["<p>"], ">", "<p>");
    assert ">" + "<p>" == "><p>";
  }

  lemma CloseTagged(indent: string)
    requires '<' !in indent
    ensures Tagged(["</DL>", "<p>"], indent + "</DL><p>")
  {
    hide Tagged;
    var tags := ["</DL>", "<p>"];
    TaggedPlain(tags, indent);
    TaggedOne(tags, "</DL>", 0);
    TaggedOne(tags, "<p>", 1);
    TaggedConcat(tags, "</DL>", "<p>");
    assert "</DL>" + "<p>" == "</DL><p>";
    TaggedConcat(tags, indent, "</DL><p>");
  }

  lemma CloseQuiet(indent: string)
    requires '<' !in indent
    ensures var line := indent + "</DL><p>"; FindH3(line) == None && FindAnchors(line) == [] && Count(line, "<dl") == 0
  {
    hide Tagged, FindH3, FindAnchors, Count;
    var tags := ["</DL>", "<p>"];
    var line := indent + "</DL><p>";
    CloseTagged(indent);
    UnlikeAt(tags, "<h3", [1, 1]);
    UnlikeAt(tags, "<a", [1, 1]);
    UnlikeAt(tags, "<dl", [1, 1]);
    SkipTagged(tags, line, "");
    assert line + "" == line;
    NothingFound();
  }

  lemma CloseOnce()
    ensures Count("</DL><p>", "</dl>") == 1
  {
    hide Count, Front;
    CloseTailQuiet();
    CloseFront();
    CountFront("</DL><p>", "</dl>");
  }

  lemma CloseFront()
    ensures Front("</DL><p>", "</dl>") && "</DL><p>"[5..] == "<p>"
  {
    assert "</DL><p>"[..5] == "</DL>" && Lower("</DL>") == "</dl>";
  }

  lemma CloseTailQuiet()
    ensures Count("<p>", "</dl>") == 0
  {
    hide Count, Tagged;
    CloseTail();
    UnlikeAt(["<p>"], "</dl>", [1]);
    SkipTagged(["<p>"], "<p>", "");
    assert "<p>" + "" == "<p>";
    NothingFound();
  }

  lemma CloseCounted(indent: string)
    requires '<' !in indent
    ensures var line := indent + "</DL><p>";
            FindH3(line) == None && FindAnchors(line) == [] && Count(line, "</dl>") == 1 && Count(line, "<dl") == 0
  {
    hide FindH3, FindAnchors, Count, Tagged;
    CloseQuiet(indent);
    CloseOnce();
    TaggedPlain([], indent);
    SkipTagged([], indent, "</DL><p>");
  }

  lemma CloseTail()
    ensures Tagged(["<p>"], "<p>")
  {
    TaggedOne(["<p>"], "<p>", 0);
  }

  lemma OpenLineRead(r: Reading, indent: string, labels: Labels, entity: Entities)
    requires '<' !in indent
    ensures ReadLine(r, indent + "<DL><p>", labels, entity) == Open(r)
  {
    OpenCounted(indent);
    hide FindH3, FindAnchors, Count;
    assert Opens(r, 1) == Open(Opens(r, 0));
  }

  lemma CloseLineRead(r: Reading, indent: string, labels: Labels, entity: Entities)
    requires '<' !in indent
    ensures ReadLine(r, indent + "</DL><p>", labels, entity) == Close(r)
  {
    CloseCounted(indent);
    hide FindH3, FindAnchors, Count;
    assert Closes(r, 1) == Close(Closes(r, 0));
  }

  // ------------------------------------------------------------- the site line

  function Attributes(s: PageSite): string {
    " HREF=\"" + Escape(s.url) + "\""
  }

  lemma HrefFound(s: PageSite)
    ensures FindHref(Attributes(s), false) == Some(Escape(s.url))
  {
    hide Escape;
    var u, a := Escape(s.url), Attributes(s);
    EscapeClean(s.url);
    NotLowered(u);
    CutPlain(u, "\"", "\"");
    assert "\""[1..] == "";
    var tail := "HREF=\"" + u + "\"";
    assert a[1..] == tail && a[0] == ' ';
    assert !Front(a, "href") by {
      assert Lower(a[..4])[0] == ' ';
    }
    assert FindHref(a, false) == FindHref(tail, false);
    assert Front(tail, "href") && tail[4..] == "=\"" + u + "\"";
    assert tail[4..][1..] == "\"" + (u + "\"");
    assert (tail[4..][1..])[1..] == u + "\"";
    ValueFound(tail[4..][1..], u);
  }

  lemma ValueFound(q: string, u: string)
    requires q != "" && q[0] == '"' && Cut(q[1..], "\"") == Some((u, ""))
    ensures Value(q) == Some(u) && SkipBlank(q) == q
  {}

  lemma AnchorFound(s: PageSite)
    ensures FindAnchors(SiteLine(s)) == [(Attributes(s), Escape(s.title))]
  {
    AnchorFirst(s, "");
    NothingFound();
    hide FindAnchors, SiteLine;
    assert SiteLine(s) + "" == SiteLine(s);
  }

  /** The link of a site line is found first, then those of what follows on the line. */
  lemma AnchorFirst(s: PageSite, after: string)
    ensures FindAnchors(SiteLine(s) + after) == [(Attributes(s), Escape(s.title))] + FindAnchors(after)
  {
    hide Escape, FindAnchors, Element, Attributes;
    var t := Escape(s.title);
    var rest := "<A" + Attributes(s) + ">" + t + "</A>" + after;
    AnchorSkipped(s, after);
    EscapeClean(s.title);
    AttributesPlain(s);
    assert Front("</A>", "</a>") by {
      assert "</A>"[..4] == "</A>" && Lower("</A>") == "</a>";
    }
    ElementIs(Attributes(s), t, "</A>", "</a>", after);
    assert rest[2..] == Attributes(s) + ">" + t + "</A>" + after;
    assert rest[..2] == "<A" && Lower("<A") == "<a";
    AnchorHere(rest, Attributes(s), t, after);
  }

  lemma AttributesPlain(s: PageSite)
    ensures Attributes(s) != "" && Attributes(s)[0] == ' ' && forall c :: c in Attributes(s) ==> LowerChar(c) != '>'
  {
    EscapeClean(s.url);
    NotLowered(Escape(s.url));
    hide Escape;
  }

  lemma AnchorSkipped(s: PageSite, after: string)
    ensures FindAnchors(SiteLine(s) + after)
            == FindAnchors("<A" + Attributes(s) + ">" + Escape(s.title) + "</A>" + after)
  {
    hide Escape, FindAnchors, Tagged;
    var rest := "<A" + Attributes(s) + ">" + Escape(s.title) + "</A>" + after;
    TaggedDt("        ");
    assert "        " + "<DT>" == "        <DT>";
    UnlikeAt(["<DT>"], "<a", [1]);
    SkipTagged(["<DT>"], "        <DT>", rest);
    SiteLineParts(s, after);
  }

  lemma SiteLineParts(s: PageSite, after: string)
    ensures SiteLine(s) + after == "        <DT>" + ("<A" + Attributes(s) + ">" + Escape(s.title) + "</A>" + after)
  {
    hide Escape;
    assert "        <DT><A HREF=\"" == "        <DT>" + "<A" + " HREF=\"";
    assert "\">" == "\"" + ">";
  }

  lemma AnchorHere(rest: string, attributes: string, text: string, after: string)
    requires rest != "" && Front(rest, "<a") && WordEnds(rest[2..])
    requires Element(rest[2..], "</a>") == Some((attributes, text, after))
    ensures FindAnchors(rest) == [(attributes, text)] + FindAnchors(after)
  {}

  const SITE_TAGS: seq<string> := ["<DT>", "<A HREF=", "</A>"]

  lemma SiteTagged(s: PageSite)
    ensures Tagged(SITE_TAGS, SiteLine(s))
  {
    hide Tagged, Escape;
    var u, t := Escape(s.url), Escape(s.title);
    EscapeClean(s.url);
    EscapeClean(s.title);
    TaggedPlain(SITE_TAGS, "        ");
    TaggedOne(SITE_TAGS, "<DT>", 0);
    TaggedOne(SITE_TAGS, "<A HREF=\"", 1);
    TaggedPlain(SITE_TAGS, u);
    TaggedPlain(SITE_TAGS, "\">");
    TaggedPlain(SITE_TAGS, t);
    TaggedOne(SITE_TAGS, "</A>", 2);
    TaggedConcat(SITE_TAGS, "        ", "<DT>");
    TaggedConcat(SITE_TAGS, "        " + "<DT>", "<A HREF=\"");
    TaggedConcat(SITE_TAGS, "        " + "<DT>" + "<A HREF=\"", u);
    TaggedConcat(SITE_TAGS, "        " + "<DT>" + "<A HREF=\"" + u, "\">");
    TaggedConcat(SITE_TAGS, "        " + "<DT>" + "<A HREF=\"" + u + "\">", t);
    TaggedConcat(SITE_TAGS, "        " + "<DT>" + "<A HREF=\"" + u + "\">" + t, "</A>");
    assert "        <DT><A HREF=\"" == "        " + "<DT>" + "<A HREF=\"";
  }

  lemma SiteLineCounts(s: PageSite)
    ensures FindH3(SiteLine(s)) == None && Count(SiteLine(s), "<dl") == 0 && Count(SiteLine(s), "</dl>") == 0
  {
    hide FindH3, FindAnchors, Count, Tagged, SiteLine;
    SiteTagged(s);
    UnlikeAt(SITE_TAGS, "<h3", [1, 1, 1]);
    UnlikeAt(SITE_TAGS, "<dl", [2, 1, 1]);
    UnlikeAt(SITE_TAGS, "</dl>", [1, 1, 2]);
    SkipTagged(SITE_TAGS, SiteLine(s), "");
    assert SiteLine(s) + "" == SiteLine(s);
    NothingFound();
  }

  /** The site as it comes back. */
  function Back(s: PageSite, number: nat, labels: Labels): ParsedSite {
    ParsedSite((labels.site)(number), s.title, s.url, false)
  }

  /** A reading with a site added to the category of the current folder. */
  function Placed(r: Reading, site: ParsedSite, labels: Labels): Reading {
    var (categories, index) := WithCategory(r.categories, Folder(r), labels);
    r.(categories := if index < |categories|
        then categories[index := categories[index].(sites := categories[index].sites + [site])] else categories,
       sites := r.sites + 1)
  }

  /** A written link is placed as the site it was. */
  lemma AnchorPlaced(r: Reading, s: PageSite, labels: Labels, entity: Entities)
    requires Standard(entity) && Trimmed(s.title) && Trimmed(s.url)
    ensures AddAnchor(r, (Attributes(s), Escape(s.title)), labels, entity)
            == Placed(r, Back(s, r.sites + 1, labels), labels)
  {
    hide Standard, CleanText, Escape, FindHref, Unescape, Attributes, Trim, WithCategory;
    HrefFound(s);
    TextBack(s.title, entity);
    TextBack(s.url, entity);
  }

  lemma SiteLineRead(r: Reading, s: PageSite, labels: Labels, entity: Entities)
    requires Standard(entity) && Trimmed(s.title) && Trimmed(s.url)
    ensures ReadLine(r, SiteLine(s), labels, entity) == Placed(r, Back(s, r.sites + 1, labels), labels)
  {
    hide Standard, Escape, FindH3, FindAnchors, Count, Attributes, SiteLine, Trim, AddAnchor, Placed;
    SiteLineCounts(s);
    AnchorFound(s);
    AnchorPlaced(r, s, labels, entity);
    var anchors := [(Attributes(s), Escape(s.title))];
    assert anchors[..0] == [];
    assert AddAnchors(r, anchors, labels, entity) == AddAnchor(r, anchors[0], labels, entity);
  }

  // ----------------------------------------------------------- whole blocks

  predicate Folded(name: string) {
    name != "" && Trimmed(name)
  }

  lemma FoldedName(name: string)
    requires Folded(name)
    ensures CategoryName(name) == name
  {}

  /** The reading inside folder `name` after its first `k` sites. */
  function Inside(r: Reading, name: string, q: seq<PageSite>, k: nat, labels: Labels): Reading
    requires k <= |q|
  {
    var entered := r.(folders := r.folders + [name], frames := r.frames + [true], pending := "");
    if k == 0 then entered
    else entered.(categories := r.categories
        + [ParsedCategory((labels.category)(|r.categories| + 1), name, true, ExpectedSites(q[..k], r.sites, labels))],
                  sites := r.sites + k)
  }

  lemma InsideNext(r: Reading, name: string, q: seq<PageSite>, k: nat, labels: Labels)
    requires k < |q| && Folded(name) && FOLD(name) !in Indexed(r.categories)
    ensures var s := Inside(r, name, q, k, labels);
            Inside(r, name, q, k + 1, labels) == Placed(s, Back(q[k], s.sites + 1, labels), labels)
  {
    hide Lower, Indexed, CategoryName;
    FoldedName(name);
    var s := Inside(r, name, q, k, labels);
    var c := ParsedCategory((labels.category)(|r.categories| + 1), name, true, ExpectedSites(q[..k], r.sites, labels));
    assert Folder(s) == name;
    IndexedAppend(r.categories, c);
    assert ExpectedSites(q[..k + 1], r.sites, labels)
        == ExpectedSites(q[..k], r.sites, labels) + [Back(q[k], r.sites + k + 1, labels)];
    if k == 0 {
      assert ExpectedSites(q[..0], r.sites, labels) == [];
    }
    assert (r.categories + [c])[|r.categories| := c.(sites := c.sites + [Back(q[k], r.sites + k + 1, labels)])]
        == r.categories + [c.(sites := c.sites + [Back(q[k], r.sites + k + 1, labels)])];
  }

  lemma {:induction false} SitesRead(r: Reading, name: string, q: seq<PageSite>, k: nat, labels: Labels,
                                     entity: Entities)
    requires Standard(entity) && Folded(name) && FOLD(name) !in Indexed(r.categories) && k <= |q|
    requires forall i :: 0 <= i < |q| ==> Trimmed(q[i].title) && Trimmed(q[i].url)
    ensures ReadLines(Inside(r, name, q, 0, labels), SiteLines(q[..k]), labels, entity) == Inside(r, name, q, k, labels)
  {
    hide Standard, Folded, Lower, Indexed, ReadLine, Inside, Placed, Trimmed, SiteLine;
    if k > 0 {
      SitesRead(r, name, q, k - 1, labels, entity);
      assert SiteLines(q[..k])[..k - 1] == SiteLines(q[..k - 1]);
      SiteLineRead(Inside(r, name, q, k - 1, labels), q[k - 1], labels, entity);
      InsideNext(r, name, q, k - 1, labels);
    }
  }

  lemma ReadLinesTwo(r: Reading, a: string, b: string, labels: Labels, entity: Entities)
    ensures ReadLines(r, [a, b], labels, entity) == ReadLine(ReadLine(r, a, labels, entity), b, labels, entity)
  {
    hide ReadLine;
    assert [a, b][..1] == [a] && [a][..0] == [];
    assert ReadLines(r, [a], labels, entity) == ReadLine(ReadLines(r, [], labels, entity), a, labels, entity);
  }

  lemma ReadLinesOne(r: Reading, a: string, labels: Labels, entity: Entities)
    ensures ReadLines(r, [a], labels, entity) == ReadLine(r, a, labels, entity)
  {
    assert [a][..0] == [];
  }

  /** A block adds one category with its sites and leaves the stacks as they were. */
  lemma BlockRead(r: Reading, name: string, q: seq<PageSite>, labels: Labels, entity: Entities)
    requires Standard(entity) && Folded(name) && FOLD(name) !in Indexed(r.categories) && q != [] && r.pending == ""
    requires forall i :: 0 <= i < |q| ==> Trimmed(q[i].title) && Trimmed(q[i].url)
    ensures ReadLines(r, Block(name, q), labels, entity)
            == r.(categories := r.categories
                + [ParsedCategory((labels.category)(|r.categories| + 1), name, true,
                ExpectedSites(q, r.sites, labels))],
                  sites := r.sites + |q|)
  {
    hide Standard, Lower, Indexed, ReadLine, Placed, Trimmed, SiteLine, FolderLine, ReadLines;
    var head := [FolderLine(name), "    <DL><p>"];
    ReadLinesConcat(r, head + SiteLines(q), ["    </DL><p>"], labels, entity);
    ReadLinesConcat(r, head, SiteLines(q), labels, entity);
    ReadLinesTwo(r, FolderLine(name), "    <DL><p>", labels, entity);
    FolderLineRead(r, name, labels, entity);
    assert "    " + "<DL><p>" == "    <DL><p>" && "    " + "</DL><p>" == "    </DL><p>";
    OpenLineRead(r.(pending := name), "    ", labels, entity);
    assert q[..|q|] == q;
    SitesRead(r, name, q, |q|, labels, entity);
    var s := Inside(r, name, q, |q|, labels);
    ReadLinesOne(s, "    </DL><p>", labels, entity);
    CloseLineRead(s, "    ", labels, entity);
    assert s.folders[..|s.folders| - 1] == r.folders && s.frames[..|s.frames| - 1] == r.frames;
  }

  lemma {:induction false} SitesOfIn(sites: seq<PageSite>, id: Id)
    ensures forall s :: s in SitesOf(sites, id) ==> s in sites
  {
    if sites != [] {
      SitesOfIn(sites[..|sites| - 1], id);
    }
  }

  lemma {:induction false} ExpectedKeys(categories: seq<PageCategory>, sites: seq<PageSite>, labels: Labels)
    ensures forall k :: k in Indexed(Expected(categories, sites, labels).0)
             ==> exists i :: 0 <= i < |categories| && FOLD(categories[i].name) == k
  {
    if categories != [] {
      hide Lower;
      var n := |categories| - 1;
      var c, q := categories[n], SitesOf(sites, categories[n].id);
      var before := Expected(categories[..n], sites, labels);
      ExpectedKeys(categories[..n], sites, labels);
      IndexedAppend(before.0,
          ParsedCategory((labels.category)(|before.0| + 1), c.name, true, ExpectedSites(q, before.1, labels)));
      forall k | k in Indexed(before.0) ensures exists i :: 0 <= i < |categories| && FOLD(categories[i].name) == k {
        var i :| 0 <= i < n && FOLD(categories[..n][i].name) == k;
        assert FOLD(categories[i].name) == k;
      }
      assert FOLD(categories[n].name) == FOLD(c.name);
    }
  }

  ghost predicate GoodCategories(categories: seq<PageCategory>) {
    && (forall i :: 0 <= i < |categories| ==> Folded(categories[i].name))
    && (forall i, j :: 0 <= i < j < |categories| ==> FOLD(categories[i].name) != FOLD(categories[j].name))
  }

  ghost predicate GoodSites(sites: seq<PageSite>) {
    forall i :: 0 <= i < |sites| ==> Trimmed(sites[i].title) && Trimmed(sites[i].url)
  }

  lemma {:induction false} BlocksRead(r: Reading, categories: seq<PageCategory>, sites: seq<PageSite>, labels: Labels,
                                      entity: Entities)
    requires Standard(entity) && GoodCategories(categories) && GoodSites(sites)
    requires r.categories == [] && r.sites == 0 && r.pending == ""
    ensures ReadLines(r, Blocks(categories, sites), labels, entity) == After(r, categories, sites, labels)
  {
    if categories != [] {
      GoodPrefix(categories);
      hide Standard, ReadLine, ReadLines, After, GoodCategories, GoodSites, Blocks;
      BlocksRead(r, categories[..|categories| - 1], sites, labels, entity);
      BlocksStep(r, categories, sites, labels, entity);
    }
  }

  /** The reading after the blocks of some categories. */
  function After(r: Reading, categories: seq<PageCategory>, sites: seq<PageSite>, labels: Labels): Reading {
    var e := Expected(categories, sites, labels);
    r.(categories := e.0, sites := e.1)
  }

  lemma GoodPrefix(categories: seq<PageCategory>)
    requires GoodCategories(categories) && categories != []
    ensures GoodCategories(categories[..|categories| - 1]) && Folded(categories[|categories| - 1].name)
  {
    hide Lower, Folded;
  }

  lemma BlocksStep(r: Reading, categories: seq<PageCategory>, sites: seq<PageSite>, labels: Labels, entity: Entities)
    requires Standard(entity) && GoodCategories(categories) && GoodSites(sites) && categories != []
    requires r.categories == [] && r.sites == 0 && r.pending == ""
    requires ReadLines(r, Blocks(categories[..|categories| - 1], sites), labels, entity)
             == After(r, categories[..|categories| - 1], sites, labels)
    ensures ReadLines(r, Blocks(categories, sites), labels, entity) == After(r, categories, sites, labels)
  {
    hide Standard, ReadLine, ReadLines, GoodCategories, GoodSites, Block, Folded, Lower, Indexed;
    var n := |categories| - 1;
    var c, q := categories[n], SitesOf(sites, categories[n].id);
    if c.enabled && q != [] {
      ReadLinesConcat(r, Blocks(categories[..n], sites), Block(c.name, q), labels, entity);
      GoodPrefix(categories);
      KeyIsNew(categories, sites, labels);
      GoodSitesOf(sites, c.id);
      BlockRead(After(r, categories[..n], sites, labels), c.name, q, labels, entity);
    } else {
      assert Blocks(categories, sites) == Blocks(categories[..n], sites);
    }
  }

  lemma GoodSitesOf(sites: seq<PageSite>, id: Id)
    requires GoodSites(sites)
    ensures forall i :: 0 <= i < |SitesOf(sites, id)|
             ==> Trimmed(SitesOf(sites, id)[i].title) && Trimmed(SitesOf(sites, id)[i].url)
  {
    hide Trimmed;
    SitesOfIn(sites, id);
    var q := SitesOf(sites, id);
    forall i | 0 <= i < |q| ensures Trimmed(q[i].title) && Trimmed(q[i].url) {
      assert q[i] in sites;
    }
  }

  lemma KeyIsNew(categories: seq<PageCategory>, sites: seq<PageSite>, labels: Labels)
    requires categories != [] && GoodCategories(categories)
    ensures FOLD(categories[|categories| - 1].name) !in Indexed(Expected(categories[..|categories| - 1], sites,
            labels).0)
  {
    hide Lower, Indexed, Expected;
    var n := |categories| - 1;
    ExpectedKeys(categories[..n], sites, labels);
    assert forall i :: 0 <= i < n ==> FOLD(categories[..n][i].name) != FOLD(categories[n].name);
  }

  // ------------------------------------------------------------- whole files

  /** A line that splitting and normalising leave alone. */
  predicate Steady(l: string) {
    '\n' !in l && l != "" && l[|l| - 1] != '\r'
  }

  lemma BlockSteady(name: string, q: seq<PageSite>)
    requires '\n' !in name && forall i :: 0 <= i < |q| ==> '\n' !in q[i].title && '\n' !in q[i].url
    ensures forall i :: 0 <= i < |Block(name, q)| ==> Steady(Block(name, q)[i])
  {
    hide Steady;
    FolderSteady(name);
    FixedSteady();
    forall i | 0 <= i < |q| ensures Steady(SiteLine(q[i])) {
      SiteSteady(q[i]);
    }
    hide FolderLine, SiteLine;
  }

  lemma FixedSteady()
    ensures Steady("<DL><p>") && Steady("</DL><p>") && Steady("    <DL><p>") && Steady("    </DL><p>")
  {}

  lemma FolderSteady(name: string)
    requires '\n' !in name
    ensures Steady(FolderLine(name))
  {
    EscapeClean(name);
    hide Escape;
  }

  lemma SiteSteady(s: PageSite)
    requires '\n' !in s.title && '\n' !in s.url
    ensures Steady(SiteLine(s))
  {
    EscapeClean(s.title);
    EscapeClean(s.url);
    hide Escape;
  }

  lemma {:induction false} BlocksSteady(categories: seq<PageCategory>, sites: seq<PageSite>)
    requires forall i :: 0 <= i < |categories| ==> '\n' !in categories[i].name
    requires forall i :: 0 <= i < |sites| ==> '\n' !in sites[i].title && '\n' !in sites[i].url
    ensures forall i :: 0 <= i < |Blocks(categories, sites)| ==> Steady(Blocks(categories, sites)[i])
  {
    if categories != [] {
      hide Steady, Block;
      var c := categories[|categories| - 1];
      BlocksSteady(categories[..|categories| - 1], sites);
      SitesOfIn(sites, c.id);
      var q := SitesOf(sites, c.id);
      forall i | 0 <= i < |q| ensures '\n' !in q[i].title && '\n' !in q[i].url {
        assert q[i] in sites;
      }
      BlockSteady(c.name, SitesOf(sites, c.id));
    }
  }

  /** A file with the opening of a written one and these lines for its body. */
  function File(title: string, stamp: string, body: seq<string>): string {
    Opening(stamp) + Titles(title) + "\n" + Join(body)
  }

  /** The lines a written file is split into. */
  lemma FileLines(title: string, stamp: string, body: seq<string>)
    requires forall i :: 0 <= i < |body| ==> Steady(body[i])
    ensures Lines(Normalise(File(title, stamp, body)))
            == Lines(Normalise(Opening(stamp) + Titles(title))) + (body + [""])
  {
    var h := Opening(stamp) + Titles(title);
    EndsInTag(stamp, title);
    hide Opening, Titles;
    var text := Join(body);
    assert File(title, stamp, body) == (h + "\n") + text;
    NormaliseConcat(h + "\n", text);
    NormaliseConcat(h, "\n");
    assert Normalise("\n") == "\n";
    NormaliseJoin(body);
    LinesConcat(Normalise(h), text);
    LinesJoin(body);
  }

  lemma EndsInTag(stamp: string, title: string)
    ensures var h := Opening(stamp) + Titles(title); h != "" && h[|h| - 1] == '>'
  {
    hide Opening, Escape;
  }

  lemma {:induction false} CutFinds(a: string, b: string, pat: string)
    requires pat != "" && Front(b, pat)
    ensures Cut(a + b, pat).Some?
  {
    if a != "" {
      assert (a + b)[1..] == a[1..] + b;
      CutFinds(a[1..], b, pat);
    } else {
      assert a + b == b;
    }
  }

  lemma Signed(title: string, stamp: string, body: seq<string>)
    ensures Cut(File(title, stamp, body), SIGNATURE).Some?
  {
    hide Cut, Front, File;
    StartsWithDoctype(title, stamp, body);
    var content := File(title, stamp, body);
    var rest := content[|DOCTYPE|..];
    SignedLine();
    Regroup("<!DOCTYPE ", PRODUCT, ">\n", rest);
    assert content == DOCTYPE + rest;
    SignatureFront(">\n" + rest);
    CutFinds("<!DOCTYPE ", PRODUCT + (">\n" + rest), SIGNATURE);
  }

  lemma StartsWithDoctype(title: string, stamp: string, body: seq<string>)
    ensures DOCTYPE <= File(title, stamp, body)
  {
    hide Titles, Join;
    assert DOCTYPE <= Opening(stamp);
  }

  lemma Regroup(a: string, b: string, c: string, d: string)
    ensures a + (b + c) + d == a + (b + (c + d))
  {}

  const PRODUCT: string := "NETSCAPE-Bookmark-file-1"

  lemma SignedLine()
    ensures DOCTYPE == "<!DOCTYPE " + (PRODUCT + ">\n")
  {}

  lemma SignatureFront(rest: string)
    ensures Front(PRODUCT + rest, SIGNATURE)
  {
    assert (PRODUCT + rest)[..|SIGNATURE|] == PRODUCT;
    assert Lower(PRODUCT) == SIGNATURE;
  }

  /** A file is worth what its body lines are worth. */
  lemma FileParsed(title: string, stamp: string, body: seq<string>, labels: Labels, entity: Entities)
    requires '<' !in stamp && forall i :: 0 <= i < |body| ==> Steady(body[i])
    ensures Parsed(File(title, stamp, body), labels, entity)
            == Ok(ReadLines(NOTHING, body, labels, entity).categories)
  {
    hide Opening, Titles, Steady, Quiet, ReadLine, File;
    FileLines(title, stamp, body);
    var head := Lines(Normalise(Opening(stamp) + Titles(title)));
    OpeningQuiet(stamp, title);
    QuietLines(NOTHING, head, labels, entity);
    ReadLinesConcat(NOTHING, head, body + [""], labels, entity);
    ReadLinesConcat(NOTHING, body, [""], labels, entity);
    var r := ReadLines(NOTHING, body, labels, entity);
    ReadLinesOne(r, "", labels, entity);
    EmptyLineRead(r, labels, entity);
    Signed(title, stamp, body);
  }

  lemma EmptyLineRead(r: Reading, labels: Labels, entity: Entities)
    ensures ReadLine(r, "", labels, entity) == r
  {}

  /** Export then import: exactly the enabled, non-empty categories and their
      enabled sites, in order, whatever the page's own title is. */
  lemma RoundTrip(page: Page, stamp: string, labels: Labels, entity: Entities)
    requires Exportable(page) && Standard(entity) && '<' !in stamp
    ensures Parsed(Rendered(page, stamp), labels, entity) == Ok(Expected(page.categories, page.sites, labels).0)
  {
    BodyRead(page, labels, entity);
    BodySteady(page);
    hide Exportable, Standard, Opening, Titles, Body, Steady, Join, ReadLines, Parsed;
    FileParsed(page.title, stamp, Body(page), labels, entity);
  }

  lemma BodySteady(page: Page)
    requires Exportable(page)
    ensures forall i :: 0 <= i < |Body(page)| ==> Steady(Body(page)[i])
  {
    hide Steady, Lower, Trimmed;
    FixedSteady();
    BlocksSteady(page.categories, page.sites);
  }

  lemma BodyRead(page: Page, labels: Labels, entity: Entities)
    requires Exportable(page) && Standard(entity)
    ensures var e := Expected(page.categories, page.sites, labels);
            ReadLines(NOTHING, Body(page), labels, entity) == NOTHING.(categories := e.0, sites := e.1)
  {
    hide Standard, ReadLine, ReadLines, Lower;
    var blocks := Blocks(page.categories, page.sites);
    ReadLinesConcat(NOTHING, ["<DL><p>"] + blocks, ["</DL><p>"], labels, entity);
    ReadLinesConcat(NOTHING, ["<DL><p>"], blocks, labels, entity);
    ReadLinesOne(NOTHING, "<DL><p>", labels, entity);
    assert "" + "<DL><p>" == "<DL><p>" && "" + "</DL><p>" == "</DL><p>";
    OpenLineRead(NOTHING, "", labels, entity);
    BlocksRead(Open(NOTHING), page.categories, page.sites, labels, entity);
    var e := Expected(page.categories, page.sites, labels);
    var r := Open(NOTHING).(categories := e.0, sites := e.1);
    ReadLinesOne(r, "</DL><p>", labels, entity);
    CloseLineRead(r, "", labels, entity);
  }
}
