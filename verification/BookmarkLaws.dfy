/** What reading a bookmark file guarantees whatever the file contains, and the
    forms of markup it takes besides the ones an export writes. */
module BookmarkLaws {
  import opened Prelude
  import opened Text
  import opened Markup
  import opened ImportPreview
  import opened Bookmarks
  import opened BookmarkRoundTrip
  import opened ImportIds

  // -------------------------------------------------- folders and categories

  ghost predicate Named(categories: seq<ParsedCategory>, i: int, key: string) {
    0 <= i < |categories| && FOLD(categories[i].name) == key
  }

  lemma {:induction false} IndexedNames(categories: seq<ParsedCategory>, key: string)
    ensures key in Indexed(categories) ==> Named(categories, Indexed(categories)[key], key)
    ensures key !in Indexed(categories) ==> forall i :: !Named(categories, i, key)
  {
    if categories != [] {
      var n := |categories| - 1;
      IndexedNames(categories[..n], key);
      if key !in Indexed(categories) {
        forall i ensures !Named(categories, i, key) {
          assert !Named(categories[..n], i, key);
        }
      }
    }
  }

  /** The innermost folder a link stands in, or the name for none. */
  function FolderName(folders: seq<string>): string {
    var name := if folders == [] then "" else Trim(folders[|folders| - 1]);
    if name == "" then "未分类" else name
  }

  lemma {:induction false} TrimLeftDone(s: string)
    ensures TrimLeft(s) == "" || !IsSpace(TrimLeft(s)[0])
  {
    if s != "" && IsSpace(s[0]) {
      TrimLeftDone(s[1..]);
    }
  }

  lemma {:induction false} TrimRightDone(s: string)
    ensures TrimRight(s) == "" || !IsSpace(TrimRight(s)[|TrimRight(s)| - 1])
    ensures TrimRight(s) <= s
  {
    if s != "" && IsSpace(s[|s| - 1]) {
      TrimRightDone(s[..|s| - 1]);
    }
  }

  lemma TrimIsTrimmed(s: string)
    ensures Trimmed(Trim(s))
  {
    TrimLeftDone(s);
    TrimRightDone(TrimLeft(s));
  }

  lemma FolderIsNamed(r: Reading)
    ensures CategoryName(Folder(r)) == FolderName(r.folders)
    ensures FolderName(r.folders) != "" && Trimmed(FolderName(r.folders))
  {
    if r.folders != [] {
      TrimIsTrimmed(r.folders[|r.folders| - 1]);
    } else {
      TrimIsTrimmed("未分类");
    }
    UncategorizedTrimmed();
  }

  lemma UncategorizedTrimmed()
    ensures Trim("未分类") == "未分类" && Trimmed("未分类")
  {}

  /** A link becomes the last site of the category its innermost folder names, which
      is made only if no category has that name, and nothing else changes. */
  lemma LinkLands(r: Reading, anchor: (string, string), raw: string, labels: Labels, entity: Entities) returns (k: nat)
    requires FindHref(anchor.0, false) == Some(raw)
    ensures var s := AddAnchor(r, anchor, labels, entity);
            var site := ParsedSite((labels.site)(r.sites + 1), CleanText(anchor.1, entity), Unescape(Trim(raw), entity),
                false);
            && s == r.(categories := s.categories, sites := r.sites + 1)
            && k < |s.categories| && Named(s.categories, k, FOLD(FolderName(r.folders)))
            && (forall i :: 0 <= i < |r.categories| && i != k ==> i < |s.categories|
                                                                  && s.categories[i] == r.categories[i])
            && if exists i :: Named(r.categories, i, FOLD(FolderName(r.folders)))
               then |s.categories| == |r.categories|
                    && s.categories[k] == r.categories[k].(sites := r.categories[k].sites + [site])
               else |s.categories| == k + 1 && k == |r.categories|
                    && s.categories[k] == ParsedCategory((labels.category)(k + 1), FolderName(r.folders), true, [site])
  {
    hide CleanText, Unescape, Trim, FindHref, Indexed, CategoryName, Folder, FolderName;
    var key := FOLD(FolderName(r.folders));
    FolderIsNamed(r);
    IndexedNames(r.categories, key);
    Linked(r, anchor, raw, labels, entity);
    k := if key in Indexed(r.categories) then Indexed(r.categories)[key] else |r.categories|;
    var s := AddAnchor(r, anchor, labels, entity);
    if key in Indexed(r.categories) {
      assert Named(r.categories, k, key);
    }
  }

  function SitesIn(categories: seq<ParsedCategory>): nat {
    if categories == [] then 0
    else SitesIn(categories[..|categories| - 1]) + |categories[|categories| - 1].sites|
  }

  /** Every name once, none blank, no category without a site, every site in one. */
  ghost predicate Gathered(categories: seq<ParsedCategory>, sites: nat) {
    && (forall i, j :: 0 <= i < j < |categories| ==> FOLD(categories[i].name) != FOLD(categories[j].name))
    && (forall i :: 0 <= i < |categories| ==> categories[i].name != "" && Trimmed(categories[i].name))
    && (forall i :: 0 <= i < |categories| ==> categories[i].sites != [])
    && SitesIn(categories) == sites
  }

  lemma {:induction false} OneMoreSite(a: seq<ParsedCategory>, b: seq<ParsedCategory>, k: nat)
    requires |a| <= |b| <= |a| + 1 && k < |b| && (|b| > |a| ==> k == |a|)
    requires forall i :: 0 <= i < |a| && i != k ==> b[i] == a[i]
    requires |b[k].sites| == 1 + if k < |a| then |a[k].sites| else 0
    ensures SitesIn(b) == SitesIn(a) + 1
  {
    var n := |b| - 1;
    if k == n {
      if |a| == |b| {
        assert a[..n] == b[..n];
      } else {
        assert b[..n] == a;
      }
    } else {
      OneMoreSite(a[..n], b[..n], k);
    }
  }

  lemma LinkGathered(r: Reading, anchor: (string, string), labels: Labels, entity: Entities)
    requires Gathered(r.categories, r.sites)
    ensures var s := AddAnchor(r, anchor, labels, entity); Gathered(s.categories, s.sites)
  {
    hide FindHref, CleanText, Unescape, SitesIn, FolderName, Trimmed;
    if FindHref(anchor.0, false).Some? {
      var k := LinkLands(r, anchor, FindHref(anchor.0, false).value, labels, entity);
      FolderIsNamed(r);
      hide AddAnchor;
      var s := AddAnchor(r, anchor, labels, entity);
      OneMoreSite(r.categories, s.categories, k);
      forall i, j | 0 <= i < j < |s.categories| ensures FOLD(s.categories[i].name) != FOLD(s.categories[j].name) {
        if j == |r.categories| {
          assert !Named(r.categories, i, FOLD(FolderName(r.folders)));
        }
      }
    }
  }

  lemma {:induction false} LinksGathered(r: Reading, anchors: seq<(string, string)>, labels: Labels, entity: Entities)
    requires Gathered(r.categories, r.sites)
    ensures var s := AddAnchors(r, anchors, labels, entity); Gathered(s.categories, s.sites)
  {
    hide Gathered, AddAnchor;
    if anchors != [] {
      var n := |anchors| - 1;
      LinksGathered(r, anchors[..n], labels, entity);
      LinkGathered(AddAnchors(r, anchors[..n], labels, entity), anchors[n], labels, entity);
    }
  }

  lemma LineGathered(r: Reading, line: string, labels: Labels, entity: Entities)
    requires Gathered(r.categories, r.sites)
    ensures var s := ReadLine(r, line, labels, entity); Gathered(s.categories, s.sites)
  {
    hide Gathered, Count, FindAnchors, CleanText, FindH3, Opens, Closes, AddAnchors;
    var announced := Announce(r, line, entity);
    var entered := Opens(announced, Count(line, "<dl"));
    OpensKeepSites(announced, Count(line, "<dl"));
    LinksGathered(entered, FindAnchors(line), labels, entity);
    OpensKeepSites(AddAnchors(entered, FindAnchors(line), labels, entity), Count(line, "</dl>"));
  }

  lemma {:induction false} LinesGathered(r: Reading, lines: seq<string>, labels: Labels, entity: Entities)
    requires Gathered(r.categories, r.sites)
    ensures var s := ReadLines(r, lines, labels, entity); Gathered(s.categories, s.sites)
  {
    hide Gathered, ReadLine;
    if lines != [] {
      var n := |lines| - 1;
      LinesGathered(r, lines[..n], labels, entity);
      LineGathered(ReadLines(r, lines[..n], labels, entity), lines[n], labels, entity);
    }
  }

  /** Whatever a file contains: folders of one name make one category, no category is
      nameless or empty, and a file without a link is taken only by its signature. */
  lemma ParsedGathered(content: string, labels: Labels, entity: Entities)
    ensures match Parsed(content, labels, entity)
            case Ok(categories) =>
              && Gathered(categories, SitesIn(categories))
              && (categories == [] ==> Cut(content, "netscape-bookmark-file-1").Some?)
            case Err(_) => Cut(content, "netscape-bookmark-file-1") == None
  {
    hide ReadLines, Lines, Normalise, Cut;
    LinesGathered(NOTHING, Lines(Normalise(content)), labels, entity);
    var r := ReadLines(NOTHING, Lines(Normalise(content)), labels, entity);
    if r.categories == [] {
      assert SitesIn([]) == 0;
    }
  }

  // ---------------------------------------------------------- forms of markup

  /** The text with the line ends of another system. */
  function Crlf(s: string): string {
    if s == "" then "" else (if s[0] == '\n' then "\r\n" else [s[0]]) + Crlf(s[1..])
  }

  /** Line ends of either kind make the same lines. */
  lemma {:induction false} CrlfRead(s: string)
    requires '\r' !in s
    ensures Normalise(Crlf(s)) == s
  {
    if s != "" {
      CrlfRead(s[1..]);
      if s[0] == '\n' {
        assert Crlf(s) == "\r\n" + Crlf(s[1..]);
        assert Crlf(s)[2..] == Crlf(s[1..]);
      } else {
        assert Crlf(s)[1..] == Crlf(s[1..]);
      }
    }
  }

  /** A tag inside a title goes, what is around it stays. */
  lemma {:induction false} TagStripped(before: string, tag: string, after: string)
    requires '<' !in before && tag != "" && '>' !in tag
    ensures StripTags(before + "<" + tag + ">" + after) == before + StripTags(after)
  {
    if before == "" {
      var s := "<" + tag + ">" + after;
      assert before + "<" + tag + ">" + after == s;
      var rest := ">" + after;
      assert s[1..] == tag + rest && rest[1..] == after;
      FrontAngle(after);
      CutTag(tag, after);
      assert "" + StripTags(after) == StripTags(after);
    } else {
      assert (before + "<" + tag + ">" + after)[1..] == before[1..] + "<" + tag + ">" + after;
      TagStripped(before[1..], tag, after);
      assert [before[0]] + (before[1..] + StripTags(after)) == before + StripTags(after);
    }
  }

  lemma FrontAngle(after: string)
    ensures Front(">" + after, ">")
  {
    assert (">" + after)[..1] == ">" && Lower(">") == ">";
  }

  lemma CutTag(tag: string, after: string)
    requires '>' !in tag
    ensures Cut(tag + (">" + after), ">") == Some((tag, after))
  {
    FrontAngle(after);
    var rest := ">" + after;
    assert rest[1..] == after;
    CutPlain(tag, rest, ">");
  }

  /** Which values may stand without quotes. */
  predicate Unquoted(v: string) {
    v != "" && v[0] != '"' && v[0] != '\'' && forall c :: c in v ==> !IsBlank(c) && c != '>'
  }

  lemma {:induction false} BareWhole(v: string, after: string)
    requires forall c :: c in v ==> !IsBlank(c) && c != '>'
    requires after == "" || IsBlank(after[0])
    ensures Bare(v + after) == v
  {
    if v == "" {
      assert v + after == after;
    } else {
      assert (v + after)[1..] == v[1..] + after;
      BareWhole(v[1..], after);
    }
  }

  lemma BareValue(v: string, after: string)
    requires Unquoted(v) && (after == "" || IsBlank(after[0]))
    ensures Value(v + after) == Some(v)
  {
    hide Cut;
    BareWhole(v, after);
    assert (v + after)[0] == v[0];
  }

  lemma QuotedValue(quote: char, v: string, after: string)
    requires quote == '"' || quote == '\''
    requires quote !in v
    ensures Value([quote] + v + [quote] + after) == Some(v)
  {
    var rest := [quote] + after;
    var s := [quote] + v + [quote] + after;
    assert s[1..] == v + rest && rest[1..] == after;
    assert rest[..1] == [quote] && Lower([quote]) == [quote];
    assert LowerChar(quote) == quote && forall c :: c in v ==> LowerChar(c) != quote;
    CutPlain(v, rest, [quote]);
    if quote == '"' {
      assert [quote] == "\"";
    } else {
      assert [quote] == "'";
    }
  }

  predicate Blanks(s: string) {
    forall c :: c in s ==> IsBlank(c)
  }

  lemma {:induction false} BlanksSkipped(blanks: string, s: string)
    requires Blanks(blanks) && s != "" && !IsBlank(s[0])
    ensures SkipBlank(blanks + s) == s
  {
    if blanks == "" {
      assert blanks + s == s;
    } else {
      assert (blanks + s)[1..] == blanks[1..] + s;
      BlanksSkipped(blanks[1..], s);
    }
  }

  /** href in any case, with blanks around its sign, and its value in double quotes,
      in single quotes or in none. */
  lemma HrefForms(word: string, pre: string, post: string, v: string, value: string, after: string)
    requires Lower(word) == "href" && Blanks(pre) && Blanks(post)
    requires || (value == "\"" + v + "\"" && '"' !in v) || (value == "'" + v + "'" && '\'' !in v)
             || (value == v && Unquoted(v) && (after == "" || IsBlank(after[0])))
    ensures FindHref(word + pre + "=" + post + value + after, false) == Some(v)
  {
    hide Value, IsBlank, Blanks, SkipBlank, FindHref, Unquoted, Lower;
    var text := value + after;
    FormsValue(v, value, after);
    BlanksSkipped(post, text);
    SignIsNoBlank();
    BlanksSkipped(pre, "=" + (post + text));
    Pieces(word, pre, post, value, after);
    HrefHere(word, pre + ("=" + (post + text)), post + text, v);
  }

  lemma SignIsNoBlank()
    ensures !IsBlank('=')
  {}

  lemma Pieces(word: string, pre: string, post: string, value: string, after: string)
    ensures word + pre + "=" + post + value + after == word + (pre + ("=" + (post + (value + after))))
  {}

  lemma HrefHere(word: string, rest: string, text: string, v: string)
    requires Lower(word) == "href" && SkipBlank(rest) == "=" + text && Value(SkipBlank(text)) == Some(v)
    ensures FindHref(word + rest, false) == Some(v)
  {
    hide Value, SkipBlank;
    assert |word| == |Lower(word)| == 4;
    assert (word + rest)[..4] == word && (word + rest)[4..] == rest;
    assert ("=" + text)[1..] == text;
  }

  lemma FormsValue(v: string, value: string, after: string)
    requires || (value == "\"" + v + "\"" && '"' !in v) || (value == "'" + v + "'" && '\'' !in v)
             || (value == v && Unquoted(v) && (after == "" || IsBlank(after[0])))
    ensures Value(value + after) == Some(v) && value != "" && !IsBlank(value[0])
  {
    hide Value;
    if value == "\"" + v + "\"" && '"' !in v {
      QuotedValue('"', v, after);
      assert ['"'] + v + ['"'] + after == value + after;
    } else if value == "'" + v + "'" && '\'' !in v {
      QuotedValue('\'', v, after);
      assert ['\''] + v + ['\''] + after == value + after;
    } else {
      BareValue(v, after);
    }
  }
}
