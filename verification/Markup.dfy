/** The text functions behind bookmark files: html.EscapeString and
    UnescapeString, and the four regular expressions of the parser. */
module Markup {
  import opened Prelude
  import opened Text

  // ------------------------------------------------------------- escaping

  function EscapeChar(c: char): string {
    match c
    case '&' => "&amp;"
    case '\'' => "&#39;"
    case '<' => "&lt;"
    case '>' => "&gt;"
    case '"' => "&#34;"
    case _ => [c]
  }

  function Escape(s: string): string {
    if s == "" then "" else EscapeChar(s[0]) + Escape(s[1..])
  }

  /** What the entity at the front of a text decodes to and how much of the text
      it takes; the full HTML table is left open. */
  type Entities = string -> (string, nat)

  predicate Starts(s: string, p: string) {
    p <= s
  }

  /** The five entities the escaper writes are decoded as it meant them. */
  ghost predicate Standard(entity: Entities) {
    && (forall s: string :: Starts(s, "&amp;") ==> entity(s) == ("&", 5))
    && (forall s: string :: Starts(s, "&#39;") ==> entity(s) == ("'", 5))
    && (forall s: string :: Starts(s, "&lt;") ==> entity(s) == ("<", 4))
    && (forall s: string :: Starts(s, "&gt;") ==> entity(s) == (">", 4))
    && (forall s: string :: Starts(s, "&#34;") ==> entity(s) == ("\"", 5))
  }

  function Unescape(s: string, entity: Entities): string
    decreases |s|
  {
    if s == "" then ""
    else if s[0] == '&' && 0 < entity(s).1 <= |s| then entity(s).0 + Unescape(s[entity(s).1..], entity)
    else [s[0]] + Unescape(s[1..], entity)
  }

  lemma UnescapeFront(c: char, rest: string, entity: Entities)
    requires Standard(entity)
    ensures Unescape(EscapeChar(c) + rest, entity) == [c] + Unescape(rest, entity)
  {
    var e := EscapeChar(c);
    var s := e + rest;
    assert Starts(s, e) && s[|e|..] == rest;
    if c == '&' || c == '\'' || c == '<' || c == '>' || c == '"' {
      assert entity(s) == ([c], |e|);
    } else {
      assert s[1..] == rest;
    }
  }

  /** Unescaping undoes escaping. */
  lemma {:induction false} UnescapeEscape(s: string, entity: Entities)
    requires Standard(entity)
    ensures Unescape(Escape(s), entity) == s
  {
    if s != "" {
      hide Standard, EscapeChar, Unescape;
      UnescapeEscape(s[1..], entity);
      UnescapeFront(s[0], Escape(s[1..]), entity);
    } else {
      assert Unescape("", entity) == "";
    }
  }

  lemma {:induction false} EscapeClean(s: string)
    ensures forall c :: c in Escape(s) ==> c != '<' && c != '>' && c != '"'
    ensures '\n' !in s ==> '\n' !in Escape(s)
    ensures s != "" ==> Escape(s) != ""
  {
    if s != "" {
      EscapeClean(s[1..]);
    }
  }

  lemma EscapeCharEnds(c: char)
    ensures var e := EscapeChar(c); e != "" && IsSpace(e[0]) == IsSpace(c) && IsSpace(e[|e| - 1]) == IsSpace(c)
  {}

  lemma {:induction false} EscapeEnds(s: string)
    requires s != ""
    ensures Escape(s) != "" && IsSpace(Escape(s)[0]) == IsSpace(s[0])
    ensures IsSpace(Escape(s)[|Escape(s)| - 1]) == IsSpace(s[|s| - 1])
  {
    hide EscapeChar, IsSpace;
    EscapeCharEnds(s[0]);
    if |s| > 1 {
      EscapeEnds(s[1..]);
    } else {
      assert Escape(s[1..]) == "";
    }
  }

  lemma EscapeTrimmed(s: string)
    requires Trimmed(s)
    ensures Trimmed(Escape(s))
  {
    if s != "" {
      EscapeEnds(s);
    }
  }

  // ------------------------------------------------------------- patterns

  /** The text begins with the lower-case pattern, ignoring case. */
  predicate Front(s: string, pat: string) {
    |pat| <= |s| && Lower(s[..|pat|]) == pat
  }

  predicate IsWord(c: char) {
    'a' <= c <= 'z' || 'A' <= c <= 'Z' || '0' <= c <= '9' || c == '_'
  }

  /** \b after a word character. */
  predicate WordEnds(s: string) {
    s == "" || !IsWord(s[0])
  }

  /** What stands before and after the first occurrence. */
  function Cut(s: string, pat: string): Option<(string, string)>
    requires pat != ""
  {
    if Front(s, pat) then Some(("", s[|pat|..]))
    else if s == "" then None
    else match Cut(s[1..], pat)
         case None => None
         case Some(r) => Some(([s[0]] + r.0, r.1))
  }

  /** Non-overlapping occurrences, from the left. */
  function Count(s: string, pat: string): nat
    requires pat != ""
    decreases |s|
  {
    if Front(s, pat) then 1 + Count(s[|pat|..], pat) else if s == "" then 0 else Count(s[1..], pat)
  }

  /** `<h3\b[^>]*>(.*?)</h3>` : the group of the leftmost match. */
  function FindH3(s: string): Option<string> {
    if s == "" then None
    else
      var here := if Front(s, "<h3") && WordEnds(s[3..]) then Element(s[3..], "</h3>") else None;
      if here.Some? then Some(here.value.1) else FindH3(s[1..])
  }

  /** `[^>]*>(.*?)close` : attributes, text and what follows. */
  function Element(s: string, close: string): (r: Option<(string, string, string)>)
    requires close != ""
    ensures r.Some? ==> |r.value.2| < |s|
  {
    match Cut(s, ">")
    case None => None
    case Some(tag) =>
      CutShrinks(s, ">");
      match Cut(tag.1, close)
      case None => None
      case Some(body) => CutShrinks(tag.1, close); Some((tag.0, body.0, body.1))
  }

  lemma {:induction false} CutShrinks(s: string, pat: string)
    requires pat != ""
    ensures Cut(s, pat).Some? ==> |Cut(s, pat).value.0| + |pat| + |Cut(s, pat).value.1| == |s|
  {
    if !Front(s, pat) && s != "" {
      CutShrinks(s[1..], pat);
    }
  }

  /** `<a\b([^>]*)>(.*?)</a>` : attributes and text of every match. */
  function FindAnchors(s: string): seq<(string, string)>
    decreases |s|
  {
    if s == "" then []
    else if Front(s, "<a") && WordEnds(s[2..]) && Element(s[2..], "</a>").Some? then
      var e := Element(s[2..], "</a>").value;
      [(e.0, e.1)] + FindAnchors(e.2)
    else FindAnchors(s[1..])
  }

  /** \s */
  predicate IsBlank(c: char) {
    c == ' ' || c == '\t' || c == '\n' || c == '\r' || c as int == 0xC
  }

  function SkipBlank(s: string): string {
    if s != "" && IsBlank(s[0]) then SkipBlank(s[1..]) else s
  }

  function Bare(s: string): string {
    if s != "" && !IsBlank(s[0]) && s[0] != '>' then [s[0]] + Bare(s[1..]) else ""
  }

  /** `"([^"]*)"|'([^']*)'|([^\s>]+)` */
  function Value(s: string): Option<string> {
    if s != "" && s[0] == '"' && Cut(s[1..], "\"").Some? then Some(Cut(s[1..], "\"").value.0)
    else if s != "" && s[0] == '\'' && Cut(s[1..], "'").Some? then Some(Cut(s[1..], "'").value.0)
    else if Bare(s) != "" then Some(Bare(s))
    else None
  }

  /** `\bhref\s*=\s*value` ; `inWord` says whether the character before is a word's. */
  function FindHref(s: string, inWord: bool): Option<string> {
    if s == "" then None
    else
      var rest := if !inWord && Front(s, "href") then SkipBlank(s[4..]) else "";
      if rest != "" && rest[0] == '=' && Value(SkipBlank(rest[1..])).Some? then Value(SkipBlank(rest[1..]))
      else FindHref(s[1..], IsWord(s[0]))
  }

  /** Deleting every `<[^>]+>` */
  function StripTags(s: string): string
    decreases |s|
  {
    if s == "" then ""
    else if s[0] == '<' && |s| > 1 && s[1] != '>' && Cut(s[1..], ">").Some? then
      CutShrinks(s[1..], ">");
      StripTags(Cut(s[1..], ">").value.1)
    else [s[0]] + StripTags(s[1..])
  }

  /** cleanHTMLText */
  function CleanText(s: string, entity: Entities): string {
    Trim(Unescape(StripTags(s), entity))
  }

  // ---------------------------------------------------------------- lines

  /** strings.ReplaceAll(content, "\r\n", "\n") */
  function Normalise(s: string): string
    decreases |s|
  {
    if s == "" then ""
    else if |s| > 1 && s[0] == '\r' && s[1] == '\n' then "\n" + Normalise(s[2..])
    else [s[0]] + Normalise(s[1..])
  }

  /** strings.Split(content, "\n") */
  function Lines(s: string): (ls: seq<string>)
    ensures |ls| > 0
  {
    if s == "" then [""]
    else
      var rest := Lines(s[1..]);
      if s[0] == '\n' then [""] + rest else [[s[0]] + rest[0]] + rest[1..]
  }

  /** Lines written one after the other, each with its newline. */
  function Join(ls: seq<string>): string {
    if ls == [] then "" else ls[0] + "\n" + Join(ls[1..])
  }

  lemma {:induction false} LinesConcat(a: string, b: string)
    ensures Lines(a + "\n" + b) == Lines(a) + Lines(b)
  {
    if a == "" {
      assert a + "\n" + b == "\n" + b;
      assert ("\n" + b)[1..] == b;
    } else {
      assert (a + "\n" + b)[1..] == a[1..] + "\n" + b;
      LinesConcat(a[1..], b);
    }
  }

  lemma {:induction false} LinesSingle(a: string)
    requires '\n' !in a
    ensures Lines(a) == [a]
  {
    if a != "" {
      LinesSingle(a[1..]);
      assert [a[0]] + a[1..] == a;
    }
  }

  /** Splitting undoes joining. */
  lemma {:induction false} LinesJoin(ls: seq<string>)
    requires forall i :: 0 <= i < |ls| ==> '\n' !in ls[i]
    ensures Lines(Join(ls)) == ls + [""]
  {
    if ls != [] {
      LinesJoin(ls[1..]);
      LinesConcat(ls[0], Join(ls[1..]));
      LinesSingle(ls[0]);
    }
  }

  lemma {:induction false} NormaliseConcat(a: string, b: string)
    requires a != "" ==> a[|a| - 1] != '\r'
    ensures Normalise(a + b) == Normalise(a) + Normalise(b)
    decreases |a|
  {
    if a == "" {
      assert a + b == b;
    } else if |a| > 1 && a[0] == '\r' && a[1] == '\n' {
      assert (a + b)[2..] == a[2..] + b;
      NormaliseConcat(a[2..], b);
    } else {
      assert (a + b)[1..] == a[1..] + b;
      NormaliseConcat(a[1..], b);
      if |a| == 1 {
        assert a[1..] == "";
      }
    }
  }

  lemma {:induction false} NormaliseSame(a: string)
    requires '\n' !in a
    ensures Normalise(a) == a
  {
    if a != "" {
      NormaliseSame(a[1..]);
    }
  }

  lemma {:induction false} NormaliseJoin(ls: seq<string>)
    requires forall i :: 0 <= i < |ls| ==> '\n' !in ls[i] && ls[i] != "" && ls[i][|ls[i]| - 1] != '\r'
    ensures Normalise(Join(ls)) == Join(ls)
  {
    if ls != [] {
      NormaliseJoin(ls[1..]);
      NormaliseSame(ls[0]);
      NormaliseConcat(ls[0] + "\n", Join(ls[1..]));
      NormaliseConcat(ls[0], "\n");
      assert Normalise("\n") == "\n";
    }
  }

  // -------------------------------------------------------- tagged text

  /** Some tag of the list stands at the front. */
  predicate FrontTag(tags: seq<string>, s: string) {
    exists k :: 0 <= k < |tags| && tags[k] <= s
  }

  /** Every `<` of the text begins one of the tags. */
  ghost predicate Tagged(tags: seq<string>, s: string) {
    forall i :: 0 <= i < |s| && s[i] == '<' ==> FrontTag(tags, s[i..])
  }

  lemma TaggedConcat(tags: seq<string>, a: string, b: string)
    requires Tagged(tags, a) && Tagged(tags, b)
    ensures Tagged(tags, a + b)
  {
    forall i | 0 <= i < |a + b| && (a + b)[i] == '<' ensures FrontTag(tags, (a + b)[i..]) {
      if i < |a| {
        assert (a + b)[i..] == a[i..] + b;
        var k :| 0 <= k < |tags| && tags[k] <= a[i..];
        assert tags[k] <= a[i..] + b;
      } else {
        assert (a + b)[i..] == b[i - |a|..];
      }
    }
  }

  lemma TaggedPlain(tags: seq<string>, s: string)
    requires '<' !in s
    ensures Tagged(tags, s)
  {}

  lemma TaggedOne(tags: seq<string>, s: string, k: nat)
    requires k < |tags| && tags[k] <= s && forall i :: 1 <= i < |s| ==> s[i] != '<'
    ensures Tagged(tags, s)
  {
    assert s[0..] == s;
  }

  /** None of the tags can be the beginning of the pattern. */
  ghost predicate Unlike(tags: seq<string>, pat: string) {
    forall k :: 0 <= k < |tags| ==> Clash(tags[k], pat)
  }

  /** The tag and the pattern differ at some position both have. */
  predicate Clash(tag: string, pat: string) {
    exists i :: 0 <= i < |tag| && i < |pat| && LowerChar(tag[i]) != pat[i]
  }

  lemma NotFront(tags: seq<string>, s: string, pat: string)
    requires s != "" && pat != "" && pat[0] == '<' && Unlike(tags, pat)
    requires s[0] == '<' ==> FrontTag(tags, s)
    ensures !Front(s, pat)
  {
    if |pat| <= |s| {
      var low := Lower(s[..|pat|]);
      if s[0] == '<' {
        var k :| 0 <= k < |tags| && tags[k] <= s;
        assert Clash(tags[k], pat);
        var i :| 0 <= i < |tags[k]| && i < |pat| && LowerChar(tags[k][i]) != pat[i];
        assert s[i] == tags[k][i] && low[i] != pat[i];
      } else {
        assert low[0] == LowerChar(s[0]) && low[0] != pat[0];
      }
    }
  }

  /** Text tagged unlike the patterns is passed over. */
  lemma {:induction false} SkipTagged(tags: seq<string>, p: string, t: string)
    requires Tagged(tags, p)
    ensures Unlike(tags, "<h3") ==> FindH3(p + t) == FindH3(t)
    ensures Unlike(tags, "<a") ==> FindAnchors(p + t) == FindAnchors(t)
    ensures Unlike(tags, "<dl") ==> Count(p + t, "<dl") == Count(t, "<dl")
    ensures Unlike(tags, "</dl>") ==> Count(p + t, "</dl>") == Count(t, "</dl>")
  {
    if p == "" {
      assert p + t == t;
    } else {
      SkipTagged(tags, p[1..], t);
      assert (p + t)[1..] == p[1..] + t;
      if p[0] == '<' {
        var k :| 0 <= k < |tags| && tags[k] <= p;
        assert tags[k] <= p + t;
      }
      if Unlike(tags, "<h3") { NotFront(tags, p + t, "<h3"); }
      if Unlike(tags, "<a") { NotFront(tags, p + t, "<a"); }
      if Unlike(tags, "<dl") { NotFront(tags, p + t, "<dl"); }
      if Unlike(tags, "</dl>") { NotFront(tags, p + t, "</dl>"); }
    }
  }
}
