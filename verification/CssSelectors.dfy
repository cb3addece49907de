/** internal/themes/cssselector.go and csscompile.go: the selector validator and
    the rewriter, over the parser's tokens. */
module CssSelectors {
  import opened Prelude
  import opened Text

  datatype Kind =
    | Ident | Function | Str | Colon | Comma | Delim | LeftBracket | RightBracket | LeftParen | RightParen
    | Space | Comment | Other

  /** `name` is the data with CSS escapes decoded, in lower case. */
  datatype Token = Token(kind: Kind, data: string, name: string)

  const ROOT_HOOK: string := "page-root"
  const FRAME_ATTR: string := "data-nx-frame"
  const PROTECTED_ATTR: string := "data-nx-protected"

  predicate Silent(t: Token) {
    t.kind.Space? || t.kind.Comment?
  }

  predicate IsDelim(t: Token, text: string) {
    t.kind.Delim? && t.data == text
  }

  predicate Sibling(t: Token) {
    IsDelim(t, "+") || IsDelim(t, "~")
  }

  predicate Valued(t: Token) {
    t.kind.Str? || t.kind.Ident?
  }

  predicate Quoted(s: string) {
    |s| >= 2 && s[0] == s[|s| - 1] && (s[0] == '"' || s[0] == '\'')
  }

  function Unquote(s: string): string {
    if Quoted(s) then s[1..|s| - 1] else s
  }

  /** meaningfulTokens */
  function Meaningful(ts: seq<Token>): seq<Token> {
    if ts == [] then []
    else if Silent(ts[0]) then Meaningful(ts[1..])
    else [ts[0]] + Meaningful(ts[1..])
  }

  method MeaningfulTokens(ts: seq<Token>) returns (out: seq<Token>)
    ensures out == Meaningful(ts)
  {
    out := [];
    for i := 0 to |ts|
      invariant out + Meaningful(ts[i..]) == Meaningful(ts)
    {
      assert ts[i..] == [ts[i]] + ts[i + 1..];
      if !Silent(ts[i]) {
        out := out + [ts[i]];
      }
    }
  }

  /** The nearest token before / after `index` that is neither space nor comment. */
  ghost predicate IsPrev(ts: seq<Token>, index: int, p: int) {
    -1 <= p < index && (forall k :: p < k < index && 0 <= k < |ts| ==> Silent(ts[k]))
        && (0 <= p < |ts| ==> !Silent(ts[p]))
  }

  ghost predicate IsNext(ts: seq<Token>, index: int, n: int) {
    index < n <= |ts| && (forall k :: index < k < n && 0 <= k < |ts| ==> Silent(ts[k]))
        && (0 <= n < |ts| ==> !Silent(ts[n]))
  }

  function Prev(ts: seq<Token>, index: int): (p: int)
    requires 0 <= index <= |ts|
    ensures IsPrev(ts, index, p)
    decreases index
  {
    if index == 0 then -1 else if Silent(ts[index - 1]) then Prev(ts, index - 1) else index - 1
  }

  function Next(ts: seq<Token>, index: int): (n: int)
    requires 0 <= index < |ts|
    ensures IsNext(ts, index, n)
    decreases |ts| - index
  {
    if index + 1 == |ts| then |ts| else if Silent(ts[index + 1]) then Next(ts, index + 1) else index + 1
  }

  method PrevMeaningful(ts: seq<Token>, index: int) returns (p: Option<Token>)
    requires 0 <= index <= |ts|
    ensures p == if Prev(ts, index) < 0 then None else Some(ts[Prev(ts, index)])
  {
    var i := index - 1;
    while i >= 0
      invariant -1 <= i < index && Prev(ts, index) == Prev(ts, i + 1)
    {
      if !Silent(ts[i]) { return Some(ts[i]); }
      i := i - 1;
    }
    return None;
  }

  method NextMeaningful(ts: seq<Token>, index: int) returns (p: Option<Token>)
    requires 0 <= index < |ts|
    ensures p == if Next(ts, index) == |ts| then None else Some(ts[Next(ts, index)])
  {
    var i := index + 1;
    while i < |ts|
      invariant index < i <= |ts| && Next(ts, index) == Next(ts, i - 1)
    {
      if !Silent(ts[i]) { return Some(ts[i]); }
      i := i + 1;
    }
    return None;
  }

  // ---------------------------------------------------------- the validator

  /** Where the attribute selector opened at `open` ends, or |ts|. */
  function CloseOf(ts: seq<Token>, open: int): (end: int)
    requires 0 <= open <= |ts|
    ensures open <= end <= |ts| && (end < |ts| ==> ts[end].kind.RightBracket?)
    ensures forall k :: open <= k < end ==> !ts[k].kind.RightBracket?
    decreases |ts| - open
  {
    if open == |ts| || ts[open].kind.RightBracket? then open else CloseOf(ts, open + 1)
  }

  /** The value of the last string or identifier, or empty. */
  function LastValue(ts: seq<Token>): string {
    if ts == [] then ""
    else if Valued(ts[|ts| - 1]) then Unquote(ts[|ts| - 1].data)
    else LastValue(ts[..|ts| - 1])
  }

  /** What an attribute selector with these meaningful tokens is. */
  datatype Attribute = Refused | Plain | RootReference

  function Judge(hooks: set<string>, inner: seq<Token>): Attribute {
    if inner == [] then Refused
    else if inner[0].name == "class" || inner[0].name == FRAME_ATTR || inner[0].name == PROTECTED_ATTR then Refused
    else if inner[0].name == "data-nx" then
      var hook := Lower(LastValue(inner[1..]));
      if hook == "" || hook !in hooks then Refused else if hook == ROOT_HOOK then RootReference else Plain
    else Plain
  }

  method ValidateAttributeSelector(hooks: set<string>, ts: seq<Token>, open: int) returns (end: int, a: Attribute)
    requires 0 <= open < |ts|
    ensures CloseOf(ts, open) == |ts| ==> a == Refused
    ensures CloseOf(ts, open) < |ts| && open < CloseOf(ts, open) ==>
              end == CloseOf(ts, open) && a == Judge(hooks, Meaningful(ts[open + 1..end]))
    ensures ts[open].kind.RightBracket? ==> end == open
  {
    end := open;
    while end < |ts| && !ts[end].kind.RightBracket?
      invariant open <= end <= |ts| && CloseOf(ts, open) == CloseOf(ts, end)
    {
      end := end + 1;
    }
    if end >= |ts| { return |ts| - 1, Refused; }
    if end == open { return end, Refused; }
    var inner := MeaningfulTokens(ts[open + 1..end]);
    if |inner| == 0 { return end, Refused; }
    var name := inner[0].name;
    if name == "class" || name == FRAME_ATTR || name == PROTECTED_ATTR { return end, Refused; }
    if name == "data-nx" {
      var value := "";
      for k := 1 to |inner|
        invariant value == LastValue(inner[1..k])
      {
        assert inner[1..k + 1][..k - 1] == inner[1..k];
        if Valued(inner[k]) {
          value := Unquote(inner[k].data);
        }
      }
      assert inner[1..|inner|] == inner[1..];
      if value == "" { return end, Refused; }
      var hook := Lower(value);
      if hook !in hooks { return end, Refused; }
      return end, if hook == ROOT_HOOK then RootReference else Plain;
    }
    return end, Plain;
  }

  /** One turn of the validator's loop: where it goes on and whether a root
      reference has been seen in the current selector. */
  datatype Turn = Stop | Go(next: nat, rootSeen: bool)

  function TurnAt(hooks: set<string>, ts: seq<Token>, i: nat, rootSeen: bool): Turn
    requires i < |ts|
  {
    var t := ts[i];
    match t.kind
    case Comma => Go(i + 1, false)
    case Ident =>
      var p := Prev(ts, i);
      if (p >= 0 && IsDelim(ts[p], ".")) || t.name == "html" || t.name == "body" then Stop else Go(i + 1, rootSeen)
    case Delim =>
      if (Sibling(t) && rootSeen) || t.data == "&" || t.data == "|" then Stop else Go(i + 1, rootSeen)
    case Colon =>
      var n := Next(ts, i);
      Go(i + 1, rootSeen || (n < |ts| && ts[n].kind.Ident? && ts[n].name == "root"))
    case LeftBracket =>
      var end := CloseOf(ts, i);
      var a := if end < |ts| then Judge(hooks, Meaningful(ts[i + 1..end])) else Refused;
      if a == Refused then Stop else Go(end + 1, rootSeen || a == RootReference)
    case _ => Go(i + 1, rootSeen)
  }

  predicate Accepts(hooks: set<string>, ts: seq<Token>, i: nat, rootSeen: bool)
    requires i <= |ts|
    decreases |ts| - i
  {
    i == |ts| ||
    var turn := TurnAt(hooks, ts, i, rootSeen);
    turn.Go? && turn.next <= |ts| && Accepts(hooks, ts, turn.next, turn.rootSeen)
  }

  lemma AcceptsTurn(hooks: set<string>, ts: seq<Token>, i: nat, rootSeen: bool)
    requires i < |ts|
    ensures var turn := TurnAt(hooks, ts, i, rootSeen);
            && (turn.Go? ==> i < turn.next <= |ts|)
            && (Accepts(hooks, ts, i, rootSeen) <==> turn.Go? && Accepts(hooks, ts, turn.next, turn.rootSeen))
  {}

  lemma AcceptsEnd(hooks: set<string>, ts: seq<Token>, rootSeen: bool)
    ensures Accepts(hooks, ts, |ts|, rootSeen)
  {}

  method ValidateSelector(hooks: set<string>, values: seq<Token>) returns (ok: bool)
    ensures ok <==> Accepts(hooks, values, 0, false)
  {
    hide Accepts, Judge, CloseOf, Prev, Next, Meaningful;
    var rootSeen := false;
    var i := 0;
    while i < |values|
      invariant 0 <= i <= |values|
      invariant Accepts(hooks, values, 0, false) <==> Accepts(hooks, values, i, rootSeen)
      decreases |values| - i
    {
      AcceptsTurn(hooks, values, i, rootSeen);
      var token := values[i];
      match token.kind {
        case Comma =>
          rootSeen := false;
        case Ident =>
          var prev := PrevMeaningful(values, i);
          if prev.Some? && prev.value.kind.Delim? && prev.value.data == "." { return false; }
          if token.name == "html" || token.name == "body" { return false; }
        case Delim =>
          if token.data == "+" || token.data == "~" {
            if rootSeen { return false; }
          } else if token.data == "&" || token.data == "|" {
            return false;
          }
        case Colon =>
          var next := NextMeaningful(values, i);
          if next.Some? && next.value.kind.Ident? && next.value.name == "root" {
            rootSeen := true;
          }
        case LeftBracket =>
          var end, a := ValidateAttributeSelector(hooks, values, i);
          if a == Refused { return false; }
          if a == RootReference {
            rootSeen := true;
          }
          i := end;
        case _ =>
      }
      i := i + 1;
    }
    AcceptsEnd(hooks, values, rootSeen);
    return true;
  }

  // ------------------------------------------------------------ the rewriter

  /** Parenthesis depth as the splitter counts it. */
  function Depth(ts: seq<Token>): nat {
    if ts == [] then 0
    else
      var d := Depth(ts[..|ts| - 1]);
      match ts[|ts| - 1].kind
      case Function => d + 1
      case RightParen => if d > 0 then d - 1 else 0
      case _ => d
  }

  /** The list cut at every comma of depth 0. */
  function Split(ts: seq<Token>): (parts: seq<seq<Token>>)
    ensures |parts| > 0
  {
    if ts == [] then [[]]
    else
      var n := |ts| - 1;
      var parts := Split(ts[..n]);
      if ts[n].kind.Comma? && Depth(ts[..n]) == 0 then parts + [[]]
      else parts[..|parts| - 1] + [parts[|parts| - 1] + [ts[n]]]
  }

  method SplitSelectorList(values: seq<Token>) returns (parts: seq<seq<Token>>)
    ensures parts == Split(values)
  {
    var done: seq<seq<Token>> := [];
    var current: seq<Token> := [];
    var depth := 0;
    SplitNothing(values);
    hide Split, Depth;
    for i := 0 to |values|
      invariant done + [current] == Split(values[..i]) && depth == Depth(values[..i])
    {
      SplitNext(values, i, done, current);
      var token := values[i];
      match token.kind {
        case Function =>
          depth := depth + 1;
        case RightParen =>
          if depth > 0 {
            depth := depth - 1;
          }
        case Comma =>
          if depth == 0 {
            done := done + [current];
            current := [];
            continue;
          }
        case _ =>
      }
      current := current + [token];
    }
    assert values[..|values|] == values;
    return done + [current];
  }

  lemma SplitNothing(ts: seq<Token>)
    ensures Split(ts[..0]) == [[]] && Depth(ts[..0]) == 0
  {}

  lemma SplitNext(ts: seq<Token>, i: nat, done: seq<seq<Token>>, current: seq<Token>)
    requires i < |ts| && done + [current] == Split(ts[..i])
    ensures Split(ts[..i + 1]) == if ts[i].kind.Comma? && Depth(ts[..i]) == 0 then done + [current] + [[]]
            else done + [current + [ts[i]]]
    ensures var d := Depth(ts[..i]);
            Depth(ts[..i + 1])
                == match ts[i].kind case Function => d + 1 case RightParen => (if d > 0 then d - 1 else 0) case _ => d
  {
    assert ts[..i + 1][..i] == ts[..i];
    var parts := done + [current];
    assert parts[..|parts| - 1] == done && parts[|parts| - 1] == current;
  }

  function TrimStart(ts: seq<Token>): seq<Token> {
    if ts != [] && ts[0].kind.Space? then TrimStart(ts[1..]) else ts
  }

  function TrimEnd(ts: seq<Token>): seq<Token> {
    if ts != [] && ts[|ts| - 1].kind.Space? then TrimEnd(ts[..|ts| - 1]) else ts
  }

  function Stripped(ts: seq<Token>): seq<Token> {
    TrimEnd(TrimStart(ts))
  }

  lemma TrimStartNext(ts: seq<Token>, i: nat)
    requires i < |ts| && ts[i].kind.Space?
    ensures TrimStart(ts[i..]) == TrimStart(ts[i + 1..])
  {
    assert ts[i..][1..] == ts[i + 1..];
  }

  lemma TrimStartDone(ts: seq<Token>)
    requires ts == [] || !ts[0].kind.Space?
    ensures TrimStart(ts) == ts
  {}

  lemma TrimEndNext(ts: seq<Token>, i: nat, j: nat)
    requires i < j <= |ts| && ts[j - 1].kind.Space?
    ensures TrimEnd(ts[i..j]) == TrimEnd(ts[i..j - 1])
  {
    assert ts[i..j][..j - i - 1] == ts[i..j - 1];
  }

  lemma TrimEndDone(ts: seq<Token>)
    requires ts == [] || !ts[|ts| - 1].kind.Space?
    ensures TrimEnd(ts) == ts
  {}

  method TrimWhitespaceTokens(tokens: seq<Token>) returns (out: seq<Token>)
    ensures out == Stripped(tokens)
    ensures exists i, j :: 0 <= i <= j <= |tokens| && out == tokens[i..j]
                           && forall k :: 0 <= k < i || j <= k < |tokens| ==> tokens[k].kind.Space?
    ensures out != [] ==> !out[0].kind.Space? && !out[|out| - 1].kind.Space?
  {
    var start, end := 0, |tokens|;
    hide TrimStart, TrimEnd;
    assert tokens[0..] == tokens;
    while start < end && tokens[start].kind.Space?
      invariant 0 <= start <= end && TrimStart(tokens) == TrimStart(tokens[start..])
      invariant forall k :: 0 <= k < start ==> tokens[k].kind.Space?
    {
      TrimStartNext(tokens, start);
      start := start + 1;
    }
    TrimStartDone(tokens[start..]);
    assert tokens[start..] == tokens[start..end];
    while end > start && tokens[end - 1].kind.Space?
      invariant start <= end <= |tokens| && TrimEnd(tokens[start..]) == TrimEnd(tokens[start..end])
      invariant forall k :: end <= k < |tokens| ==> tokens[k].kind.Space?
    {
      TrimEndNext(tokens, start, end);
      end := end - 1;
    }
    TrimEndDone(tokens[start..end]);
    out := tokens[start..end];
  }

  predicate NamesRoot(t: Token) {
    Valued(t) && Lower(Unquote(t.data)) == ROOT_HOOK
  }

  /** An attribute selector the rewriter takes for the root. */
  predicate RootAttribute(inner: seq<Token>) {
    inner != [] && inner[0].name == "data-nx" && exists k :: 1 <= k < |inner| && NamesRoot(inner[k])
  }

  /** How many leading tokens are a root reference. */
  function RootTokens(ts: seq<Token>): (n: nat)
    ensures n <= |ts|
  {
    if |ts| >= 2 && ts[0].kind.Colon? && ts[1].kind.Ident? && ts[1].name == "root" then 2
    else if |ts| > 0 && ts[0].kind.LeftBracket? then
      var end := CloseOf(ts, 0);
      if end < |ts| && RootAttribute(Meaningful(ts[1..end])) then end + 1 else 0
    else 0
  }

  /** `:root`, or an attribute selector that names the page root. */
  predicate IsRootReference(ts: seq<Token>) {
    || (|ts| == 2 && ts[0].kind.Colon? && ts[1].kind.Ident? && ts[1].name == "root")
    || (|ts| >= 2 && ts[0].kind.LeftBracket? && ts[|ts| - 1].kind.RightBracket?
        && (forall k :: 0 <= k < |ts| - 1 ==> !ts[k].kind.RightBracket?)
        && RootAttribute(Meaningful(ts[1..|ts| - 1])))
  }

  /** The count is right: it is the one root reference the tokens begin with, if any. */
  lemma RootTokensAre(ts: seq<Token>)
    ensures RootTokens(ts) > 0 ==> IsRootReference(ts[..RootTokens(ts)])
    ensures forall m :: 0 <= m <= |ts| && IsRootReference(ts[..m]) ==> RootTokens(ts) == m > 0
  {
    hide RootAttribute, Meaningful;
    var n := RootTokens(ts);
    if n > 0 && ts[0].kind.LeftBracket? {
      assert ts[..n][1..n - 1] == ts[1..n - 1];
    }
    forall m | 0 <= m <= |ts| && IsRootReference(ts[..m]) ensures n == m > 0 {
      if ts[0].kind.LeftBracket? {
        assert ts[m - 1] == ts[..m][m - 1];
        assert forall k :: 0 <= k < m - 1 ==> ts[k] == ts[..m][k];
        assert CloseOf(ts, 0) == m - 1;
        assert ts[..m][1..m - 1] == ts[1..m - 1];
      }
    }
  }

  method LeadingRootReference(tokens: seq<Token>) returns (n: nat)
    ensures n == RootTokens(tokens)
    ensures n > 0 ==> n <= |tokens| && IsRootReference(tokens[..n])
    ensures n == 0 ==> forall m :: 0 <= m <= |tokens| ==> !IsRootReference(tokens[..m])
  {
    RootTokensAre(tokens);
    hide IsRootReference, Meaningful;
    if |tokens| >= 2 && tokens[0].kind.Colon? && tokens[1].kind.Ident? && tokens[1].name == "root" { return 2; }
    if |tokens| > 0 && tokens[0].kind.LeftBracket? {
      var end := 0;
      while end < |tokens| && !tokens[end].kind.RightBracket?
        invariant 0 <= end <= |tokens| && CloseOf(tokens, 0) == CloseOf(tokens, end)
      {
        end := end + 1;
      }
      if end >= |tokens| { return 0; }
      var inner := MeaningfulTokens(tokens[1..end]);
      if |inner| == 0 || inner[0].name != "data-nx" { return 0; }
      for k := 1 to |inner|
        invariant forall j :: 1 <= j < k ==> !NamesRoot(inner[j])
      {
        if Valued(inner[k]) && Lower(Unquote(inner[k].data)) == ROOT_HOOK { return end + 1; }
      }
    }
    return 0;
  }

  /** `[data-theme="scope"]` */
  function Prefix(scope: string): (p: seq<Token>)
    ensures |p| == 5
  {
    [Token(LeftBracket, "[", "["), Token(Ident, "data-theme", "data-theme"), Token(Delim, "=", "="),
     Token(Str, "\"" + scope + "\"", scope), Token(RightBracket, "]", "]")]
  }

  const BLANK: Token := Token(Space, " ", " ")

  function Scoped(scope: string, part: seq<Token>): seq<Token> {
    var trimmed := Stripped(part);
    var n := RootTokens(trimmed);
    if n > 0 then Prefix(scope) + trimmed[n..] else Prefix(scope) + [BLANK] + trimmed
  }
}
