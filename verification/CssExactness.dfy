/** Without a root reference a compiled selector selects exactly what the source
    selects strictly below the root; and where the validator's promise ends. */
module CssExactness {
  import opened Prelude
  import opened Text
  import opened CssSelectors
  import opened CssSemantics
  import opened CssConfinement

  function Demoted(steps: seq<Step>): seq<Step>
    requires steps != []
  {
    steps[0 := steps[0].(comb := Descendant)]
  }

  /** The reader of the source and the reader of the rewrite, side by side. */
  predicate InStep(scope: string, s: Reader, c: Reader) {
    && c.depth == s.depth && c.bracket == s.bracket && c.bad == s.bad
    && if s.steps == [] then s == FRESH && c == AtRoot(scope).(gap := Descendant)
       else c.gap == s.gap && c.steps == [Step(First, Prefix(scope))] + Demoted(s.steps)
  }

  predicate LeadsWithCombinator(ts: seq<Token>) {
    FirstLoud(ts).Some? && CombinatorOf(FirstLoud(ts).value).Some?
  }

  lemma ReadInStep(scope: string, s: Reader, c: Reader, t: Token)
    requires InStep(scope, s, c) && (s.steps == [] ==> CombinatorOf(t) == None)
    ensures InStep(scope, Read(s, t), Read(c, t))
    ensures s.steps == [] && Silent(t) ==> Read(s, t) == s
    ensures s.steps != [] || !Silent(t) ==> Read(s, t).steps != []
  {}

  lemma {:induction false} ReadAllInStep(scope: string, s: Reader, c: Reader, ts: seq<Token>)
    requires InStep(scope, s, c) && (s.steps == [] ==> !LeadsWithCombinator(ts))
    ensures InStep(scope, ReadAll(s, ts), ReadAll(c, ts))
    ensures s.steps != [] || FirstLoud(ts).Some? ==> ReadAll(s, ts).steps != []
    decreases |ts|
  {
    if ts != [] {
      ReadLeft(s, ts);
      ReadLeft(c, ts);
      ReadInStep(scope, s, c, ts[0]);
      hide Read, InStep;
      ReadAllInStep(scope, Read(s, ts[0]), Read(c, ts[0]), ts[1..]);
    }
  }

  /** Prefixing the root turns matching into matching strictly below it. */
  lemma {:induction false} PrefixedMatches(d: Dom, scope: string, root: nat, means: Meaning, steps: seq<Step>, e: nat)
    requires IsDom(d) && e < |d| && steps != [] && means([], root)
    ensures Matches(d, scope, root, means, [Step(First, Prefix(scope))] + Demoted(steps), e)
            <==> MatchesBelow(d, scope, root, means, steps, e)
    decreases |steps|
  {
    var n := |steps| - 1;
    var scoped := [Step(First, Prefix(scope))] + Demoted(steps);
    if n == 0 {
      OneStep(d, scope, root, means, steps, e);
    } else {
      assert scoped[..n + 1] == [Step(First, Prefix(scope))] + Demoted(steps[..n]);
      assert scoped[n + 1] == steps[n];
      forall a: nat | a < |d|
        ensures Matches(d, scope, root, means, scoped[..n + 1], a)
                <==> MatchesBelow(d, scope, root, means, steps[..n], a)
      {
        PrefixedMatches(d, scope, root, means, steps[..n], a);
      }
      forall a: nat | a < |d| && Related(d, steps[n].comb, a, e) && MatchesBelow(d, scope, root, means, steps[..n], a)
        ensures Below(d, root, e)
      {
        BelowStep(d, root, a, steps[n].comb, e);
      }
    }
  }

  lemma {:induction false} AncestorExists(d: Dom, top: nat, e: nat)
    requires IsDom(d) && e < |d| && Below(d, top, e)
    ensures top < |d|
    decreases e
  {
    if d[e] != top {
      assert Below(d, top, d[e]);
      AncestorExists(d, top, d[e]);
    }
  }

  lemma OneStep(d: Dom, scope: string, root: nat, means: Meaning, steps: seq<Step>, e: nat)
    requires IsDom(d) && e < |d| && |steps| == 1 && means([], root)
    ensures Matches(d, scope, root, means, [Step(First, Prefix(scope))] + Demoted(steps), e)
            <==> MatchesBelow(d, scope, root, means, steps, e)
  {
    var p := Step(First, Prefix(scope));
    var scoped := [p] + Demoted(steps);
    assert scoped[..1] == [p] && scoped[1] == steps[0].(comb := Descendant);
    assert Prefix(scope)[|Prefix(scope)|..] == [];
    if Below(d, root, e) {
      AncestorExists(d, root, e);
      assert Matches(d, scope, root, means, scoped[..1], root);
    }
  }

  /** Scoping is exact: a selector with no root reference selects, once compiled,
      just the elements the source selects by a chain strictly below the root. */
  lemma ScopingIsExact(scope: string, part: seq<Token>, d: Dom, root: nat, means: Meaning, e: nat)
    requires RootTokens(Stripped(part)) == 0 && FirstLoud(Stripped(part)).Some? && !LeadsWithCombinator(Stripped(part))
    requires IsDom(d) && e < |d| && means([], root)
    ensures var source := ReadAll(FRESH, Stripped(part));
            Selects(d, scope, root, means, Scoped(scope, part), e)
            <==> WellFormed(source) && MatchesBelow(d, scope, root, means, source.steps, e)
  {
    var u := Stripped(part);
    ReadPrefix(scope);
    assert Prefix(scope) + [BLANK] + u == Prefix(scope) + ([BLANK] + u);
    ReadAllConcat(FRESH, Prefix(scope), [BLANK] + u);
    ReadLeft(AtRoot(scope), [BLANK] + u);
    assert ([BLANK] + u)[1..] == u;
    ReadAllInStep(scope, FRESH, Read(AtRoot(scope), BLANK), u);
    PrefixedMatches(d, scope, root, means, ReadAll(FRESH, u).steps, e);
  }

  /** In every document, however compounds are understood, what the rewritten
      selector selects is the root or below it. */
  ghost predicate Sound(scope: string, part: seq<Token>) {
    forall d: Dom, root: nat, means: Meaning,
        e: nat {:trigger Selects(d, scope, root, means, Scoped(scope, part), e)} ::
      IsDom(d) && e < |d| && Selects(d, scope, root, means, Scoped(scope, part), e) ==> Within(d, root, e)
  }

  /** Soundness of one rewritten selector is a condition on its first combinator. */
  lemma SoundIffSafe(scope: string, part: seq<Token>)
    requires var r := ReadAll(FRESH, Scoped(scope, part)); WellFormed(r) && ScopeFree(scope, r.steps)
    ensures Sound(scope, part) <==> Safe(scope, part)
  {
    if Safe(scope, part) {
      forall d: Dom, root: nat, means: Meaning, e: nat
        | IsDom(d) && e < |d| && Selects(d, scope, root, means, Scoped(scope, part), e)
        ensures Within(d, root, e)
      {
        SafeIsSound(scope, part, d, root, means, e);
      }
    } else {
      var d, e := UnsafeEscapes(scope, part);
    }
  }

  // --------------------------------------------------- where the promise ends

  const PLUS: Token := Token(Delim, "+", "+")
  const NAME: Token := Token(Ident, "a", "a")
  const COLON: Token := Token(Colon, ":", ":")
  const ROOT: Token := Token(Ident, "root", "root")
  const CALL: Token := Token(Function, "is(", "is")
  const COMMA: Token := Token(CssSelectors.Comma, ",", ",")
  const END: Token := Token(RightParen, ")", ")")

  lemma {:induction false} SplitWhole(ts: seq<Token>)
    requires forall c :: 0 <= c < |ts| && ts[c].kind.Comma? ==> Depth(ts[..c]) > 0
    ensures Split(ts) == [ts]
  {
    if ts != [] {
      var n := |ts| - 1;
      assert forall c :: 0 <= c < n ==> ts[..n][..c] == ts[..c];
      SplitWhole(ts[..n]);
      SplitLast(ts);
      assert [ts[..n]][..0] == [] && ts[..n] + [ts[n]] == ts;
    }
  }

  lemma {:induction false} DepthAtComma(a: seq<Token>, b: seq<Token>)
    requires Depth(a) == 0
    ensures Depth(a + b) == Depth(b)
  {
    if b == [] {
      assert a + b == a;
    } else {
      assert (a + b)[..|a + b| - 1] == a + b[..|b| - 1];
      DepthAtComma(a, b[..|b| - 1]);
    }
  }

  /** One more token: a new part, or more of the last. */
  function Cut(parts: seq<seq<Token>>, last: Token, cut: bool): seq<seq<Token>>
    requires parts != []
  {
    if cut then parts + [[]] else parts[..|parts| - 1] + [parts[|parts| - 1] + [last]]
  }

  lemma CutLast(ts: seq<Token>, last: Token, cut: bool)
    requires cut <==> last.kind.Comma? && Depth(ts) == 0
    ensures Split(ts + [last]) == Cut(Split(ts), last, cut)
  {
    assert (ts + [last])[..|ts|] == ts;
    SplitLast(ts + [last]);
  }

  lemma CutBoth(ts: seq<Token>, b: seq<Token>, last: Token, parts: seq<seq<Token>>)
    requires Depth(ts) == Depth(b) && Split(ts) == parts + Split(b)
    ensures Split(ts + [last]) == parts + Split(b + [last])
  {
    hide Split, Depth, Cut;
    var cut := last.kind.Comma? && Depth(b) == 0;
    CutLast(ts, last, cut);
    CutLast(b, last, cut);
    CutOfTwo(parts, Split(b), last, cut);
  }

  lemma CutOfTwo(x: seq<seq<Token>>, y: seq<seq<Token>>, t: Token, cut: bool)
    requires y != []
    ensures Cut(x + y, t, cut) == x + Cut(y, t, cut)
  {}

  /** With `SplitWhole`: the list is cut at every comma that stands at depth 0. */
  lemma {:induction false} SplitAtComma(a: seq<Token>, comma: Token, b: seq<Token>)
    requires comma.kind.Comma? && Depth(a) == 0
    ensures Split(a + [comma] + b) == Split(a) + Split(b)
  {
    if b == [] {
      assert a + [comma] + b == a + [comma] && Split(b) == [[]];
      CutLast(a, comma, true);
    } else {
      var n := |b| - 1;
      SplitAtComma(a, comma, b[..n]);
      DepthOfCut(a, comma);
      DepthAtComma(a + [comma], b[..n]);
      hide Split, Depth;
      var ts := a + [comma] + b[..n];
      CutBoth(ts, b[..n], b[n], Split(a));
      assert b[..n] + [b[n]] == b && ts + [b[n]] == a + [comma] + b;
    }
  }

  lemma DepthOfCut(a: seq<Token>, comma: Token)
    requires comma.kind.Comma? && Depth(a) == 0
    ensures Depth(a + [comma]) == 0
  {
    assert (a + [comma])[..|a|] == a;
  }

  /** What is read after the prefix and before a first sibling combinator. */
  lemma SidewaysRead(scope: string, r: Reader, more: seq<Token>)
    requires Rooted(scope, r) && |r.steps| == 1 && r.gap == First && r.depth == 0 && !r.bracket && !r.bad
    requires more == [PLUS, NAME]
    ensures var q := ReadAll(r, more); WellFormed(q) && !GoesDown(q.steps) && ScopeFree(scope, q.steps)
  {
    ReadLeft(r, more);
    assert more[1..] == [NAME];
    ReadLeft(Read(r, PLUS), [NAME]);
    assert [NAME][1..] == [];
    var q := ReadAll(r, more);
    assert q.steps == r.steps + [Step(Adjacent, [NAME])];
    assert |Prefix(scope)| > |q.steps[1].compound|;
  }

  /** `+a`: accepted, no root reference, compiled to a sibling of the root. */
  lemma LeadingSiblingEscapes(scope: string) returns (ts: seq<Token>)
    ensures ts == [PLUS, NAME]
    ensures Accepts({}, ts, 0, false) && FlatCommas(ts) && SingleValued(ts)
    ensures Split(ts) == [ts] && !Safe(scope, ts)
    ensures WellFormed(ReadAll(FRESH, Scoped(scope, ts)))
  {
    hide Depth, Accepts, ReadAll, GoesDown, Judge, CloseOf, OneValue, Split;
    ts := [PLUS, NAME];
    LeadingAccepted(ts);
    SplitWhole(ts);
    var rest := [BLANK] + ts;
    ReadPrefix(scope);
    assert Prefix(scope) + [BLANK] + ts == Prefix(scope) + rest;
    ReadAllConcat(FRESH, Prefix(scope), rest);
    ReadLeft(AtRoot(scope), rest);
    assert rest[1..] == ts;
    LeadingRead(scope, ts);
  }

  lemma LeadingAccepted(ts: seq<Token>)
    requires ts == [PLUS, NAME]
    ensures Accepts({}, ts, 0, false)
  {
    hide Judge, CloseOf, Accepts;
    assert Prev(ts, 1) == 0;
    AcceptsEnd({}, ts, false);
    AcceptsTurn({}, ts, 1, false);
    AcceptsTurn({}, ts, 0, false);
  }

  lemma LeadingRead(scope: string, ts: seq<Token>)
    requires ts == [PLUS, NAME]
    ensures var q := ReadAll(Read(AtRoot(scope), BLANK), ts); WellFormed(q) && !GoesDown(q.steps)
  {
    var r1 := Read(AtRoot(scope), BLANK);
    ReadLeft(r1, ts);
    assert ts[1..] == [NAME];
    ReadLeft(Read(r1, PLUS), [NAME]);
    assert [NAME][1..] == [];
    assert ReadAll(r1, ts) == Reader([Step(First, Prefix(scope)), Step(Adjacent, [NAME])], First, 0, false, false);
  }

  /** `:root:is(a,a)+a`: the nested comma makes the validator forget the root. */
  lemma NestedCommaEscapes(scope: string) returns (ts: seq<Token>)
    ensures ts == [COLON, ROOT, COLON, CALL, NAME, COMMA, NAME, END, PLUS, NAME]
    ensures Accepts({}, ts, 0, false) && SingleValued(ts) && !FlatCommas(ts)
    ensures Split(ts) == [ts] && RootTokens(Stripped(ts)) == 2
    ensures !Safe(scope, ts) && WellFormed(ReadAll(FRESH, Scoped(scope, ts)))
  {
    hide Depth, Accepts, ReadAll, GoesDown, Judge, CloseOf, Meaningful, RootAttribute, OneValue, Split, OutsideBrackets,
         Stripped, WellFormed;
    ts := [COLON, ROOT, COLON, CALL, NAME, COMMA, NAME, END, PLUS, NAME];
    NestedAccepted(ts);
    NestedDepth(ts);
    SplitWhole(ts);
    NestedStripped(ts);
    var rest := ts[2..];
    assert rest == [COLON, CALL, NAME, COMMA, NAME, END] + [PLUS, NAME];
    var head := [COLON, CALL, NAME, COMMA, NAME, END];
    assert Scoped(scope, ts) == Prefix(scope) + rest;
    ReadPrefix(scope);
    ReadAllConcat(FRESH, Prefix(scope), rest);
    ReadAllConcat(AtRoot(scope), head, [PLUS, NAME]);
    ReadAllRooted(scope, AtRoot(scope), head);
    NestedHead(scope, head);
    SidewaysRead(scope, ReadAll(AtRoot(scope), head), [PLUS, NAME]);
  }

  lemma NestedStripped(ts: seq<Token>)
    requires ts == [COLON, ROOT, COLON, CALL, NAME, COMMA, NAME, END, PLUS, NAME]
    ensures Stripped(ts) == ts && RootTokens(ts) == 2
  {}

  lemma NestedAccepted(ts: seq<Token>)
    requires ts == [COLON, ROOT, COLON, CALL, NAME, COMMA, NAME, END, PLUS, NAME]
    ensures Accepts({}, ts, 0, false)
  {
    hide Judge, CloseOf, Accepts;
    assert Prev(ts, 9) == 8 && Prev(ts, 6) == 5 && Prev(ts, 4) == 3 && Prev(ts, 1) == 0;
    assert Next(ts, 0) == 1 && Next(ts, 2) == 3;
    AcceptsEnd({}, ts, false);
    AcceptsTurn({}, ts, 9, false);
    AcceptsTurn({}, ts, 8, false);
    AcceptsTurn({}, ts, 7, false);
    AcceptsTurn({}, ts, 6, false);
    AcceptsTurn({}, ts, 5, true);
    AcceptsTurn({}, ts, 4, true);
    AcceptsTurn({}, ts, 3, true);
    AcceptsTurn({}, ts, 2, true);
    AcceptsTurn({}, ts, 1, true);
    AcceptsTurn({}, ts, 0, false);
  }

  lemma DepthEmpty()
    ensures forall ts: seq<Token> :: ts == [] ==> Depth(ts) == 0
  {}

  lemma DepthNext(ts: seq<Token>, i: nat)
    requires i < |ts|
    ensures var d := Depth(ts[..i]);
            Depth(ts[..i + 1])
            == if ts[i].kind.Function? then d + 1 else if ts[i].kind.RightParen? && d > 0 then d - 1 else d
  {
    assert ts[..i + 1][..i] == ts[..i];
  }

  lemma NestedDepth(ts: seq<Token>)
    requires ts == [COLON, ROOT, COLON, CALL, NAME, COMMA, NAME, END, PLUS, NAME]
    ensures Depth(ts[..5]) == 1
  {
    hide Depth;
    assert Depth(ts[..0]) == 0 by { DepthEmpty(); }
    DepthNext(ts, 0);
    DepthNext(ts, 1);
    DepthNext(ts, 2);
    DepthNext(ts, 3);
    DepthNext(ts, 4);
  }

  lemma NestedHead(scope: string, head: seq<Token>)
    requires head == [COLON, CALL, NAME, COMMA, NAME, END]
    ensures var r := ReadAll(AtRoot(scope), head);
            |r.steps| == 1 && r.gap == First && r.depth == 0 && !r.bracket && !r.bad
  {
    hide ReadAll;
    assert head[..0] == [] && head[..6] == head;
    ReadNothing(AtRoot(scope));
    for i := 0 to 6
      invariant var r := ReadAll(AtRoot(scope), head[..i]);
                |r.steps| == 1 && r.gap == First && !r.bracket && !r.bad && r.depth == if 2 <= i <= 5 then 1 else 0
    {
      ReadMore(AtRoot(scope), head, i);
    }
  }

  lemma ReadNothing(r: Reader)
    ensures ReadAll(r, []) == r
  {}

  lemma ReadMore(r: Reader, ts: seq<Token>, i: nat)
    requires i < |ts|
    ensures ReadAll(r, ts[..i + 1]) == Read(ReadAll(r, ts[..i]), ts[i])
  {
    assert ts[..i + 1][..i] == ts[..i];
  }

  const OPEN: Token := Token(LeftBracket, "[", "[")
  const CLOSE: Token := Token(RightBracket, "]", "]")
  const ATTR: Token := Token(Ident, "data-nx", "data-nx")
  const EQUALS: Token := Token(Delim, "=", "=")
  const HOOK: Token := Token(Ident, "page-root", "page-root")
  const OTHER: Token := Token(Ident, "navbar", "navbar")

  /** `[data-nx=page-root navbar]+a`: the validator looks at the last value, the
      rewriter at any, so what the one takes for the bar the other takes for the root. */
  lemma SecondValueEscapes(scope: string, hooks: set<string>) returns (ts: seq<Token>)
    requires "navbar" in hooks
    ensures ts == [OPEN, ATTR, EQUALS, HOOK, BLANK, OTHER, CLOSE, PLUS, NAME]
    ensures Accepts(hooks, ts, 0, false) && FlatCommas(ts) && !SingleValued(ts)
    ensures Split(ts) == [ts] && RootTokens(Stripped(ts)) == 7
    ensures !Safe(scope, ts) && WellFormed(ReadAll(FRESH, Scoped(scope, ts)))
  {
    hide Depth, Accepts, ReadAll, GoesDown, Judge, CloseOf, Meaningful, RootAttribute, OneValue, Split, SingleValued,
         OutsideBrackets, Stripped, RootTokens;
    ts := [OPEN, ATTR, EQUALS, HOOK, BLANK, OTHER, CLOSE, PLUS, NAME];
    SplitWhole(ts);
    SecondValueStripped(ts);
    SecondValueAccepted(ts, hooks);
    ReadPrefix(scope);
    assert ts[7..] == [PLUS, NAME];
    ReadAllConcat(FRESH, Prefix(scope), [PLUS, NAME]);
    SidewaysRead(scope, AtRoot(scope), [PLUS, NAME]);
  }

  lemma SecondValueStripped(ts: seq<Token>)
    requires ts == [OPEN, ATTR, EQUALS, HOOK, BLANK, OTHER, CLOSE, PLUS, NAME]
    ensures Stripped(ts) == ts
  {}

  lemma SecondValueAccepted(ts: seq<Token>, hooks: set<string>)
    requires "navbar" in hooks
    requires ts == [OPEN, ATTR, EQUALS, HOOK, BLANK, OTHER, CLOSE, PLUS, NAME]
    ensures Accepts(hooks, ts, 0, false) && !SingleValued(ts) && RootTokens(ts) == 7
  {
    hide Judge, CloseOf, Meaningful, RootAttribute, OneValue, Accepts;
    CloseAtSix(ts);
    var inner := ts[1..6];
    assert inner == [ATTR, EQUALS, HOOK, BLANK, OTHER];
    SecondInner(inner);
    SecondJudged(Meaningful(inner), hooks);
    SecondRest(ts, hooks);
    AcceptsTurn(hooks, ts, 0, false);
  }

  lemma SecondRest(ts: seq<Token>, hooks: set<string>)
    requires ts == [OPEN, ATTR, EQUALS, HOOK, BLANK, OTHER, CLOSE, PLUS, NAME]
    ensures Accepts(hooks, ts, 7, false)
  {
    hide Judge, CloseOf, Accepts;
    assert Prev(ts, 8) == 7;
    AcceptsEnd(hooks, ts, false);
    AcceptsTurn(hooks, ts, 8, false);
    AcceptsTurn(hooks, ts, 7, false);
  }

  lemma SecondJudged(inner: seq<Token>, hooks: set<string>)
    requires "navbar" in hooks
    requires inner == [ATTR, EQUALS, HOOK, OTHER]
    ensures Judge(hooks, inner) == Plain && RootAttribute(inner) && !OneValue(inner)
  {
    assert Valued(inner[2]) && Valued(inner[3]);
    assert inner[1..] == [EQUALS, HOOK, OTHER];
    assert Lower("navbar") == "navbar";
    assert Lower("page-root") == "page-root";
    assert NamesRoot(inner[2]);
  }

  lemma CloseAtSix(ts: seq<Token>)
    requires ts == [OPEN, ATTR, EQUALS, HOOK, BLANK, OTHER, CLOSE, PLUS, NAME]
    ensures CloseOf(ts, 0) == 6
  {
    assert CloseOf(ts, 5) == 6 && CloseOf(ts, 4) == 6 && CloseOf(ts, 3) == 6 && CloseOf(ts, 2) == 6;
  }

  lemma SecondInner(inner: seq<Token>)
    requires inner == [ATTR, EQUALS, HOOK, BLANK, OTHER]
    ensures Meaningful(inner) == [ATTR, EQUALS, HOOK, OTHER]
  {
    assert inner[1..] == [EQUALS, HOOK, BLANK, OTHER] && inner[1..][1..] == [HOOK, BLANK, OTHER];
    assert inner[1..][1..][1..] == [BLANK, OTHER] && [BLANK, OTHER][1..] == [OTHER];
    assert Meaningful([OTHER]) == [OTHER] && Meaningful([BLANK, OTHER]) == [OTHER];
    assert Meaningful([HOOK, BLANK, OTHER]) == [HOOK, OTHER];
  }
}
