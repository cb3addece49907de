/** internal/themes/csscompile.go: what the rewriter writes, and that it means
    what the author wrote, with the theme root for the document's. */
module CssCompile {
  import opened Prelude
  import opened CssSelectors
  import opened CssSemantics
  import opened CssConfinement
  import opened CssExactness

  function WithoutComments(ts: seq<Token>): seq<Token> {
    if ts == [] then []
    else
      var n := |ts| - 1;
      WithoutComments(ts[..n]) + if ts[n].kind.Comment? then [] else [ts[n]]
  }

  /** Matching of a source whose first compound opens with a root reference: it
      stands for the theme root and nothing else, the rest of the compound and all
      other compounds mean what they mean. */
  ghost predicate MatchesFromRoot(d: Dom, scope: string, root: nat, means: Meaning, lead: seq<Token>,
                                  steps: seq<Step>, e: nat)
    requires IsDom(d) && e < |d| && steps != []
    decreases |steps|
  {
    var n := |steps| - 1;
    var compound := steps[n].compound;
    if n == 0 then e == root && lead <= compound && means(compound[|lead|..], e)
    else
      && CompoundMatches(scope, root, means, compound, e)
      && exists a :: 0 <= a < |d| && Related(d, steps[n].comb, a, e)
                     && MatchesFromRoot(d, scope, root, means, lead, steps[..n], a)
  }

  /** What the author's text selects under a theme root: from the root if it begins
      with a root reference, otherwise by a chain strictly below it. */
  ghost predicate SourceSelects(d: Dom, scope: string, root: nat, means: Meaning, ts: seq<Token>, e: nat)
    requires IsDom(d) && e < |d|
  {
    var source := ReadAll(FRESH, ts);
    var n := RootTokens(ts);
    && WellFormed(source)
    && if n > 0 then MatchesFromRoot(d, scope, root, means, WithoutComments(ts[..n]), source.steps, e)
       else MatchesBelow(d, scope, root, means, source.steps, e)
  }

  // ---------------------------------------------- reading a root reference

  function Inside(c: seq<Token>): Reader {
    Reader([Step(First, c)], First, 0, true, false)
  }

  lemma {:induction false} ReadInside(c: seq<Token>, ts: seq<Token>)
    requires forall k :: 0 <= k < |ts| ==> !ts[k].kind.RightBracket?
    ensures ReadAll(Inside(c), ts) == Inside(c + WithoutComments(ts))
  {
    if ts == [] {
      assert c + [] == c;
    } else {
      var n := |ts| - 1;
      ReadInside(c, ts[..n]);
      var more := c + WithoutComments(ts[..n]);
      if ts[n].kind.Comment? {
        assert WithoutComments(ts) == WithoutComments(ts[..n]) + [] == WithoutComments(ts[..n]);
      } else {
        InsideRead(more, ts[n]);
        assert more + [ts[n]] == c + (WithoutComments(ts[..n]) + [ts[n]]);
      }
    }
  }

  /** A root reference reads as one open compound. */
  lemma ReadReference(ref: seq<Token>)
    requires IsRootReference(ref)
    ensures ReadAll(FRESH, ref) == Reader([Step(First, WithoutComments(ref))], First, 0, false, false)
  {
    hide RootAttribute, Meaningful, ReadAll, Read;
    var n := |ref| - 1;
    var inner, last := ref[1..n], ref[n];
    assert ref == [ref[0]] + inner + [last];
    var r := Reader([Step(First, [ref[0]])], First, 0, ref[0].kind.LeftBracket?, false);
    ReadLead(ref[0]);
    ReadLeft(FRESH, ref);
    assert ref[1..] == inner + [last];
    ReadAllConcat(r, inner, [last]);
    if ref[0].kind.LeftBracket? {
      ReadInside([ref[0]], inner);
    } else {
      assert inner == [];
      ReadNothing(r);
      assert r.steps[0].compound + WithoutComments(inner) == [ref[0]];
    }
    var c := [ref[0]] + WithoutComments(inner);
    ReadLast(c, r.bracket, last);
    LoudEnds(ref[0], inner, last);
  }

  lemma ReadLead(t: Token)
    requires t.kind.Colon? || t.kind.LeftBracket?
    ensures Read(FRESH, t) == Reader([Step(First, [t])], First, 0, t.kind.LeftBracket?, false)
  {}

  lemma ReadLast(c: seq<Token>, bracket: bool, t: Token)
    requires if bracket then t.kind.RightBracket? else t.kind.Ident?
    ensures ReadAll(Reader([Step(First, c)], First, 0, bracket, false), [t])
            == Reader([Step(First, c + [t])], First, 0, false, false)
  {
    var r := Reader([Step(First, c)], First, 0, bracket, false);
    ReadLeft(r, [t]);
    assert [t][1..] == [];
  }

  lemma LoudEnds(first: Token, inner: seq<Token>, last: Token)
    requires !first.kind.Comment? && !last.kind.Comment?
    ensures WithoutComments([first] + inner + [last]) == [first] + WithoutComments(inner) + [last]
  {
    LoudConcat([first], inner);
    LoudConcat([first] + inner, [last]);
    assert [first][..0] == [] && [last][..0] == [];
    assert WithoutComments([first]) == [first] && WithoutComments([last]) == [last];
  }

  lemma {:induction false} LoudConcat(a: seq<Token>, b: seq<Token>)
    ensures WithoutComments(a + b) == WithoutComments(a) + WithoutComments(b)
  {
    if b == [] {
      assert a + b == a;
    } else {
      var n := |b| - 1;
      assert (a + b)[..|a + b| - 1] == a + b[..n];
      LoudConcat(a, b[..n]);
    }
  }

  // ------------------------------------- source and rewrite, side by side

  /** The two readers agree but for what the first compound opens with. */
  predicate Rerooted(scope: string, lead: seq<Token>, s: Reader, c: Reader) {
    && s.steps != [] && s.steps[0].comb == First && lead <= s.steps[0].compound
    && c == s.(steps := s.steps[0 := Step(First, Prefix(scope) + s.steps[0].compound[|lead|..])])
  }

  lemma ReadRerooted(scope: string, lead: seq<Token>, s: Reader, c: Reader, t: Token)
    requires Rerooted(scope, lead, s, c)
    ensures Rerooted(scope, lead, Read(s, t), Read(c, t))
  {
    ExtendRerooted(scope, lead, s, c, t);
    hide Extend;
  }

  lemma ExtendRerooted(scope: string, lead: seq<Token>, s: Reader, c: Reader, t: Token)
    requires Rerooted(scope, lead, s, c)
    ensures Rerooted(scope, lead, Extend(s, t), Extend(c, t))
  {
    var x, y := Extend(s, t), Extend(c, t);
    var head := s.steps[0].compound;
    if s.gap == First && |s.steps| == 1 {
      assert (head + [t])[|lead|..] == head[|lead|..] + [t];
      assert Prefix(scope) + (head[|lead|..] + [t]) == Prefix(scope) + head[|lead|..] + [t];
    }
    assert y.steps == x.steps[0 := Step(First, Prefix(scope) + x.steps[0].compound[|lead|..])];
  }

  lemma {:induction false} ReadAllRerooted(scope: string, lead: seq<Token>, s: Reader, c: Reader, ts: seq<Token>)
    requires Rerooted(scope, lead, s, c)
    ensures Rerooted(scope, lead, ReadAll(s, ts), ReadAll(c, ts))
  {
    if ts != [] {
      var n := |ts| - 1;
      ReadAllRerooted(scope, lead, s, c, ts[..n]);
      ReadRerooted(scope, lead, ReadAll(s, ts[..n]), ReadAll(c, ts[..n]), ts[n]);
    }
  }

  lemma {:induction false} RerootedMatches(d: Dom, scope: string, root: nat, means: Meaning, lead: seq<Token>,
                                           steps: seq<Step>, e: nat)
    requires IsDom(d) && e < |d| && steps != [] && lead <= steps[0].compound
    ensures Matches(d, scope, root, means,
                steps[0 := Step(First, Prefix(scope) + steps[0].compound[|lead|..])], e)
            <==> MatchesFromRoot(d, scope, root, means, lead, steps, e)
    decreases |steps|
  {
    var n := |steps| - 1;
    var head := Step(First, Prefix(scope) + steps[0].compound[|lead|..]);
    var scoped := steps[0 := head];
    if n == 0 {
      assert head.compound[|Prefix(scope)|..] == steps[0].compound[|lead|..];
    } else {
      assert scoped[..n] == steps[..n][0 := head] && scoped[n] == steps[n];
      forall a: nat | a < |d|
        ensures Matches(d, scope, root, means, scoped[..n], a)
                <==> MatchesFromRoot(d, scope, root, means, lead, steps[..n], a)
      {
        RerootedMatches(d, scope, root, means, lead, steps[..n], a);
      }
    }
  }

  /** A root reference replaced by the scope attribute: the text selects just what
      the author's selects with the reference standing for the theme root. */
  lemma RerootingIsExact(scope: string, ref: seq<Token>, rest: seq<Token>, d: Dom, root: nat, means: Meaning, e: nat)
    requires IsRootReference(ref) && IsDom(d) && e < |d|
    ensures var source := ReadAll(FRESH, ref + rest);
            Selects(d, scope, root, means, Prefix(scope) + rest, e)
            <==> WellFormed(source) && MatchesFromRoot(d, scope, root, means, WithoutComments(ref), source.steps, e)
  {
    hide IsRootReference, Matches, MatchesFromRoot, WithoutComments;
    var lead := WithoutComments(ref);
    ReadReference(ref);
    ReadPrefix(scope);
    ReadAllConcat(FRESH, ref, rest);
    ReadAllConcat(FRESH, Prefix(scope), rest);
    assert Prefix(scope) + lead[|lead|..] == Prefix(scope);
    ReadAllRerooted(scope, lead, ReadAll(FRESH, ref), AtRoot(scope), rest);
    RerootedMatches(d, scope, root, means, lead, ReadAll(FRESH, ref + rest).steps, e);
  }

  // ------------------------------------------------------------ the rewriter

  /** In every document the compiled text selects just what the source selects. */
  ghost predicate SameSelection(scope: string, source: seq<Token>, compiled: seq<Token>) {
    forall d: Dom, root: nat, means: Meaning, e: nat {:trigger Selects(d, scope, root, means, compiled, e)} ::
      IsDom(d) && e < |d| && (RootTokens(source) == 0 ==> means([], root))
      ==> (Selects(d, scope, root, means, compiled, e) <==> SourceSelects(d, scope, root, means, source, e))
  }

  /** The source says where to begin: at a root reference or with a compound. */
  predicate Begins(source: seq<Token>) {
    RootTokens(source) > 0 || (FirstLoud(source).Some? && !LeadsWithCombinator(source))
  }

  lemma ScopedSelection(scope: string, part: seq<Token>)
    requires Begins(Stripped(part))
    ensures SameSelection(scope, Stripped(part), Scoped(scope, part))
  {
    var source, compiled := Stripped(part), Scoped(scope, part);
    var n := RootTokens(source);
    RootTokensAre(source);
    hide RootTokens, Stripped, FirstLoud, Matches, MatchesBelow, MatchesFromRoot, ReadAll, IsRootReference;
    forall d: Dom, root: nat, means: Meaning, e: nat
      | IsDom(d) && e < |d| && (n == 0 ==> means([], root))
      ensures Selects(d, scope, root, means, compiled, e) <==> SourceSelects(d, scope, root, means, source, e)
    {
      if n > 0 {
        assert source == source[..n] + source[n..];
        RerootingIsExact(scope, source[..n], source[n..], d, root, means, e);
      } else {
        ScopingIsExact(scope, part, d, root, means, e);
      }
    }
  }

  method ScopeOne(scope: string, tokens: seq<Token>) returns (out: seq<Token>)
    ensures out == Scoped(scope, tokens)
    ensures Begins(Stripped(tokens)) ==> SameSelection(scope, Stripped(tokens), out)
  {
    hide Begins, SameSelection;
    var prefix := Prefix(scope);
    var trimmed := TrimWhitespaceTokens(tokens);
    if Begins(trimmed) {
      ScopedSelection(scope, tokens);
    }
    var consumed := LeadingRootReference(trimmed);
    if consumed > 0 {
      return prefix + trimmed[consumed..];
    }
    return prefix + [BLANK] + trimmed;
  }

  /** compiler.selector outside @keyframes: every selector of the list scoped. */
  method Selector(scope: string, values: seq<Token>) returns (scoped: seq<seq<Token>>)
    ensures |scoped| == |Split(values)|
    ensures forall i :: 0 <= i < |scoped| ==> scoped[i] == Scoped(scope, Split(values)[i])
    ensures forall i :: 0 <= i < |scoped| && Begins(Stripped(Split(values)[i]))
                        ==> SameSelection(scope, Stripped(Split(values)[i]), scoped[i])
  {
    hide Begins, SameSelection, Scoped, Split, Stripped;
    var parts := SplitSelectorList(values);
    scoped := [];
    for i := 0 to |parts|
      invariant |scoped| == i
      invariant forall j :: 0 <= j < i ==> scoped[j] == Scoped(scope, parts[j])
      invariant forall j :: 0 <= j < i && Begins(Stripped(parts[j]))
                            ==> SameSelection(scope, Stripped(parts[j]), scoped[j])
    {
      var one := ScopeOne(scope, parts[i]);
      scoped := scoped + [one];
    }
  }
}
