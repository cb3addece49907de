/** What the validator and the rewriter achieve together: where a compiled
    selector can reach, and exactly what it selects. */
module CssConfinement {
  import opened Prelude
  import opened Text
  import opened CssSelectors
  import opened CssSemantics

  // ------------------------------------------------------ reading a rewrite

  /** The reader after the scope prefix. */
  function AtRoot(scope: string): Reader {
    Reader([Step(First, Prefix(scope))], First, 0, false, false)
  }

  lemma ReadPrefix(scope: string)
    ensures ReadAll(FRESH, Prefix(scope)) == AtRoot(scope)
  {
    hide Read;
    var p := Prefix(scope);
    FirstRead(p[0]);
    var r := Read(FRESH, p[0]);
    assert p[..1] == [p[0]];
    ReadLeft(FRESH, p);
    for i := 1 to 4
      invariant r == Reader([Step(First, p[..i])], First, 0, true, false)
      invariant ReadAll(FRESH, p) == ReadAll(r, p[i..])
    {
      ReadLeft(r, p[i..]);
      InsideRead(p[..i], p[i]);
      assert p[i..][1..] == p[i + 1..] && p[..i] + [p[i]] == p[..i + 1];
      r := Read(r, p[i]);
    }
    ReadLeft(r, p[4..]);
    LastRead(p[..4], p[4]);
    assert p[4..][1..] == [] && p[..4] + [p[4]] == p;
  }

  lemma FirstRead(t: Token)
    requires t.kind.LeftBracket?
    ensures Read(FRESH, t) == Reader([Step(First, [t])], First, 0, true, false)
  {}

  lemma InsideRead(ts: seq<Token>, t: Token)
    requires !t.kind.RightBracket? && !t.kind.Comment?
    ensures Read(Reader([Step(First, ts)], First, 0, true, false), t)
            == Reader([Step(First, ts + [t])], First, 0, true, false)
  {}

  lemma LastRead(ts: seq<Token>, t: Token)
    requires t.kind.RightBracket?
    ensures Read(Reader([Step(First, ts)], First, 0, true, false), t)
            == Reader([Step(First, ts + [t])], First, 0, false, false)
  {}

  /** Reading token by token from the left. */
  lemma ReadLeft(r: Reader, ts: seq<Token>)
    requires ts != []
    ensures ReadAll(r, ts) == ReadAll(Read(r, ts[0]), ts[1..])
  {
    assert ts == [ts[0]] + ts[1..];
    ReadAllConcat(r, [ts[0]], ts[1..]);
    assert [ts[0]][..0] == [];
    assert ReadAll(r, [ts[0]]) == Read(r, ts[0]);
  }

  /** Readers that began with the scope prefix. */
  ghost predicate Rooted(scope: string, r: Reader) {
    StartsAtRoot(scope, r.steps) && Chained(r.steps)
  }

  lemma {:induction false} ReadAllRooted(scope: string, r: Reader, ts: seq<Token>)
    requires Rooted(scope, r)
    ensures Rooted(scope, ReadAll(r, ts))
  {
    if ts != [] {
      ReadAllRooted(scope, r, ts[..|ts| - 1]);
    }
  }

  /** Every rewritten selector starts at the root. */
  lemma ScopedRooted(scope: string, part: seq<Token>)
    ensures Rooted(scope, ReadAll(FRESH, Scoped(scope, part)))
  {
    var trimmed := Stripped(part);
    var n := RootTokens(trimmed);
    var rest := if n > 0 then trimmed[n..] else [BLANK] + trimmed;
    assert Scoped(scope, part) == Prefix(scope) + rest;
    ReadAllConcat(FRESH, Prefix(scope), rest);
    ReadPrefix(scope);
    ReadAllRooted(scope, AtRoot(scope), rest);
  }

  /** The exact condition on a rewritten selector. */
  predicate Safe(scope: string, part: seq<Token>) {
    GoesDown(ReadAll(FRESH, Scoped(scope, part)).steps)
  }

  /** A safe selector selects the root or what is below it, in every document and
      however its compounds are understood. */
  lemma SafeIsSound(scope: string, part: seq<Token>, d: Dom, root: nat, means: Meaning, e: nat)
    requires Safe(scope, part) && IsDom(d) && e < |d| && Selects(d, scope, root, means, Scoped(scope, part), e)
    ensures Within(d, root, e)
  {
    ScopedRooted(scope, part);
    Confined(d, scope, root, means, ReadAll(FRESH, Scoped(scope, part)).steps, e);
  }

  /** An unsafe one reaches outside in some document, unless a later compound of
      the author's own names the scope attribute. */
  lemma UnsafeEscapes(scope: string, part: seq<Token>) returns (d: Dom, e: nat)
    requires var r := ReadAll(FRESH, Scoped(scope, part)); WellFormed(r) && ScopeFree(scope, r.steps)
    requires !Safe(scope, part)
    ensures IsDom(d) && e < |d| && Selects(d, scope, 1, ANYTHING, Scoped(scope, part), e) && !Within(d, 1, e)
  {
    ScopedRooted(scope, part);
    d, e := Escapes(scope, ReadAll(FRESH, Scoped(scope, part)).steps);
  }

  // ------------------------------------------------- selectors without siblings

  /** No `+` or `~` outside attribute selectors; `inside` says whether one is open. */
  predicate SiblingFree(ts: seq<Token>, inside: bool) {
    if ts == [] then true
    else if inside then SiblingFree(ts[1..], !ts[0].kind.RightBracket?)
    else !Sibling(ts[0]) && SiblingFree(ts[1..], ts[0].kind.LeftBracket?)
  }

  /** Only downward combinators so far. */
  predicate Downward(r: Reader) {
    && (forall i :: 0 < i < |r.steps| ==> r.steps[i].comb == Descendant || r.steps[i].comb == Child)
    && (r.gap == First || r.gap == Descendant || r.gap == Child)
    && r.steps != []
  }

  lemma {:induction false} ReadAllDownward(r: Reader, ts: seq<Token>)
    requires Downward(r) && SiblingFree(ts, r.bracket)
    ensures Downward(ReadAll(r, ts))
    decreases |ts|
  {
    if ts != [] {
      ReadLeft(r, ts);
      ReadAllDownward(Read(r, ts[0]), ts[1..]);
    }
  }

  // ------------------------------------------------------ selectors led below

  function FirstLoud(ts: seq<Token>): Option<Token> {
    if ts == [] then None else if Silent(ts[0]) then FirstLoud(ts[1..]) else Some(ts[0])
  }

  /** The selector begins with a sibling combinator. */
  predicate LeadsSideways(ts: seq<Token>) {
    FirstLoud(ts).Some? && Sibling(FirstLoud(ts).value)
  }

  predicate LedDown(r: Reader) {
    r.bad || (|r.steps| == 1 && r.gap == Child) || (|r.steps| >= 2 && GoesDown(r.steps))
  }

  lemma {:induction false} ReadAllLedDown(r: Reader, ts: seq<Token>)
    requires LedDown(r)
    ensures LedDown(ReadAll(r, ts))
  {
    if ts != [] {
      ReadAllLedDown(r, ts[..|ts| - 1]);
    }
  }

  lemma {:induction false} LeadDown(r: Reader, ts: seq<Token>)
    requires |r.steps| == 1 && r.gap == Descendant && r.depth == 0 && !r.bracket && !LeadsSideways(ts)
    ensures ReadAll(r, ts).bad || GoesDown(ReadAll(r, ts).steps)
    decreases |ts|
  {
    if ts != [] {
      ReadLeft(r, ts);
      if Silent(ts[0]) {
        assert Read(r, ts[0]) == r;
        LeadDown(r, ts[1..]);
      } else {
        assert LedDown(Read(r, ts[0]));
        ReadAllLedDown(Read(r, ts[0]), ts[1..]);
      }
    }
  }

  // ------------------------------------------------------- what acceptance says

  lemma {:induction false} SkipBracket(ts: seq<Token>, i: nat, end: nat, b: nat)
    requires i <= end < |ts| && i <= b <= |ts| && ts[end].kind.RightBracket?
    requires forall k :: i <= k < end ==> !ts[k].kind.RightBracket?
    requires end < b ==> SiblingFree(ts[end + 1..b], false)
    ensures SiblingFree(ts[i..b], true)
    decreases end - i
  {
    if i < b {
      assert ts[i..b][1..] == ts[i + 1..b];
      if i < end {
        SkipBracket(ts, i + 1, end, b);
      }
    }
  }

  /** Once the root has been seen, an accepted stretch has no sibling combinator. */
  lemma {:induction false} AcceptedTail(hooks: set<string>, ts: seq<Token>, i: nat, b: nat)
    requires i <= b <= |ts| && Accepts(hooks, ts, i, true)
    requires forall k :: i <= k < b ==> !ts[k].kind.Comma?
    ensures SiblingFree(ts[i..b], false)
    decreases b - i
  {
    hide Judge, Prev, Next, Accepts, Meaningful;
    if i < b {
      AcceptsTurn(hooks, ts, i, true);
      assert ts[i..b][1..] == ts[i + 1..b];
      if ts[i].kind.LeftBracket? {
        var end := CloseOf(ts, i);
        if end + 1 <= b {
          AcceptedTail(hooks, ts, end + 1, b);
        }
        SkipBracket(ts, i + 1, end, b);
      } else {
        AcceptedTail(hooks, ts, i + 1, b);
      }
    }
  }

  /** Spaces change nothing for the validator. */
  lemma {:induction false} AcceptedSpaces(hooks: set<string>, ts: seq<Token>, i: nat, j: nat, rootSeen: bool)
    requires i <= j <= |ts| && Accepts(hooks, ts, i, rootSeen)
    requires forall k :: i <= k < j ==> ts[k].kind.Space?
    ensures Accepts(hooks, ts, j, rootSeen)
    decreases j - i
  {
    if i < j {
      AcceptsTurn(hooks, ts, i, rootSeen);
      AcceptedSpaces(hooks, ts, i + 1, j, rootSeen);
    }
  }

  /** An attribute selector with at most one value. */
  predicate OneValue(inner: seq<Token>) {
    forall j, k :: 1 <= j < k < |inner| ==> !(Valued(inner[j]) && Valued(inner[k]))
  }

  predicate SingleValued(ts: seq<Token>) {
    forall i :: 0 <= i < |ts| && ts[i].kind.LeftBracket? && CloseOf(ts, i) < |ts|
        ==> OneValue(Meaningful(ts[i + 1..CloseOf(ts, i)]))
  }

  lemma {:induction false} LastValueIs(ts: seq<Token>, k: nat)
    requires k < |ts| && Valued(ts[k]) && forall j :: 0 <= j < |ts| && j != k ==> !Valued(ts[j])
    ensures LastValue(ts) == Unquote(ts[k].data)
  {
    if k < |ts| - 1 {
      LastValueIs(ts[..|ts| - 1], k);
    }
  }

  /** With one value, validator and rewriter agree on what refers to the root. */
  lemma RootAgrees(hooks: set<string>, inner: seq<Token>)
    requires OneValue(inner) && RootAttribute(inner) && Judge(hooks, inner) != Refused
    ensures Judge(hooks, inner) == RootReference
  {
    var k :| 1 <= k < |inner| && NamesRoot(inner[k]);
    forall j | 0 <= j < |inner[1..]| && j != k - 1 ensures !Valued(inner[1..][j]) {
      assert inner[1..][j] == inner[j + 1];
    }
    LastValueIs(inner[1..], k - 1);
  }

  lemma {:induction false} CloseSlice(ts: seq<Token>, a: nat, b: nat, i: nat)
    requires a <= a + i <= b <= |ts| && CloseOf(ts[a..b], i) < b - a
    ensures CloseOf(ts, a + i) == a + CloseOf(ts[a..b], i)
    decreases b - a - i
  {
    if !ts[a + i].kind.RightBracket? {
      CloseSlice(ts, a, b, i + 1);
    }
  }

  /** After a leading root reference the validator has seen the root. */
  lemma RootIsSeen(hooks: set<string>, ts: seq<Token>, a: nat, b: nat)
    requires a <= b <= |ts| && Accepts(hooks, ts, a, false) && SingleValued(ts)
    requires RootTokens(ts[a..b]) > 0
    ensures a + RootTokens(ts[a..b]) <= b && Accepts(hooks, ts, a + RootTokens(ts[a..b]), true)
  {
    hide Accepts, TurnAt, SingleValued, CloseOf, Meaningful, RootAttribute;
    var u := ts[a..b];
    if u[0].kind.Colon? {
      ColonIsSeen(hooks, ts, a);
    } else {
      var end := CloseOf(u, 0);
      CloseSlice(ts, a, b, 0);
      SliceOfSlice(ts, a, b, 1, end);
      BracketIsSeen(hooks, ts, a);
    }
  }

  lemma ColonIsSeen(hooks: set<string>, ts: seq<Token>, a: nat)
    requires a + 1 < |ts| && Accepts(hooks, ts, a, false)
    requires ts[a].kind.Colon? && ts[a + 1].kind.Ident? && ts[a + 1].name == "root"
    ensures Accepts(hooks, ts, a + 2, true)
  {
    AcceptsTurn(hooks, ts, a, false);
    AcceptsTurn(hooks, ts, a + 1, true);
    hide Accepts, Prev, Next, CloseOf, Judge;
  }

  lemma BracketIsSeen(hooks: set<string>, ts: seq<Token>, a: nat)
    requires a < |ts| && ts[a].kind.LeftBracket? && CloseOf(ts, a) < |ts| && Accepts(hooks, ts, a, false)
             && SingleValued(ts)
    requires RootAttribute(Meaningful(ts[a + 1..CloseOf(ts, a)]))
    ensures Accepts(hooks, ts, CloseOf(ts, a) + 1, true)
  {
    hide Accepts, Prev, Next, CloseOf, Judge, Meaningful, RootAttribute, OneValue;
    AcceptsTurn(hooks, ts, a, false);
    RootAgrees(hooks, Meaningful(ts[a + 1..CloseOf(ts, a)]));
  }

  lemma SliceOfSlice(ts: seq<Token>, a: nat, b: nat, i: nat, j: nat)
    requires i <= j && a + j <= b <= |ts|
    ensures ts[a..b][i..j] == ts[a + i..a + j]
  {
    var x, y := ts[a..b][i..j], ts[a + i..a + j];
    forall k | 0 <= k < |x| ensures x[k] == y[k] {
      assert ts[a..b][i + k] == ts[a + i + k];
    }
  }

  lemma {:induction false} StrippedSlice(ts: seq<Token>) returns (i: nat, j: nat)
    ensures i <= j <= |ts| && Stripped(ts) == ts[i..j]
    ensures forall k :: 0 <= k < i ==> ts[k].kind.Space?
  {
    i := StartSlice(ts);
    var n := EndSlice(ts[i..]);
    j := i + n;
    assert ts[i..][..n] == ts[i..j];
  }

  lemma {:induction false} StartSlice(ts: seq<Token>) returns (i: nat)
    ensures i <= |ts| && TrimStart(ts) == ts[i..] && forall k :: 0 <= k < i ==> ts[k].kind.Space?
  {
    if ts != [] && ts[0].kind.Space? {
      var j := StartSlice(ts[1..]);
      i := j + 1;
      forall k | 0 <= k < i ensures ts[k].kind.Space? {
        assert k > 0 ==> ts[1..][k - 1] == ts[k];
      }
    } else {
      i := 0;
    }
  }

  lemma {:induction false} EndSlice(ts: seq<Token>) returns (n: nat)
    ensures n <= |ts| && TrimEnd(ts) == ts[..n]
  {
    if ts != [] && ts[|ts| - 1].kind.Space? {
      n := EndSlice(ts[..|ts| - 1]);
    } else {
      n := |ts|;
    }
  }

  // --------------------------------------------------------- the whole list

  predicate OutsideBrackets(ts: seq<Token>, c: nat) {
    forall i :: 0 <= i < |ts| && i < c && ts[i].kind.LeftBracket? ==> CloseOf(ts, i) < c
  }

  /** Every comma of the list separates selectors. */
  predicate FlatCommas(ts: seq<Token>) {
    forall c :: 0 <= c < |ts| && ts[c].kind.Comma? ==> Depth(ts[..c]) == 0 && OutsideBrackets(ts, c)
  }

  lemma {:induction false} AcceptedAfterComma(hooks: set<string>, ts: seq<Token>, i: nat, rootSeen: bool, c: nat)
    requires i <= c < |ts| && ts[c].kind.Comma? && OutsideBrackets(ts, c) && Accepts(hooks, ts, i, rootSeen)
    ensures Accepts(hooks, ts, c + 1, false)
    decreases c - i
  {
    hide Judge, Prev, Next;
    AcceptsTurn(hooks, ts, i, rootSeen);
    if i < c {
      var turn := TurnAt(hooks, ts, i, rootSeen);
      assert turn.next <= c;
      AcceptedAfterComma(hooks, ts, turn.next, turn.rootSeen, c);
    }
  }

  lemma {:induction false} AcceptedReaches(hooks: set<string>, ts: seq<Token>, i: nat, rootSeen: bool, c: nat)
    returns (seen: bool)
    requires i <= c < |ts| && OutsideBrackets(ts, c) && Accepts(hooks, ts, i, rootSeen)
    ensures TurnAt(hooks, ts, c, seen).Go?
    decreases c - i
  {
    hide Judge, Prev, Next;
    AcceptsTurn(hooks, ts, i, rootSeen);
    if i < c {
      var turn := TurnAt(hooks, ts, i, rootSeen);
      assert turn.next <= c;
      seen := AcceptedReaches(hooks, ts, turn.next, turn.rootSeen, c);
    } else {
      seen := rootSeen;
    }
  }

  /** What an accepted list is free of outside its attribute selectors: classes, the
      document's own elements, nesting and namespaces; and what its attribute
      selectors are not about. */
  lemma AcceptedRefuses(hooks: set<string>, ts: seq<Token>, c: nat)
    requires Accepts(hooks, ts, 0, false) && c < |ts| && OutsideBrackets(ts, c)
    ensures ts[c].kind.Ident? ==> ts[c].name != "html" && ts[c].name != "body"
    ensures ts[c].kind.Ident? ==> forall p :: 0 <= p && IsPrev(ts, c, p) ==> !IsDelim(ts[p], ".")
    ensures ts[c].kind.Delim? ==> ts[c].data != "&" && ts[c].data != "|"
    ensures ts[c].kind.LeftBracket? ==>
              && CloseOf(ts, c) < |ts|
              && var inner := Meaningful(ts[c + 1..CloseOf(ts, c)]);
                 && inner != [] && inner[0].name !in ["class", "data-nx-frame", "data-nx-protected"]
                 && (inner[0].name == "data-nx"
                     ==> Lower(LastValue(inner[1..])) in hooks && Lower(LastValue(inner[1..])) != "")
  {
    var seen := AcceptedReaches(hooks, ts, 0, false, c);
    hide Accepts, Prev, OutsideBrackets, Meaningful, CloseOf;
    if ts[c].kind.Ident? {
      forall p | 0 <= p && IsPrev(ts, c, p) ensures !IsDelim(ts[p], ".") {
        assert p == Prev(ts, c);
      }
    }
  }

  lemma SplitLast(ts: seq<Token>)
    requires ts != []
    ensures var n := |ts| - 1;
            var parts := Split(ts[..n]);
            Split(ts) == if ts[n].kind.Comma? && Depth(ts[..n]) == 0 then parts + [[]]
                         else parts[..|parts| - 1] + [parts[|parts| - 1] + [ts[n]]]
  {}

  predicate CommasSplit(ts: seq<Token>) {
    forall c :: 0 <= c < |ts| && ts[c].kind.Comma? ==> Depth(ts[..c]) == 0
  }

  lemma CommasSplitPrefix(ts: seq<Token>)
    requires CommasSplit(ts) && ts != []
    ensures CommasSplit(ts[..|ts| - 1]) && (ts[|ts| - 1].kind.Comma? ==> Depth(ts[..|ts| - 1]) == 0)
  {
    hide Depth;
    var n := |ts| - 1;
    forall c | 0 <= c < n && ts[..n][c].kind.Comma? ensures Depth(ts[..n][..c]) == 0 {
      assert ts[..n][..c] == ts[..c];
    }
  }

  ghost predicate IsPart(ts: seq<Token>, a: nat, b: nat) {
    && a <= b <= |ts| && (a == 0 || ts[a - 1].kind.Comma?)
    && forall j :: a <= j < b ==> !ts[j].kind.Comma?
  }

  lemma PartKeep(ts: seq<Token>, a: nat, b: nat)
    requires ts != [] && IsPart(ts[..|ts| - 1], a, b)
    ensures IsPart(ts, a, b) && ts[..|ts| - 1][a..b] == ts[a..b]
  {}

  lemma PartGrow(ts: seq<Token>, a: nat)
    requires ts != [] && IsPart(ts[..|ts| - 1], a, |ts| - 1) && !ts[|ts| - 1].kind.Comma?
    ensures IsPart(ts, a, |ts|) && ts[a..] == ts[..|ts| - 1][a..] + [ts[|ts| - 1]]
  {}

  /** Where a part of the split list stands. */
  lemma {:induction false} PartPlace(ts: seq<Token>, k: nat) returns (a: nat, b: nat)
    requires k < |Split(ts)| && CommasSplit(ts)
    ensures a <= b <= |ts| && IsPart(ts, a, b) && Split(ts)[k] == ts[a..b]
    ensures k == |Split(ts)| - 1 ==> b == |ts|
  {
    if ts == [] {
      a, b := 0, 0;
    } else {
      hide Split, CommasSplit, Depth, IsPart;
      SplitLast(ts);
      CommasSplitPrefix(ts);
      var n := |ts| - 1;
      if ts[n].kind.Comma? && k == |Split(ts)| - 1 {
        a, b := |ts|, |ts|;
        LastPart(ts);
      } else {
        a, b := PartPlace(ts[..n], k);
        PartBounds(ts[..n], a, b);
        if !ts[n].kind.Comma? && k == |Split(ts)| - 1 {
          PartGrow(ts, a);
          assert ts[..n][a..n] == ts[..n][a..] && ts[a..|ts|] == ts[a..];
          b := |ts|;
        } else {
          PartKeep(ts, a, b);
        }
      }
    }
  }

  lemma LastPart(ts: seq<Token>)
    requires ts != [] && ts[|ts| - 1].kind.Comma?
    ensures IsPart(ts, |ts|, |ts|)
  {}

  lemma PartBounds(ts: seq<Token>, a: nat, b: nat)
    requires IsPart(ts, a, b)
    ensures a <= b <= |ts|
  {}

  /** An accepted list whose commas all separate selectors and whose attribute
      selectors have one value each compiles to safe selectors only, unless a
      selector without a root reference starts with a sibling combinator. */
  lemma AcceptedIsSafe(hooks: set<string>, scope: string, values: seq<Token>, k: nat)
    requires Accepts(hooks, values, 0, false) && FlatCommas(values) && SingleValued(values) && k < |Split(values)|
    requires var u := Stripped(Split(values)[k]); RootTokens(u) == 0 ==> !LeadsSideways(u)
    ensures ReadAll(FRESH, Scoped(scope, Split(values)[k])).bad || Safe(scope, Split(values)[k])
  {
    var part := Split(values)[k];
    var u := Stripped(part);
    ReadPrefix(scope);
    if RootTokens(u) > 0 {
      AcceptedRoot(hooks, values, k);
      var rest := u[RootTokens(u)..];
      ReadAllConcat(FRESH, Prefix(scope), rest);
      ReadAllDownward(AtRoot(scope), rest);
    } else {
      assert Prefix(scope) + [BLANK] + u == Prefix(scope) + ([BLANK] + u);
      ReadAllConcat(FRESH, Prefix(scope), [BLANK] + u);
      ReadLeft(AtRoot(scope), [BLANK] + u);
      assert ([BLANK] + u)[1..] == u;
      LeadDown(Read(AtRoot(scope), BLANK), u);
    }
  }

  lemma AcceptedRoot(hooks: set<string>, values: seq<Token>, k: nat)
    requires Accepts(hooks, values, 0, false) && FlatCommas(values) && SingleValued(values) && k < |Split(values)|
    requires RootTokens(Stripped(Split(values)[k])) > 0
    ensures var u := Stripped(Split(values)[k]); SiblingFree(u[RootTokens(u)..], false)
  {
    hide RootTokens, Accepts, SingleValued, Depth, Split, Stripped, SiblingFree, CloseOf, Silent, Sibling;
    assert CommasSplit(values);
    var a, b := PartPlace(values, k);
    var i, j := StrippedSlice(values[a..b]);
    var u := Stripped(Split(values)[k]);
    SliceOfSlice(values, a, b, i, j);
    if a > 0 {
      AcceptedAfterComma(hooks, values, 0, false, a - 1);
    }
    forall x | a <= x < a + i ensures values[x].kind.Space? {
      assert values[a..b][x - a] == values[x];
    }
    AcceptedSpaces(hooks, values, a, a + i, false);
    RootIsSeen(hooks, values, a + i, a + j);
    var n := RootTokens(u);
    AcceptedTail(hooks, values, a + i + n, a + j);
    SliceOfSlice(values, a + i, a + j, n, j - i);
    assert u[n..] == u[n..j - i];
  }

  /** Scoping is sound: in every document, whatever an accepted list selects after
      compilation is the theme root or below it. */
  lemma ScopingIsSound(hooks: set<string>, scope: string, values: seq<Token>, k: nat, d: Dom, root: nat, means: Meaning,
                       e: nat)
    requires Accepts(hooks, values, 0, false) && FlatCommas(values) && SingleValued(values) && k < |Split(values)|
    requires var u := Stripped(Split(values)[k]); RootTokens(u) == 0 ==> !LeadsSideways(u)
    requires IsDom(d) && e < |d| && Selects(d, scope, root, means, Scoped(scope, Split(values)[k]), e)
    ensures Within(d, root, e)
  {
    AcceptedIsSafe(hooks, scope, values, k);
    SafeIsSound(scope, Split(values)[k], d, root, means, e);
  }
}
