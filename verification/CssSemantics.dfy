/** Selectors over a document tree: tokens are read as compounds joined by
    combinators (section 8 of W3C Selectors Level 3) and matched from the right. */
module CssSemantics {
  import opened Prelude
  import opened CssSelectors

  datatype Combinator = First | Descendant | Child | Adjacent | General

  datatype Step = Step(comb: Combinator, compound: seq<Token>)

  /** The reader's state: compounds so far, the combinator met since the last one
      (First for none), open parentheses, whether inside `[ ]`, and whether the
      text is no selector at all. */
  datatype Reader = Reader(steps: seq<Step>, gap: Combinator, depth: nat, bracket: bool, bad: bool)

  const FRESH: Reader := Reader([], First, 0, false, false)

  /** A token that is part of a compound. */
  function Extend(r: Reader, t: Token): Reader {
    if r.steps == [] then r.(steps := [Step(First, [t])])
    else if r.gap == First then
      var n := |r.steps| - 1;
      r.(steps := r.steps[n := r.steps[n].(compound := r.steps[n].compound + [t])])
    else r.(steps := r.steps + [Step(r.gap, [t])], gap := First)
  }

  function Combine(r: Reader, c: Combinator): Reader {
    r.(gap := c, bad := r.bad || r.steps == [] || (r.gap != First && r.gap != Descendant))
  }

  function CombinatorOf(t: Token): Option<Combinator> {
    if IsDelim(t, ">") then Some(Child)
    else if IsDelim(t, "+") then Some(Adjacent)
    else if IsDelim(t, "~") then Some(General)
    else None
  }

  function Read(r: Reader, t: Token): Reader {
    if t.kind.Comment? then r
    else if r.bracket then Extend(r, t).(bracket := !t.kind.RightBracket?)
    else if r.depth > 0 then
      Extend(r, t).(bracket := t.kind.LeftBracket?,
                    depth := if t.kind.Function? || t.kind.LeftParen? then r.depth + 1
                        else if t.kind.RightParen? then r.depth - 1 else r.depth)
    else if t.kind.Space? then (if r.steps != [] && r.gap == First then r.(gap := Descendant) else r)
    else if CombinatorOf(t).Some? then Combine(r, CombinatorOf(t).value)
    else Extend(r, t).(bracket := t.kind.LeftBracket?, depth := if t.kind.Function? || t.kind.LeftParen? then 1 else 0)
  }

  function ReadAll(r: Reader, ts: seq<Token>): Reader {
    if ts == [] then r else Read(ReadAll(r, ts[..|ts| - 1]), ts[|ts| - 1])
  }

  lemma {:induction false} ReadAllConcat(r: Reader, a: seq<Token>, b: seq<Token>)
    ensures ReadAll(r, a + b) == ReadAll(ReadAll(r, a), b)
  {
    if b == [] {
      assert a + b == a;
    } else {
      var n := |b| - 1;
      assert (a + b)[..|a + b| - 1] == a + b[..n];
      ReadAllConcat(r, a, b[..n]);
    }
  }

  /** A trailing combinator leaves no selector. */
  predicate WellFormed(r: Reader) {
    !r.bad && r.steps != [] && (r.gap == First || r.gap == Descendant)
  }

  // ------------------------------------------------------------------ the tree

  /** Elements in document order, each with its parent; -1 above the top. */
  type Dom = seq<int>

  ghost predicate IsDom(d: Dom) {
    forall e :: 0 <= e < |d| ==> -1 <= d[e] < e
  }

  ghost predicate Below(d: Dom, top: nat, e: int)
    requires IsDom(d) && e < |d|
    decreases e
  {
    e >= 0 && (d[e] == top || Below(d, top, d[e]))
  }

  /** The theme root or one of its descendants. */
  ghost predicate Within(d: Dom, root: nat, e: nat)
    requires IsDom(d) && e < |d|
  {
    e == root || Below(d, root, e)
  }

  ghost predicate Related(d: Dom, c: Combinator, a: nat, b: nat)
    requires IsDom(d) && a < |d| && b < |d|
  {
    match c
    case First => false
    case Descendant => Below(d, a, b)
    case Child => d[b] == a
    case Adjacent => a < b && d[a] == d[b] && forall k :: a < k < b ==> d[k] != d[a]
    case General => a < b && d[a] == d[b]
  }

  /** How compounds other than the scope prefix are matched: anything goes. */
  type Meaning = (seq<Token>, nat) -> bool

  predicate CompoundMatches(scope: string, root: nat, means: Meaning, compound: seq<Token>, e: nat) {
    if Prefix(scope) <= compound then e == root && means(compound[|Prefix(scope)|..], e) else means(compound, e)
  }

  ghost predicate Matches(d: Dom, scope: string, root: nat, means: Meaning, steps: seq<Step>, e: nat)
    requires IsDom(d) && e < |d| && steps != []
    decreases |steps|
  {
    var n := |steps| - 1;
    && CompoundMatches(scope, root, means, steps[n].compound, e)
    && (n == 0 || exists a :: 0 <= a < |d| && Related(d, steps[n].comb, a, e)
                   && Matches(d, scope, root, means, steps[..n], a))
  }

  /** The same, by a chain that stays strictly below the root. */
  ghost predicate MatchesBelow(d: Dom, scope: string, root: nat, means: Meaning, steps: seq<Step>, e: nat)
    requires IsDom(d) && e < |d| && steps != []
    decreases |steps|
  {
    var n := |steps| - 1;
    && Below(d, root, e)
    && CompoundMatches(scope, root, means, steps[n].compound, e)
    && (n == 0 || exists a :: 0 <= a < |d| && Related(d, steps[n].comb, a, e)
                   && MatchesBelow(d, scope, root, means, steps[..n], a))
  }

  /** The elements a selector text selects. */
  ghost predicate Selects(d: Dom, scope: string, root: nat, means: Meaning, ts: seq<Token>, e: nat)
    requires IsDom(d) && e < |d|
  {
    var r := ReadAll(FRESH, ts);
    WellFormed(r) && Matches(d, scope, root, means, r.steps, e)
  }

  // ------------------------------------------------------ chains from the root

  /** The first compound is the root's and what follows it goes down. */
  predicate StartsAtRoot(scope: string, steps: seq<Step>) {
    steps != [] && Prefix(scope) <= steps[0].compound
  }

  predicate GoesDown(steps: seq<Step>) {
    |steps| <= 1 || steps[1].comb == Descendant || steps[1].comb == Child
  }

  lemma {:induction false} BelowStep(d: Dom, root: nat, a: nat, c: Combinator, b: nat)
    requires IsDom(d) && a < |d| && b < |d| && Related(d, c, a, b)
    requires Below(d, root, a) || (a == root && (c == Descendant || c == Child))
    ensures Below(d, root, b)
    decreases b
  {
    if c == Descendant && d[b] != a {
      assert Below(d, a, d[b]);
      BelowStep(d, root, a, Descendant, d[b]);
    }
  }

  /** A chain that leaves the root downwards never gets out again. */
  lemma {:induction false} Confined(d: Dom, scope: string, root: nat, means: Meaning, steps: seq<Step>, e: nat)
    requires IsDom(d) && e < |d| && StartsAtRoot(scope, steps) && GoesDown(steps)
    requires Matches(d, scope, root, means, steps, e)
    ensures if |steps| == 1 then e == root else Below(d, root, e)
    decreases |steps|
  {
    var n := |steps| - 1;
    if n > 0 {
      var a :| 0 <= a < |d| && Related(d, steps[n].comb, a, e) && Matches(d, scope, root, means, steps[..n], a);
      assert steps[..n][0] == steps[0] && (n > 1 ==> steps[..n][1] == steps[1]);
      Confined(d, scope, root, means, steps[..n], a);
      BelowStep(d, root, a, steps[n].comb, e);
    }
  }

  /** The reading under which every compound matches everything. */
  const ANYTHING: Meaning := (ts: seq<Token>, e: nat) => true

  /** Where the k-th compound of a chain from element 1 may sit. */
  function Witness(steps: seq<Step>): (d: Dom)
    requires steps != []
    ensures |d| == |steps| + 1
    ensures forall e :: 0 <= e < |d| ==> -1 <= d[e] < e
    ensures d[0] == -1 && d[1] == 0
  {
    if |steps| == 1 then [-1, 0]
    else
      var n := |steps| - 1;
      var front := Witness(steps[..n]);
      var c := steps[n].comb;
      front + [if c == Adjacent || c == General then front[n] else n]
  }

  /** No step of a chain but the first is unlabelled. */
  predicate Chained(steps: seq<Step>) {
    forall i :: 0 < i < |steps| ==> steps[i].comb != First
  }

  lemma {:induction false} BelowFrame(d: Dom, more: Dom, top: nat, e: int)
    requires IsDom(d) && IsDom(more) && d <= more && e < |d|
    ensures Below(more, top, e) <==> Below(d, top, e)
    decreases e
  {
    if e >= 0 {
      assert more[e] == d[e];
      if d[e] != top {
        BelowFrame(d, more, top, d[e]);
      }
    }
  }

  lemma RelatedFrame(d: Dom, more: Dom, c: Combinator, a: nat, b: nat)
    requires IsDom(d) && IsDom(more) && d <= more && a < |d| && b < |d|
    ensures Related(more, c, a, b) <==> Related(d, c, a, b)
  {
    BelowFrame(d, more, a, b);
    assert forall k :: 0 <= k < |d| ==> more[k] == d[k];
  }

  lemma {:induction false} MatchesMore(d: Dom, more: Dom, scope: string, steps: seq<Step>, e: nat)
    requires IsDom(d) && IsDom(more) && d <= more && e < |d| && steps != []
    requires Matches(d, scope, 1, ANYTHING, steps, e)
    ensures Matches(more, scope, 1, ANYTHING, steps, e)
    decreases |steps|
  {
    var n := |steps| - 1;
    if n > 0 {
      var a :| 0 <= a < |d| && Related(d, steps[n].comb, a, e) && Matches(d, scope, 1, ANYTHING, steps[..n], a);
      RelatedFrame(d, more, steps[n].comb, a, e);
      MatchesMore(d, more, scope, steps[..n], a);
    }
  }

  predicate ScopeFree(scope: string, steps: seq<Step>) {
    forall i :: 0 < i < |steps| ==> !(Prefix(scope) <= steps[i].compound)
  }

  lemma {:induction false} WitnessMatches(scope: string, steps: seq<Step>)
    requires StartsAtRoot(scope, steps) && Chained(steps) && ScopeFree(scope, steps)
    ensures Matches(Witness(steps), scope, 1, ANYTHING, steps, |steps|)
    decreases |steps|
  {
    var n := |steps| - 1;
    if n > 0 {
      var front, d := Witness(steps[..n]), Witness(steps);
      assert steps[..n][0] == steps[0] && forall i :: 0 < i < n ==> steps[..n][i] == steps[i];
      WitnessMatches(scope, steps[..n]);
      MatchesMore(front, d, scope, steps[..n], n);
      assert d[n] == front[n];
      assert Related(d, steps[n].comb, n, n + 1);
    }
  }

  lemma {:induction false} WitnessOutside(steps: seq<Step>, e: nat)
    requires |steps| > 1 && (steps[1].comb == Adjacent || steps[1].comb == General) && 2 <= e <= |steps|
    ensures Witness(steps)[e] != 1
    decreases |steps|
  {
    var n := |steps| - 1;
    if n > 1 {
      assert steps[..n][1] == steps[1];
      if e <= n {
        WitnessOutside(steps[..n], e);
      } else {
        WitnessOutside(steps[..n], n);
      }
    } else {
      assert Witness(steps[..1]) == [-1, 0];
    }
  }

  lemma {:induction false} NeverBelow(d: Dom, e: int)
    requires IsDom(d) && e < |d| && (forall k :: 2 <= k < |d| ==> d[k] != 1) && |d| > 1 && e != 1
    requires d[0] == -1 && d[1] == 0
    ensures !Below(d, 1, e)
    decreases e
  {
    if e >= 0 {
      NeverBelow(d, d[e]);
    }
  }

  /** A chain that leaves the root sideways gets out in some document. */
  lemma Escapes(scope: string, steps: seq<Step>) returns (d: Dom, e: nat)
    requires StartsAtRoot(scope, steps) && Chained(steps) && ScopeFree(scope, steps) && !GoesDown(steps)
    ensures IsDom(d) && e < |d| && Matches(d, scope, 1, ANYTHING, steps, e) && !Within(d, 1, e)
  {
    d, e := Witness(steps), |steps|;
    WitnessMatches(scope, steps);
    forall k | 2 <= k < |d| ensures d[k] != 1 {
      WitnessOutside(steps, k);
    }
    NeverBelow(d, e);
  }
}
