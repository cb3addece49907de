/** `ORDER BY sort_order, id` as a function, and the list edits it turns row
    updates into. */
module Ordering {
  import opened Prelude

  type SortKeys = map<Id, int>

  predicate Before(key: SortKeys, a: Id, b: Id)
    requires a in key && b in key
  {
    key[a] < key[b] || (key[a] == key[b] && a < b)
  }

  ghost predicate Sorted(q: seq<Id>, key: SortKeys) {
    && (forall i :: 0 <= i < |q| ==> q[i] in key)
    && (forall i, j :: 0 <= i < j < |q| ==> Before(key, q[i], q[j]))
  }

  function Elems(q: seq<Id>): set<Id> {
    set x | x in q
  }

  predicate NoDup(q: seq<Id>) {
    forall i, j :: 0 <= i < j < |q| ==> q[i] != q[j]
  }

  ghost predicate IsListing(q: seq<Id>, ids: set<Id>, key: SortKeys) {
    Sorted(q, key) && Elems(q) == ids
  }

  ghost predicate IsFirst(m: Id, ids: set<Id>, key: SortKeys) {
    && ids <= key.Keys
    && m in ids
    && forall x :: x in ids && x != m ==> Before(key, m, x)
  }

  lemma {:induction false} FirstExists(ids: set<Id>, key: SortKeys) returns (m: Id)
    requires ids != {} && ids <= key.Keys
    ensures IsFirst(m, ids, key)
    decreases ids
  {
    m :| m in ids;
    var rest := ids - {m};
    assert forall x :: x in ids && x != m ==> x in rest;
    if rest != {} {
      var n := FirstExists(rest, key);
      if Before(key, n, m) {
        m := n;
      }
    }
  }

  function First(ids: set<Id>, key: SortKeys): (m: Id)
    requires ids != {} && ids <= key.Keys
    ensures IsFirst(m, ids, key)
  {
    assert exists m :: IsFirst(m, ids, key) by {
      var m := FirstExists(ids, key);
    }
    var m :| m in ids && forall x :: x in ids && x != m ==> Before(key, m, x);
    m
  }

  /** The ids of a result set in display order. */
  function Listing(ids: set<Id>, key: SortKeys): seq<Id>
    requires ids <= key.Keys
    decreases ids
  {
    if ids == {} then []
    else var m := First(ids, key); [m] + Listing(ids - {m}, key)
  }

  /** It is sorted and holds exactly the ids. */
  lemma {:induction false} ListingIs(ids: set<Id>, key: SortKeys)
    requires ids <= key.Keys
    ensures IsListing(Listing(ids, key), ids, key)
    ensures forall x :: x in Listing(ids, key) <==> x in ids
    ensures NoDup(Listing(ids, key))
    decreases ids
  {
    if ids != {} {
      var m := First(ids, key);
      ListingIs(ids - {m}, key);
      var rest := Listing(ids - {m}, key);
      assert Elems([m] + rest) == ids by {
        forall x ensures x in [m] + rest <==> x in ids {
          assert x in rest <==> x in ids - {m};
        }
      }
    }
  }

  /** Being sorted with the right elements determines the listing. */
  lemma {:induction false} ListingUnique(q: seq<Id>, ids: set<Id>, key: SortKeys)
    requires ids <= key.Keys
    requires IsListing(q, ids, key)
    ensures q == Listing(ids, key)
    decreases |q|
  {
    if q == [] {
      assert ids == {};
    } else {
      assert q[0] in Elems(q);
      var m := First(ids, key);
      assert m in q;
      var k :| 0 <= k < |q| && q[k] == m;
      assert k == 0;
      forall x | x in q[1..] ensures x in ids - {m} {
        var i :| 0 <= i < |q[1..]| && q[1..][i] == x;
        assert q[i + 1] == x && Before(key, q[0], q[i + 1]) && x in Elems(q);
      }
      forall x | x in ids - {m} ensures x in q[1..] {
        assert x in Elems(q);
        var i :| 0 <= i < |q| && q[i] == x;
        assert q[1..][i - 1] == x;
      }
      assert Elems(q[1..]) == ids - {m};
      ListingUnique(q[1..], ids - {m}, key);
    }
  }

  /** Only the keys of the listed ids matter. */
  lemma ListingFrame(ids: set<Id>, key: SortKeys, key': SortKeys)
    requires ids <= key.Keys && ids <= key'.Keys
    requires forall x :: x in ids ==> key[x] == key'[x]
    ensures Listing(ids, key) == Listing(ids, key')
  {
    var q := Listing(ids, key);
    ListingIs(ids, key);
    assert forall i :: 0 <= i < |q| ==> q[i] in Elems(q);
    ListingUnique(q, ids, key');
  }

  /** A new id keyed after every listed one is listed last. */
  lemma ListingAppend(ids: set<Id>, x: Id, key: SortKeys, key': SortKeys)
    requires ids <= key.Keys && x !in ids
    requires ids + {x} <= key'.Keys
    requires forall y :: y in ids ==> key[y] == key'[y] < key'[x]
    ensures Listing(ids + {x}, key') == Listing(ids, key) + [x]
  {
    var q := Listing(ids, key);
    ListingIs(ids, key);
    assert forall i :: 0 <= i < |q| ==> q[i] in Elems(q);
    assert Elems(q + [x]) == ids + {x} by {
      forall y ensures y in Elems(q + [x]) <==> y in ids + {x} {
        assert y in Elems(q + [x]) <==> y in Elems(q) || y == x;
      }
    }
    ListingUnique(q + [x], ids + {x}, key');
  }

  function Without(q: seq<Id>, x: Id): seq<Id> {
    if q == [] then []
    else if q[0] == x then Without(q[1..], x)
    else [q[0]] + Without(q[1..], x)
  }

  lemma {:induction false} WithoutElems(q: seq<Id>, x: Id)
    ensures forall y :: y in Without(q, x) <==> y in q && y != x
    ensures Elems(Without(q, x)) == Elems(q) - {x}
  {
    if q != [] {
      assert q == [q[0]] + q[1..];
      WithoutElems(q[1..], x);
    }
  }

  lemma {:induction false} WithoutSorted(q: seq<Id>, x: Id, key: SortKeys)
    requires Sorted(q, key)
    ensures Sorted(Without(q, x), key)
  {
    if q != [] {
      WithoutSorted(q[1..], x, key);
      WithoutElems(q[1..], x);
      var r := Without(q[1..], x);
      forall j | 0 <= j < |r| ensures Before(key, q[0], r[j]) {
        assert r[j] in r;
        assert r[j] in q[1..];
        var k :| 0 <= k < |q[1..]| && q[1..][k] == r[j];
        assert q[k + 1] == r[j];
      }
    }
  }

  lemma {:induction false} WithoutAbsent(q: seq<Id>, x: Id)
    requires x !in q
    ensures Without(q, x) == q
  {
    if q != [] {
      assert q == [q[0]] + q[1..];
      WithoutAbsent(q[1..], x);
    }
  }

  /** Deleting a row removes its entry and keeps the order of the others. */
  lemma ListingRemove(ids: set<Id>, x: Id, key: SortKeys)
    requires ids <= key.Keys
    ensures Listing(ids - {x}, key) == Without(Listing(ids, key), x)
  {
    var q := Listing(ids, key);
    ListingIs(ids, key);
    WithoutSorted(q, x, key);
    WithoutElems(q, x);
    ListingUnique(Without(q, x), ids - {x}, key);
  }

  /** Numbering a duplicate-free list by position makes it the listing. */
  lemma ListingNumbered(q: seq<Id>, key: SortKeys)
    requires NoDup(q)
    requires forall i :: 0 <= i < |q| ==> q[i] in key && key[q[i]] == i
    ensures Elems(q) <= key.Keys
    ensures Listing(Elems(q), key) == q
  {
    ListingUnique(q, Elems(q), key);
  }

  /** Appending a numbered block after every existing key concatenates. */
  lemma {:induction false} ListingAppendBlock(ids: set<Id>, block: seq<Id>, base: int, key: SortKeys, key': SortKeys)
    requires ids <= key.Keys && NoDup(block) && Elems(block) !! ids
    requires forall y :: y in ids ==> y in key' && key[y] == key'[y] < base
    requires forall i :: 0 <= i < |block| ==> block[i] in key' && key'[block[i]] == base + i
    ensures ids + Elems(block) <= key'.Keys
    ensures Listing(ids + Elems(block), key') == Listing(ids, key) + block
  {
    var q := Listing(ids, key);
    ListingIs(ids, key);
    assert forall i :: 0 <= i < |q| ==> q[i] in Elems(q);
    assert Elems(q + block) == ids + Elems(block) by {
      forall y ensures y in Elems(q + block) <==> y in ids + Elems(block) {
        assert y in Elems(q + block) <==> y in Elems(q) || y in Elems(block);
      }
    }
    ListingUnique(q + block, ids + Elems(block), key');
  }

  /** COALESCE(MAX(sort_order), -1) + 1 */
  function NextOrder(ids: set<Id>, key: SortKeys): (n: int)
    requires ids <= key.Keys
    ensures forall x :: x in ids ==> key[x] < n
    ensures n == 0 || exists x :: x in ids && key[x] + 1 == n
    decreases ids
  {
    if ids == {} then 0
    else
      var m := First(ids, key);
      var rest := NextOrder(ids - {m}, key);
      if ids == {m} then key[m] + 1 else if rest < key[m] + 1 then key[m] + 1 else rest
  }
}
