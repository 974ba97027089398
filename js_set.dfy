/**
 * A JavaScript `Set` keeps its elements in insertion order and ignores an
 * element it already holds. `Array.from(set)` therefore lists the distinct
 * elements in the order of their first insertion. The core uses this for the
 * ETP standards and methodologies and for the catalog's category list.
 */
module JsSet {

  /** `set.add(x)`. */
  function Add<T(==)>(s: seq<T>, x: T): seq<T>
  {
    if x in s then s else s + [x]
  }

  /** Adding the elements of `xs` one after another, left to right. */
  function AddAll<T(==)>(s: seq<T>, xs: seq<T>): seq<T>
  {
    if |xs| == 0 then s else Add(AddAll(s, xs[..|xs| - 1]), xs[|xs| - 1])
  }

  /** `Array.from(new Set(xs))`. */
  function Dedup<T(==)>(xs: seq<T>): seq<T>
  {
    AddAll([], xs)
  }

  predicate Distinct<T(==)>(s: seq<T>)
  {
    forall i, j | 0 <= i < j < |s| :: s[i] != s[j]
  }

  /** Index of the first occurrence of `x` in `xs`. */
  function FirstIndex<T(==)>(xs: seq<T>, x: T): (k: nat)
    requires x in xs
    ensures k < |xs| && xs[k] == x
    ensures forall j | 0 <= j < k :: xs[j] != x
  {
    if xs[0] == x then 0 else 1 + FirstIndex(xs[1..], x)
  }

  /** Adding a sequence in two parts is adding it in one go. */
  lemma {:induction false} AddAllAppend<T>(s: seq<T>, a: seq<T>, b: seq<T>)
    ensures AddAll(s, a + b) == AddAll(AddAll(s, a), b)
    decreases |b|
  {
    if |b| == 0 {
      assert a + b == a;
    } else {
      assert (a + b)[..|a + b| - 1] == a + b[..|b| - 1];
      AddAllAppend(s, a, b[..|b| - 1]);
    }
  }

  /** Adding one more element is one `set.add`. */
  lemma AddAllSnoc<T>(s: seq<T>, a: seq<T>, x: T)
    ensures AddAll(s, a + [x]) == Add(AddAll(s, a), x)
  {
    assert (a + [x])[..|a + [x]| - 1] == a;
  }

  /** The deduplicated list holds exactly the elements of the input, each once. */
  lemma {:induction false} DedupMembers<T>(xs: seq<T>)
    ensures forall x :: x in Dedup(xs) <==> x in xs
    ensures Distinct(Dedup(xs))
  {
    if |xs| > 0 {
      var init := xs[..|xs| - 1];
      DedupMembers(init);
      assert xs == init + [xs[|xs| - 1]];
    }
  }

  /** Elements come out in the order of their first occurrence in the input. */
  lemma {:induction false} DedupOrder<T>(xs: seq<T>, i: nat, j: nat)
    requires i < j < |Dedup(xs)|
    ensures Dedup(xs)[i] in xs && Dedup(xs)[j] in xs
    ensures FirstIndex(xs, Dedup(xs)[i]) < FirstIndex(xs, Dedup(xs)[j])
  {
    DedupMembers(xs);
    var n := |xs|;
    var init := xs[..n - 1];
    var x := xs[n - 1];
    assert xs == init + [x];
    DedupMembers(init);
    var d := Dedup(init);
    assert Dedup(xs) == Add(d, x);
    FirstIndexPrefix(init, x);
    if j < |d| {
      DedupOrder(init, i, j);
      FirstIndexPrefix(init, d[i]);
      FirstIndexPrefix(init, d[j]);
    } else {
      // x is new: it is the last element, and first occurs at the very end
      assert x !in d && Dedup(xs)[j] == x && x !in init;
      FirstIndexPrefix(init, d[i]);
    }
  }

  /** The first index of an element in a prefix is its first index in the whole. */
  lemma FirstIndexPrefix<T>(init: seq<T>, y: T)
    ensures forall x: T :: y in init ==> FirstIndex(init + [x], y) == FirstIndex(init, y)
    ensures forall x: T :: y !in init && y == x ==> FirstIndex(init + [x], y) == |init|
  {
    forall x: T | y in init ensures FirstIndex(init + [x], y) == FirstIndex(init, y) {
      var k := FirstIndex(init, y);
      var k' := FirstIndex(init + [x], y);
      assert (init + [x])[k] == y;
    }
    forall x: T | y !in init && y == x ensures FirstIndex(init + [x], y) == |init| {
      assert (init + [x])[|init|] == y;
    }
  }
}
