/**
 * List operations the console editors share: removing every occurrence of
 * an id (`filter(x => x !== id)`), the select/deselect toggle
 * (`includes ? filter : [...list, id]`) and `findIndex`.
 */
module IdLists {

  /** True when no element occurs twice. */
  predicate Distinct(s: seq<string>) {
    forall i, j :: 0 <= i < j < |s| ==> s[i] != s[j]
  }

  /** `s.filter(y => y !== x)`. */
  function Without(s: seq<string>, x: string): (r: seq<string>)
    ensures |r| <= |s|
    ensures forall y :: y in r <==> y in s && y != x
    ensures x !in s ==> r == s
    ensures x in s ==> |r| < |s|
  {
    if s == [] then [] else (if s[0] == x then [] else [s[0]]) + Without(s[1..], x)
  }

  /** Filtering distributes over concatenation, so the kept elements stay in
      their original order. */
  lemma {:induction false} WithoutAppend(a: seq<string>, b: seq<string>, x: string)
    ensures Without(a + b, x) == Without(a, x) + Without(b, x)
    decreases |a|
  {
    if a == [] {
      assert a + b == b;
    } else {
      assert (a + b)[1..] == a[1..] + b;
      WithoutAppend(a[1..], b, x);
    }
  }

  /** A sub-sequence of a duplicate-free list is duplicate-free. */
  lemma {:induction false} WithoutDistinct(s: seq<string>, x: string)
    requires Distinct(s)
    ensures Distinct(Without(s, x))
    decreases |s|
  {
    if s != [] {
      WithoutDistinct(s[1..], x);
      var rest := Without(s[1..], x);
      var head := if s[0] == x then [] else [s[0]];
      assert s[0] !in s[1..];
      assert s[0] !in rest;
      assert Without(s, x) == head + rest;
    }
  }

  /** The select toggle: an id that is present is removed (every occurrence
      of it), an absent one is appended at the end. */
  function Toggle(s: seq<string>, x: string): (r: seq<string>)
    ensures x in r <==> x !in s
    ensures forall y :: y != x ==> (y in r <==> y in s)
    ensures x !in s ==> |r| == |s| + 1 && r[|s|] == x
  {
    if x in s then Without(s, x) else s + [x]
  }

  /** Toggling leaves the other ids in their relative order. */
  lemma ToggleKeepsOthersInOrder(s: seq<string>, x: string)
    ensures Without(Toggle(s, x), x) == Without(s, x)
  {
    if x !in s {
      WithoutAppend(s, [x], x);
      assert Without([x], x) == [];
    }
  }

  /** Toggling twice restores a list that did not hold the id; for a list
      that did, the id comes back at the end. */
  lemma ToggleTwice(s: seq<string>, x: string)
    ensures x !in s ==> Toggle(Toggle(s, x), x) == s
    ensures x in s ==> Toggle(Toggle(s, x), x) == Without(s, x) + [x]
  {
    if x !in s {
      WithoutAppend(s, [x], x);
      assert Without([x], x) == [];
    }
  }

  /** Toggling keeps a list duplicate-free. */
  lemma ToggleDistinct(s: seq<string>, x: string)
    requires Distinct(s)
    ensures Distinct(Toggle(s, x))
  {
    if x in s {
      WithoutDistinct(s, x);
    }
  }

  /** `s.findIndex(y => y === x)` for an element that is present. */
  function IndexOf(s: seq<string>, x: string): (i: nat)
    requires x in s
    ensures i < |s| && s[i] == x
    ensures forall j :: 0 <= j < i ==> s[j] != x
  {
    if s[0] == x then 0 else 1 + IndexOf(s[1..], x)
  }
}
