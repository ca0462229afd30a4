/** Generic sequence helpers that stand for the JavaScript array and string
    built-ins the extension relies on: `Array.prototype.find`,
    `Array.from(new Set(xs))`, `String.prototype.startsWith` and
    `Math.abs`. */
module Util {

  datatype Option<+T> = None | Some(value: T)

  /** `Math.abs`. */
  function Abs(x: real): (r: real)
    ensures r >= 0.0 && (r == x || r == -x)
  {
    if x < 0.0 then -x else x
  }

  /** Index of the first element satisfying `p`: the element that
      `xs.find(p)` returns, or `None` when `find` gives `undefined`. */
  function FindFirst<T>(xs: seq<T>, p: T -> bool): (r: Option<nat>)
    ensures r.Some? ==> r.value < |xs| && p(xs[r.value])
    ensures r.Some? ==> forall j :: 0 <= j < r.value ==> !p(xs[j])
    ensures r.None? <==> forall j :: 0 <= j < |xs| ==> !p(xs[j])
  {
    if |xs| == 0 then None
    else if p(xs[0]) then Some(0)
    else
      match FindFirst(xs[1..], p)
      case None => None
      case Some(i) => Some(i + 1)
  }

  /** Position of the first occurrence of `x` in `xs`. */
  function FirstIndex<T(==)>(xs: seq<T>, x: T): (r: nat)
    requires x in xs
    ensures r < |xs| && xs[r] == x
    ensures forall j :: 0 <= j < r ==> xs[j] != x
  {
    var f := FindFirst(xs, (y: T) => y == x);
    assert f.Some?;
    f.value
  }

  /** `Array.from(new Set(xs))`: the elements of `xs` without repetitions,
      each kept where it was first inserted into the set. The set is filled
      from left to right, so the last element is appended exactly when it
      was not seen before. */
  function Distinct<T(==)>(xs: seq<T>): (r: seq<T>)
    ensures forall i :: 0 <= i < |r| ==> r[i] in xs
    ensures forall i :: 0 <= i < |xs| ==> xs[i] in r
    ensures forall i, j :: 0 <= i < j < |r| ==> r[i] != r[j]
  {
    if |xs| == 0 then []
    else
      var init := xs[..|xs| - 1];
      var last := xs[|xs| - 1];
      assert xs == init + [last];
      var seen := Distinct(init);
      if last in seen then seen else seen + [last]
  }

  /** `a` is obtained from `b` by deleting elements, so `a` lists some of the
      elements of `b` in their relative order. */
  predicate IsSubsequence<T(==)>(a: seq<T>, b: seq<T>)
    decreases |b|
  {
    if |a| == 0 then true
    else if |b| == 0 then false
    else (a[0] == b[0] && IsSubsequence(a[1..], b[1..])) || IsSubsequence(a, b[1..])
  }

  /** `s.startsWith(prefix)`. */
  predicate StartsWith(s: string, prefix: string)
  {
    |prefix| <= |s| && s[..|prefix|] == prefix
  }

  lemma FirstIndexInPrefix<T>(init: seq<T>, last: T, x: T)
    requires x in init
    ensures FirstIndex(init + [last], x) == FirstIndex(init, x)
  {
    var xs := init + [last];
    var a, b := FirstIndex(xs, x), FirstIndex(init, x);
    assert xs[b] == x;
    if a > b {
      assert false;
    } else if a < b {
      assert init[a] == xs[a];
    }
  }

  /** The keys of `Array.from(new Set(xs))` come out in the order in which
      each of them first occurs in `xs`. */
  lemma {:induction false} DistinctKeepsFirstSeenOrder<T>(xs: seq<T>, i: nat, j: nat)
    requires i < j < |Distinct(xs)|
    ensures Distinct(xs)[i] in xs && Distinct(xs)[j] in xs
    ensures FirstIndex(xs, Distinct(xs)[i]) < FirstIndex(xs, Distinct(xs)[j])
  {
    var init := xs[..|xs| - 1];
    var last := xs[|xs| - 1];
    assert xs == init + [last];
    var seen := Distinct(init);
    var r := Distinct(xs);
    assert r[i] in seen;
    FirstIndexInPrefix(init, last, r[i]);
    if j < |seen| {
      assert r[j] == seen[j] && r[i] == seen[i];
      FirstIndexInPrefix(init, last, r[j]);
      DistinctKeepsFirstSeenOrder(init, i, j);
    } else {
      assert last !in init && r[j] == last;
      assert xs[|init|] == last;
      assert forall k :: 0 <= k < |init| ==> xs[k] != last;
    }
  }
}
