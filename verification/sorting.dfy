/**
 The default `Array.prototype.sort()` on an array of strings: the result is a
 permutation of the input, ascending in code-unit order. Insertion sort stands
 in for the engine's algorithm; `SortUnique` shows that every correct sort
 returns the same array, so the choice does not matter.
 */
module Sorting {
  import opened JsStrings

  /** Ascending in code-unit order. */
  predicate Sorted(s: seq<JsString>)
  {
    forall i, j :: 0 <= i < j < |s| ==> LessEq(s[i], s[j])
  }

  /** `x` sorts at or before every element of `s`. */
  ghost predicate AtOrBeforeAll(x: JsString, s: seq<JsString>)
  {
    forall i :: 0 <= i < |s| ==> LessEq(x, s[i])
  }

  lemma SortedCons(x: JsString, s: seq<JsString>)
    requires Sorted(s) && AtOrBeforeAll(x, s)
    ensures Sorted([x] + s)
  {
    var t := [x] + s;
    forall i, j | 0 <= i < j < |t|
      ensures LessEq(t[i], t[j])
    {
      if i > 0 {
        assert t[i] == s[i - 1] && t[j] == s[j - 1];
      } else {
        assert t[j] == s[j - 1];
      }
    }
  }

  /** Insert `x` into the sorted sequence `s`. */
  function Insert(x: JsString, s: seq<JsString>): (r: seq<JsString>)
    requires Sorted(s)
    ensures Sorted(r)
    ensures multiset(r) == multiset(s) + multiset{x}
    decreases |s|
  {
    if |s| == 0 then
      [x]
    else if LessEq(x, s[0]) then
      assert AtOrBeforeAll(x, s) by {
        forall i | 0 <= i < |s|
          ensures LessEq(x, s[i])
        {
          if i > 0 {
            LessEqTransitive(x, s[0], s[i]);
          }
        }
      }
      SortedCons(x, s);
      assert s == [s[0]] + s[1..];
      [x] + s
    else
      LessEqTotal(x, s[0]);
      var rest := Insert(x, s[1..]);
      assert s == [s[0]] + s[1..];
      assert AtOrBeforeAll(s[0], rest) by {
        forall i | 0 <= i < |rest|
          ensures LessEq(s[0], rest[i])
        {
          assert rest[i] in multiset(rest);
          if rest[i] != x {
            assert rest[i] in multiset(s[1..]);
            var k :| 0 <= k < |s[1..]| && s[1..][k] == rest[i];
            assert s[k + 1] == rest[i];
          }
        }
      }
      SortedCons(s[0], rest);
      [s[0]] + rest
  }

  /** `array.sort()` with the default comparison. */
  function Sort(s: seq<JsString>): (r: seq<JsString>)
    ensures Sorted(r)
    ensures multiset(r) == multiset(s)
    decreases |s|
  {
    if |s| == 0 then
      []
    else
      assert s == [s[0]] + s[1..];
      Insert(s[0], Sort(s[1..]))
  }

  /** Two sorted sequences holding the same elements are equal: the result of a
      sort is determined by the multiset it sorts. */
  lemma {:induction false} SortUnique(a: seq<JsString>, b: seq<JsString>)
    requires Sorted(a) && Sorted(b)
    requires multiset(a) == multiset(b)
    ensures a == b
    decreases |a|
  {
    if |a| == 0 {
      assert |b| == |multiset(b)| == 0;
    } else {
      assert |b| == |multiset(b)| == |multiset(a)| == |a|;
      assert a[0] in multiset(b);
      var j :| 0 <= j < |b| && b[j] == a[0];
      assert b[0] in multiset(a);
      var i :| 0 <= i < |a| && a[i] == b[0];
      if j > 0 {
        assert LessEq(b[0], b[j]);
      } else {
        LessEqReflexive(b[0]);
      }
      if i > 0 {
        assert LessEq(a[0], a[i]);
      } else {
        LessEqReflexive(a[0]);
      }
      LessEqAntisymmetric(a[0], b[0]);
      assert a == [a[0]] + a[1..];
      assert b == [b[0]] + b[1..];
      assert multiset(a) == multiset{a[0]} + multiset(a[1..]);
      assert multiset(b) == multiset{b[0]} + multiset(b[1..]);
      assert a[0] == b[0];
      assert multiset(a[1..]) == multiset(a) - multiset{a[0]};
      assert multiset(b[1..]) == multiset(b) - multiset{b[0]};
      SortUnique(a[1..], b[1..]);
    }
  }

  /** Sorting a sorted sequence leaves it unchanged. */
  lemma SortIdempotent(s: seq<JsString>)
    requires Sorted(s)
    ensures Sort(s) == s
  {
    SortUnique(Sort(s), s);
  }
}
