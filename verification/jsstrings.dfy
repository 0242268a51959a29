/**
 JavaScript strings as the checklist tool sees them: sequences of UTF-16 code
 units. Everything the tool does with strings (default `Array.prototype.sort`
 comparison, template-literal concatenation, `includes`, `toLowerCase`) is
 defined here on code units.
 */
module JsStrings {

  /** One UTF-16 code unit. */
  newtype CodeUnit = x: int | 0 <= x < 0x1_0000

  /** A JavaScript string value. */
  type JsString = seq<CodeUnit>

  /** The separator `-` used by the composite checklist key. */
  const Dash: CodeUnit := 0x2D

  /** The code units of a Dafny string literal whose characters all lie in the
      Basic Multilingual Plane (each such character is one UTF-16 code unit). */
  function FromBmp(s: string): (r: JsString)
    requires forall i :: 0 <= i < |s| ==> s[i] as int < 0x1_0000
    ensures |r| == |s|
    ensures forall i :: 0 <= i < |s| ==> r[i] as int == s[i] as int
  {
    seq(|s|, i requires 0 <= i < |s| => s[i] as int as CodeUnit)
  }

  // ---------------------------------------------------------------------------
  // Ordering: the comparison of the default `Array.prototype.sort`
  // ---------------------------------------------------------------------------

  /** `a` sorts at or before `b`: code unit by code unit, a proper prefix first. */
  predicate LessEq(a: JsString, b: JsString)
    decreases |a|
  {
    |a| == 0 || (|b| > 0 && (a[0] < b[0] || (a[0] == b[0] && LessEq(a[1..], b[1..]))))
  }

  /** The same order, stated without recursion: `a` is a prefix of `b`, or the
      first code unit where they differ is smaller in `a`. */
  ghost predicate LessEqAt(a: JsString, b: JsString)
  {
    (|a| <= |b| && a == b[..|a|])
    || exists i :: 0 <= i < |a| && i < |b| && a[..i] == b[..i] && a[i] < b[i]
  }

  lemma {:induction false} LessEqMeansLessEqAt(a: JsString, b: JsString)
    ensures LessEq(a, b) <==> LessEqAt(a, b)
    decreases |a|
  {
    if |a| == 0 {
      assert a == b[..0];
    } else if |b| == 0 {
      assert !LessEqAt(a, b);
    } else if a[0] < b[0] {
      assert a[..0] == b[..0];
    } else if a[0] > b[0] {
      assert !(|a| <= |b| && a == b[..|a|]) by {
        if |a| <= |b| {
          assert a[0] != b[..|a|][0];
        }
      }
      forall i | 0 < i < |a| && i < |b|
        ensures a[..i] != b[..i]
      {
        assert a[..i][0] != b[..i][0];
      }
    } else {
      LessEqMeansLessEqAt(a[1..], b[1..]);
      if LessEqAt(a[1..], b[1..]) {
        if |a[1..]| <= |b[1..]| && a[1..] == b[1..][..|a[1..]|] {
          assert a == [a[0]] + a[1..];
          assert b[..|a|] == [b[0]] + b[1..][..|a[1..]|];
        } else {
          var i :| 0 <= i < |a[1..]| && i < |b[1..]| && a[1..][..i] == b[1..][..i] && a[1..][i] < b[1..][i];
          assert a[..i + 1] == [a[0]] + a[1..][..i];
          assert b[..i + 1] == [b[0]] + b[1..][..i];
        }
      }
      if LessEqAt(a, b) {
        if |a| <= |b| && a == b[..|a|] {
          assert a[1..] == b[1..][..|a[1..]|];
        } else {
          var i :| 0 <= i < |a| && i < |b| && a[..i] == b[..i] && a[i] < b[i];
          assert i > 0;
          assert a[1..][..i - 1] == a[..i][1..];
          assert b[1..][..i - 1] == b[..i][1..];
        }
      }
    }
  }

  lemma {:induction false} LessEqReflexive(a: JsString)
    ensures LessEq(a, a)
    decreases |a|
  {
    if |a| > 0 {
      LessEqReflexive(a[1..]);
    }
  }

  lemma {:induction false} LessEqTotal(a: JsString, b: JsString)
    ensures LessEq(a, b) || LessEq(b, a)
    decreases |a|
  {
    if |a| > 0 && |b| > 0 && a[0] == b[0] {
      LessEqTotal(a[1..], b[1..]);
    }
  }

  lemma {:induction false} LessEqAntisymmetric(a: JsString, b: JsString)
    requires LessEq(a, b) && LessEq(b, a)
    ensures a == b
    decreases |a|
  {
    if |a| > 0 {
      LessEqAntisymmetric(a[1..], b[1..]);
      assert a == [a[0]] + a[1..];
      assert b == [b[0]] + b[1..];
    }
  }

  lemma {:induction false} LessEqTransitive(a: JsString, b: JsString, c: JsString)
    requires LessEq(a, b) && LessEq(b, c)
    ensures LessEq(a, c)
    decreases |a|
  {
    if |a| > 0 && a[0] == b[0] && b[0] == c[0] {
      LessEqTransitive(a[1..], b[1..], c[1..]);
    }
  }

  // ---------------------------------------------------------------------------
  // String.prototype.includes and String.prototype.toLowerCase
  // ---------------------------------------------------------------------------

  /** `s.startsWith(p)`. */
  predicate StartsWith(s: JsString, p: JsString)
  {
    |p| <= |s| && s[..|p|] == p
  }

  /** `s.includes(p)`: some position of `s` starts an occurrence of `p`. */
  predicate Includes(s: JsString, p: JsString)
    decreases |s|
  {
    StartsWith(s, p) || (|s| > 0 && Includes(s[1..], p))
  }

  /** `p` occurs in `s` starting at position `i`. */
  ghost predicate OccursAt(s: JsString, p: JsString, i: int)
  {
    0 <= i && i + |p| <= |s| && s[i..i + |p|] == p
  }

  /** `Includes` finds `p` exactly when `p` occurs somewhere in `s`. */
  lemma {:induction false} IncludesIff(s: JsString, p: JsString)
    ensures Includes(s, p) <==> exists i :: OccursAt(s, p, i)
    decreases |s|
  {
    if StartsWith(s, p) {
      assert OccursAt(s, p, 0);
    } else if |s| > 0 {
      IncludesIff(s[1..], p);
      if Includes(s[1..], p) {
        var i :| OccursAt(s[1..], p, i);
        assert s[i + 1..i + 1 + |p|] == s[1..][i..i + |p|];
        assert OccursAt(s, p, i + 1);
      }
      if exists i :: OccursAt(s, p, i) {
        var i :| OccursAt(s, p, i);
        assert i > 0;
        assert s[1..][i - 1..i - 1 + |p|] == s[i..i + |p|];
        assert OccursAt(s[1..], p, i - 1);
      }
    } else {
      assert forall i :: !OccursAt(s, p, i);
    }
  }

  /** The empty string occurs in every string. */
  lemma IncludesEmpty(s: JsString)
    ensures Includes(s, [])
  {
    assert StartsWith(s, []);
  }

  /** An ASCII capital letter A-Z. */
  predicate IsUpper(u: CodeUnit)
  {
    0x41 <= u <= 0x5A
  }

  /** `toLowerCase` on one code unit, for the ASCII letters A-Z. */
  function LowerUnit(u: CodeUnit): CodeUnit
  {
    if IsUpper(u) then u + 0x20 else u
  }

  /** `s.toLowerCase()`, folding ASCII letters only: no capital is left, each
      capital becomes its small letter, and every other code unit stays. */
  function ToLower(s: JsString): (r: JsString)
    ensures |r| == |s|
    ensures forall i :: 0 <= i < |r| ==> !IsUpper(r[i])
    ensures forall i :: 0 <= i < |s| && !IsUpper(s[i]) ==> r[i] == s[i]
    ensures forall i :: 0 <= i < |s| && IsUpper(s[i]) ==> r[i] as int == s[i] as int + 0x20
  {
    seq(|s|, i requires 0 <= i < |s| => LowerUnit(s[i]))
  }

  /** Lower-casing twice is lower-casing once. */
  lemma ToLowerIdempotent(s: JsString)
    ensures ToLower(ToLower(s)) == ToLower(s)
  {
  }

  /** A string without capitals is its own lower case. */
  lemma ToLowerNoUpper(s: JsString)
    requires forall i :: 0 <= i < |s| ==> !IsUpper(s[i])
    ensures ToLower(s) == s
  {
  }
}
