/**
 * The .NET string operations the crawler and the sitemap parser rely on, on
 * strings as sequences of Unicode scalar values; text outside the Basic
 * Multilingual Plane, which .NET stores as surrogate pairs, is not modelled.
 * Case-insensitive comparisons
 * (`StringComparison.OrdinalIgnoreCase`) fold ASCII letters only.
 */
module Text {
  import opened Wrappers

  /** The case folding of `OrdinalIgnoreCase`, restricted to ASCII letters. */
  function Fold(c: char): char
  {
    if 'A' <= c <= 'Z' then (c as int + 32) as char else c
  }

  predicate EqualsIgnoreCase(a: string, b: string)
  {
    |a| == |b| && forall i :: 0 <= i < |a| ==> Fold(a[i]) == Fold(b[i])
  }

  /** `s.StartsWith(p, StringComparison.Ordinal)` */
  predicate StartsWith(s: string, p: string)
  {
    |p| <= |s| && s[..|p|] == p
  }

  /** `s.StartsWith(p, StringComparison.OrdinalIgnoreCase)` */
  predicate StartsWithIgnoreCase(s: string, p: string)
  {
    |p| <= |s| && EqualsIgnoreCase(s[..|p|], p)
  }

  /** `s.EndsWith(p, StringComparison.OrdinalIgnoreCase)` */
  predicate EndsWithIgnoreCase(s: string, p: string)
  {
    |p| <= |s| && EqualsIgnoreCase(s[|s| - |p|..], p)
  }

  /** `s.Contains(p)`: an ordinal substring search; the empty string occurs everywhere. */
  predicate Contains(s: string, p: string)
    decreases |s|
  {
    StartsWith(s, p) || (|s| > 0 && Contains(s[1..], p))
  }

  /** `p` occurs in `s` at position `i`. */
  ghost predicate OccursAt(s: string, p: string, i: int)
  {
    0 <= i && i + |p| <= |s| && s[i..i + |p|] == p
  }

  lemma {:induction false} OccursImpliesContains(s: string, p: string, i: int)
    requires OccursAt(s, p, i)
    ensures Contains(s, p)
    decreases i
  {
    if i == 0 {
      assert s[..|p|] == s[0..|p|];
    } else {
      assert s[1..][i - 1..i - 1 + |p|] == s[i..i + |p|];
      OccursImpliesContains(s[1..], p, i - 1);
    }
  }

  lemma {:induction false} ContainsImpliesOccurs(s: string, p: string)
    requires Contains(s, p)
    ensures exists i :: OccursAt(s, p, i)
    decreases |s|
  {
    if StartsWith(s, p) {
      assert OccursAt(s, p, 0);
    } else {
      ContainsImpliesOccurs(s[1..], p);
      var i :| OccursAt(s[1..], p, i);
      assert s[1..][i..i + |p|] == s[i + 1..i + 1 + |p|];
      assert OccursAt(s, p, i + 1);
    }
  }

  /** The recursive search agrees with the definition of a substring occurrence. */
  lemma ContainsIffOccurs(s: string, p: string)
    ensures Contains(s, p) <==> exists i :: OccursAt(s, p, i)
  {
    if Contains(s, p) {
      ContainsImpliesOccurs(s, p);
    }
    if exists i :: OccursAt(s, p, i) {
      var i :| OccursAt(s, p, i);
      OccursImpliesContains(s, p, i);
    }
  }

  /**
   * `s.Replace(p, r)`: every occurrence of `p`, found left to right without
   * overlapping, replaced by `r`.
   */
  function ReplaceAll(s: string, p: string, r: string): string
    requires |p| > 0
    decreases |s|
  {
    if |s| < |p| then s
    else if s[..|p|] == p then r + ReplaceAll(s[|p|..], p, r)
    else [s[0]] + ReplaceAll(s[1..], p, r)
  }

  /** A string in which `p` does not occur is left as it is. */
  lemma {:induction false} ReplaceAbsent(s: string, p: string, r: string)
    requires |p| > 0 && !Contains(s, p)
    ensures ReplaceAll(s, p, r) == s
    decreases |s|
  {
    if |s| >= |p| {
      assert !StartsWith(s, p);
      ReplaceAbsent(s[1..], p, r);
      assert [s[0]] + s[1..] == s;
    }
  }

  /** A prefix that does not contain the first character of `p` passes through unchanged. */
  lemma {:induction false} ReplaceKeepsPrefix(x: string, y: string, p: string, r: string)
    requires |p| > 0 && p[0] !in x
    ensures ReplaceAll(x + y, p, r) == x + ReplaceAll(y, p, r)
    decreases |x|
  {
    if |x| > 0 {
      var s := x + y;
      assert s[0] == x[0] != p[0];
      assert s[1..] == x[1..] + y;
      ReplaceKeepsPrefix(x[1..], y, p, r);
      if |s| >= |p| {
        assert s[..|p|] != p;
        assert ReplaceAll(s, p, r) == [x[0]] + (x[1..] + ReplaceAll(y, p, r));
        assert [x[0]] + (x[1..] + ReplaceAll(y, p, r)) == x + ReplaceAll(y, p, r);
      } else {
        ReplaceShort(s, p, r);
        ReplaceShort(y, p, r);
      }
    } else {
      assert x + y == y;
    }
  }

  lemma ReplaceShort(s: string, p: string, r: string)
    requires |p| > 0 && |s| < |p|
    ensures ReplaceAll(s, p, r) == s
  {
  }

  /** `char.IsWhiteSpace`: the Unicode space separators, line and paragraph separators, and the control characters U+0009-U+000D and U+0085. */
  predicate IsWhiteSpace(c: char)
  {
    ('\U{0009}' <= c <= '\U{000D}') || c == ' ' || c == '\U{0085}' || c == '\U{00A0}' || c == '\U{1680}'
    || ('\U{2000}' <= c <= '\U{200A}') || c == '\U{2028}' || c == '\U{2029}' || c == '\U{202F}'
    || c == '\U{205F}' || c == '\U{3000}'
  }

  /** `string.IsNullOrEmpty` */
  predicate IsNullOrEmpty(s: Option<string>)
  {
    s.None? || s.value == ""
  }

  /** `string.IsNullOrWhiteSpace` */
  predicate IsNullOrWhiteSpace(s: Option<string>)
  {
    s.None? || forall i :: 0 <= i < |s.value| ==> IsWhiteSpace(s.value[i])
  }
}
