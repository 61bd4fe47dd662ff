/**
 * The Python `str` operations the two scripts rely on, over `seq<char>`
 * (a Dafny `char` is a Unicode scalar value, as a Python code point is):
 * `isspace`, `strip`, `in`, `startswith`, `replace` and slicing.
 */
module Text {

  /** `str.isspace()` for one character (also what `\s` matches in a `str` pattern). */
  predicate IsSpace(c: char) {
    ('\t' <= c <= '\r') || ('\U{1c}' <= c <= '\U{1f}') || c == ' ' || c == '\U{85}' || c == '\U{a0}'
    || c == '\U{1680}' || ('\U{2000}' <= c <= '\U{200a}') || c == '\U{2028}' || c == '\U{2029}'
    || c == '\U{202f}' || c == '\U{205f}' || c == '\U{3000}'
  }

  /** An ASCII decimal digit. */
  predicate IsDigit(c: char) {
    '0' <= c <= '9'
  }

  predicate AllDigits(s: string) {
    forall i :: 0 <= i < |s| ==> IsDigit(s[i])
  }

  /** Some character of `s` is not whitespace. */
  predicate HasNonSpace(s: string) {
    s != [] && (!IsSpace(s[0]) || HasNonSpace(s[1..]))
  }

  // ---------------------------------------------------------------- strip

  /** `s.lstrip()`: drops the longest all-whitespace prefix. */
  function LStrip(s: string): (r: string)
    ensures |r| <= |s| && r == s[|s| - |r|..]
    ensures r == [] || !IsSpace(r[0])
    ensures forall i :: 0 <= i < |s| - |r| ==> IsSpace(s[i])
  {
    if s == [] || !IsSpace(s[0]) then s else LStrip(s[1..])
  }

  /** `s.rstrip()`: drops the longest all-whitespace suffix. */
  function RStrip(s: string): (r: string)
    ensures |r| <= |s| && r == s[..|r|]
    ensures r == [] || !IsSpace(r[|r| - 1])
    ensures forall i :: |r| <= i < |s| ==> IsSpace(s[i])
  {
    if s == [] || !IsSpace(s[|s| - 1]) then s else RStrip(s[..|s| - 1])
  }

  /** `s.strip()`. */
  function Strip(s: string): (r: string)
    ensures r == [] || (!IsSpace(r[0]) && !IsSpace(r[|r| - 1]))
  {
    RStrip(LStrip(s))
  }

  /**
   * `Strip`'s own ensures, restated about one given text so that a proof
   * that needs them for a `Strip` of a literal-bearing term gets them
   * without unfolding `Strip` (used by `Extractor.NameKeyShape`).
   */
  lemma StripShape(s: string)
    ensures var r := Strip(s); r == [] || (!IsSpace(r[0]) && !IsSpace(r[|r| - 1]))
  {
  }

  /**
   * What `s.strip()` is: the part of `s` left once an all-whitespace run is
   * cut from its front and another from its back. With `Strip`'s ensures
   * (neither end of the result is whitespace) this fixes the result.
   */
  lemma StripTrims(s: string)
    ensures exists i :: (0 <= i <= |s| - |Strip(s)| && s[i..][..|Strip(s)|] == Strip(s)
      && (forall k :: 0 <= k < i ==> IsSpace(s[k]))
      && (forall k :: i + |Strip(s)| <= k < |s| ==> IsSpace(s[k])))
  {
    var l := LStrip(s);
    var r := Strip(s);
    var i := |s| - |l|;
    assert s[i..] == l;
    forall k | i + |r| <= k < |s| ensures IsSpace(s[k]) {
      assert s[k] == l[k - i];
    }
  }

  /** Stripping only removes characters. */
  lemma StripSubset(s: string)
    ensures forall c :: c in Strip(s) ==> c in s
  {
    var l := LStrip(s);
    forall c | c in Strip(s) ensures c in s {
      var k :| 0 <= k < |Strip(s)| && Strip(s)[k] == c;
      assert l[k] == c;
      assert s[|s| - |l| + k] == c;
    }
  }

  /** `s.strip()` is empty exactly when `s` is all whitespace. */
  lemma {:induction false} StripEmpty(s: string)
    ensures Strip(s) != [] <==> HasNonSpace(s)
  {
    if s != [] && IsSpace(s[0]) {
      StripEmpty(s[1..]);
    }
  }

  /** Stripping a string a second time changes nothing. */
  lemma {:induction false} StripIdempotent(s: string)
    ensures Strip(Strip(s)) == Strip(s)
  {
    var r := Strip(s);
    if r != [] {
      assert LStrip(r) == r;
      assert RStrip(r) == r;
    }
  }

  /** Left-stripping `t + u` stops inside `t` when `t` has a visible character. */
  lemma {:induction false} LStripConcat(t: string, u: string)
    requires HasNonSpace(t)
    ensures LStrip(t + u) == LStrip(t) + u
  {
    assert (t + u)[0] == t[0];
    if IsSpace(t[0]) {
      assert (t + u)[1..] == t[1..] + u;
      LStripConcat(t[1..], u);
    }
  }

  /** Left-stripping `t + u` strips all of `t` when `t` is all whitespace. */
  lemma {:induction false} LStripSpaces(t: string, u: string)
    requires !HasNonSpace(t)
    ensures LStrip(t + u) == LStrip(u)
  {
    if t != [] {
      assert (t + u)[0] == t[0];
      assert (t + u)[1..] == t[1..] + u;
      LStripSpaces(t[1..], u);
    } else {
      assert t + u == u;
    }
  }

  /** Right-stripping changes nothing when the last character is visible. */
  lemma RStripVisibleEnd(s: string)
    requires s != [] && !IsSpace(s[|s| - 1])
    ensures RStrip(s) == s
  {
  }

  // ------------------------------------------------------ search and replace

  predicate StartsWith(s: string, p: string) {
    |p| <= |s| && s[..|p|] == p
  }

  lemma StartsWithConcat(a: string, b: string)
    ensures StartsWith(a + b, a)
  {
    assert (a + b)[..|a|] == a;
  }

  lemma StartsWithLonger(a: string, b: string, p: string)
    requires StartsWith(a, p)
    ensures StartsWith(a + b, p)
  {
    assert (a + b)[..|p|] == a[..|p|];
  }

  /** `p in s` (substring test). */
  predicate Contains(s: string, p: string)
    decreases |s|
  {
    StartsWith(s, p) || (s != [] && Contains(s[1..], p))
  }

  /** `p` occurs in `s` at offset `i`. */
  predicate OccursAt(s: string, p: string, i: int) {
    0 <= i && i + |p| <= |s| && s[i..i + |p|] == p
  }

  /** `Contains` is the substring relation: `p` occurs at some offset of `s`. */
  lemma {:induction false} ContainsAt(s: string, p: string)
    ensures Contains(s, p) <==> exists i :: OccursAt(s, p, i)
  {
    if StartsWith(s, p) {
      assert OccursAt(s, p, 0);
    } else if s != [] {
      ContainsAt(s[1..], p);
      if Contains(s[1..], p) {
        var i :| OccursAt(s[1..], p, i);
        assert s[1..][i..i + |p|] == s[i + 1..i + 1 + |p|];
        assert OccursAt(s, p, i + 1);
      }
      if exists i :: OccursAt(s, p, i) {
        var i :| OccursAt(s, p, i);
        assert i != 0;
        assert s[1..][i - 1..i - 1 + |p|] == s[i..i + |p|];
        assert OccursAt(s[1..], p, i - 1);
      }
    } else {
      assert forall i :: !OccursAt(s, p, i);
    }
  }

  /** Any piece placed between two strings occurs in the result. */
  lemma ContainsMiddle(a: string, p: string, b: string)
    ensures Contains(a + p + b, p)
  {
    ContainsAt(a + p + b, p);
    assert (a + p + b)[|a|..|a| + |p|] == p;
    assert OccursAt(a + p + b, p, |a|);
  }

  /** An occurrence in a suffix of `s` is an occurrence in `s`. */
  lemma ContainsSuffix(s: string, k: nat, p: string)
    requires k <= |s|
    ensures Contains(s[k..], p) ==> Contains(s, p)
  {
    if Contains(s[k..], p) {
      ContainsAt(s[k..], p);
      ContainsAt(s, p);
      var i :| OccursAt(s[k..], p, i);
      assert s[k..][i..i + |p|] == s[k + i..k + i + |p|];
      assert OccursAt(s, p, k + i);
    }
  }

  /** A string shorter than `p` does not contain it. */
  lemma {:induction false} ShortNotContains(s: string, p: string)
    requires |s| < |p|
    ensures !Contains(s, p)
  {
    if s != [] {
      ShortNotContains(s[1..], p);
    }
  }

  /** Text appended after an occurrence keeps it. */
  lemma ContainsLeft(a: string, b: string, p: string)
    requires Contains(a, p)
    ensures Contains(a + b, p)
  {
    ContainsAt(a, p);
    ContainsAt(a + b, p);
    var i :| OccursAt(a, p, i);
    assert (a + b)[i..i + |p|] == a[i..i + |p|];
    assert OccursAt(a + b, p, i);
  }

  /** Text prepended before an occurrence keeps it. */
  lemma ContainsRight(a: string, b: string, p: string)
    requires Contains(b, p)
    ensures Contains(a + b, p)
  {
    assert (a + b)[|a|..] == b;
    ContainsSuffix(a + b, |a|, p);
  }

  /** A string containing `p` contains everything `p` contains. */
  lemma ContainsTrans(s: string, p: string, q: string)
    requires Contains(s, p) && Contains(p, q)
    ensures Contains(s, q)
  {
    ContainsAt(s, p);
    ContainsAt(p, q);
    ContainsAt(s, q);
    var i :| OccursAt(s, p, i);
    var j :| OccursAt(p, q, j);
    forall k | 0 <= k < |q| ensures s[i + j + k] == q[k] {
      assert q[k] == p[j + k] == s[i..i + |p|][j + k];
    }
    assert s[i + j..i + j + |q|] == q;
    assert OccursAt(s, q, i + j);
  }

  /**
   * `s.replace(target, repl)`: scans left to right and replaces every
   * non-overlapping occurrence of `target`. The scripts only ever replace
   * a non-empty string.
   */
  function Replace(s: string, target: string, repl: string): string
    requires target != []
    decreases |s|
  {
    if StartsWith(s, target) then repl + Replace(s[|target|..], target, repl)
    else if s == [] then []
    else [s[0]] + Replace(s[1..], target, repl)
  }

  /** Replacing a string that does not occur changes nothing. */
  lemma {:induction false} ReplaceAbsent(s: string, target: string, repl: string)
    requires target != [] && !Contains(s, target)
    ensures Replace(s, target, repl) == s
  {
    if s != [] {
      ReplaceAbsent(s[1..], target, repl);
    }
  }

  /** Replacing a string that does occur leaves the replacement in the result. */
  lemma {:induction false} ReplacePresent(s: string, target: string, repl: string)
    requires target != [] && Contains(s, target)
    ensures Contains(Replace(s, target, repl), repl)
  {
    if StartsWith(s, target) {
      ContainsMiddle([], repl, Replace(s[|target|..], target, repl));
    } else {
      ReplacePresent(s[1..], target, repl);
      var r := Replace(s[1..], target, repl);
      ContainsSuffix([s[0]] + r, 1, repl);
    }
  }

  /** No occurrence of `p` starts in `s` before offset `n`. */
  predicate NoStartBefore(s: string, p: string, n: int) {
    forall i :: 0 <= i < n && i <= |s| ==> !StartsWith(s[i..], p)
  }

  /** Dropping the first character shifts the stretch free of occurrences by one. */
  lemma NoStartShift(s: string, p: string, n: int)
    requires s != [] && NoStartBefore(s, p, n)
    ensures NoStartBefore(s[1..], p, n - 1)
  {
    forall i | 0 <= i < n - 1 && i <= |s| - 1
      ensures !StartsWith(s[1..][i..], p)
    {
      assert s[1..][i..] == s[i + 1..];
    }
  }

  /** A stretch at the front in which no occurrence of `target` starts is copied unchanged. */
  lemma {:induction false} ReplaceSkip(a: string, b: string, target: string, repl: string)
    requires target != [] && NoStartBefore(a + b, target, |a|)
    ensures Replace(a + b, target, repl) == a + Replace(b, target, repl)
  {
    if a != [] {
      var s := a + b;
      assert s[0..] == s;
      assert !StartsWith(s, target);
      assert s[1..] == a[1..] + b;
      NoStartShift(s, target, |a|);
      ReplaceSkip(a[1..], b, target, repl);
      calc {
        Replace(s, target, repl);
        [s[0]] + Replace(s[1..], target, repl);
        [a[0]] + (a[1..] + Replace(b, target, repl));
        { assert a == [a[0]] + a[1..]; }
        a + Replace(b, target, repl);
      }
    } else {
      assert a + b == b;
    }
  }

  /** The string with every `c` removed. */
  function Without(s: string, c: char): (r: string)
    ensures c !in r
    ensures forall d :: d in r ==> d in s
  {
    if s == [] then [] else (if s[0] == c then [] else [s[0]]) + Without(s[1..], c)
  }

  /** `s.replace(c, '')` for one character is `Without(s, c)`. */
  lemma {:induction false} ReplaceCharIsWithout(s: string, c: char)
    ensures Replace(s, [c], []) == Without(s, c)
  {
    if s != [] {
      ReplaceCharIsWithout(s[1..], c);
    }
  }

  /** Removing a character from `a + b` removes it from both parts. */
  lemma {:induction false} WithoutConcat(a: string, b: string, c: char)
    ensures Without(a + b, c) == Without(a, c) + Without(b, c)
  {
    if a != [] {
      var s := a + b;
      assert s != [] && s[0] == a[0] && s[1..] == a[1..] + b;
      WithoutConcat(a[1..], b, c);
      var h := if a[0] == c then [] else [a[0]];
      calc {
        Without(s, c);
        h + Without(a[1..] + b, c);
        h + (Without(a[1..], c) + Without(b, c));
        (h + Without(a[1..], c)) + Without(b, c);
        { assert Without(a, c) == h + Without(a[1..], c); }
        Without(a, c) + Without(b, c);
      }
    } else {
      assert a + b == b;
    }
  }

  /** `s[:n]`: the first `n` characters, or all of `s` when it is shorter. */
  function Take(s: string, n: nat): (r: string)
    ensures |r| <= n && |r| <= |s|
    ensures r == s[..|r|]
    ensures |s| <= n ==> r == s
  {
    if |s| <= n then s else s[..n]
  }

  /**
   * The part of `s` before its first `c`, all of `s` when there is none
   * (`s.partition(c)[0]`): what a `([^c]+)c` group can capture when `s` is
   * followed by a `c`.
   */
  function BeforeFirst(s: string, c: char): (r: string)
    ensures |r| <= |s| && r == s[..|r|] && c !in r
    ensures |r| == |s| || s[|r|] == c
    ensures c !in s ==> r == s
  {
    if s == [] || s[0] == c then [] else [s[0]] + BeforeFirst(s[1..], c)
  }

  /** A `c` at `k` with none before it ends the part before the first `c`. */
  lemma {:induction false} BeforeFirstAt(s: string, c: char, k: nat)
    requires k < |s| && s[k] == c && c !in s[..k]
    ensures BeforeFirst(s, c) == s[..k]
  {
    if k > 0 {
      assert s[0] == s[..k][0];
      assert s[1..][..k - 1] == s[..k][1..];
      BeforeFirstAt(s[1..], c, k - 1);
    }
  }
}
