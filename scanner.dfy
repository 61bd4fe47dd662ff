/**
 * `re.search` for the one shape of pattern the schema fixer uses:
 * a literal prefix, a capture group `(C+)` over a character class, and a
 * tail of literals and starred classes `D*`. The scanner takes every run
 * maximally (no backtracking); for patterns in which a run's class cannot
 * begin what follows it (`WellFormed`) this is proved to agree with the
 * backtracking semantics of a regular expression, and `Search` is proved
 * to return the group of the leftmost match.
 */
module Scanner {
  import opened Wrappers
  import opened Text

  /** The character classes in the patterns: `[^x]`, `\d`, `[\d,]` and `\s`. */
  datatype CharClass = AnyBut(excluded: char) | Digit | DigitOrComma | Space

  predicate InClass(k: CharClass, c: char) {
    match k
    case AnyBut(x) => c != x
    case Digit => IsDigit(c)
    case DigitOrComma => IsDigit(c) || c == ','
    case Space => IsSpace(c)
  }

  predicate AllIn(k: CharClass, s: string) {
    forall i :: 0 <= i < |s| ==> InClass(k, s[i])
  }

  /** What follows the capture group: a literal, or `k*`. */
  datatype Elem = Lit(text: string) | Star(cls: CharClass)

  /** The pattern `prefix(capture+)tail`. */
  datatype Pattern = Pattern(prefix: string, capture: CharClass, tail: seq<Elem>)

  // ------------------------------------------------ regular-expression semantics

  /** `tail` matches some prefix of `s` (any split of the starred runs). */
  ghost predicate Accepts(tail: seq<Elem>, s: string)
    decreases |tail|
  {
    if tail == [] then true
    else match tail[0]
      case Lit(t) => StartsWith(s, t) && Accepts(tail[1..], s[|t|..])
      case Star(k) => exists n :: 0 <= n <= |s| && AllIn(k, s[..n]) && Accepts(tail[1..], s[n..])
  }

  /** The pattern matches at the start of `s` with a group of length `n`. */
  ghost predicate MatchesWith(p: Pattern, s: string, n: int) {
    StartsWith(s, p.prefix) && 0 < n && |p.prefix| + n <= |s|
    && AllIn(p.capture, s[|p.prefix|..|p.prefix| + n])
    && Accepts(p.tail, s[|p.prefix| + n..])
  }

  // ------------------------------------------------------------ the scanner

  /** The length of the longest prefix of `s` inside class `k`. */
  function RunLength(k: CharClass, s: string): (n: nat)
    ensures n <= |s| && AllIn(k, s[..n])
    ensures n < |s| ==> !InClass(k, s[n])
  {
    if s == [] || !InClass(k, s[0]) then 0
    else
      var m := RunLength(k, s[1..]);
      assert s[..m + 1] == [s[0]] + s[1..][..m];
      1 + m
  }

  /** Matches `tail` at the start of `s`, taking every starred run maximally. */
  predicate MatchTail(tail: seq<Elem>, s: string)
    decreases |tail|
  {
    if tail == [] then true
    else match tail[0]
      case Lit(t) => StartsWith(s, t) && MatchTail(tail[1..], s[|t|..])
      case Star(k) => MatchTail(tail[1..], s[RunLength(k, s)..])
  }

  /** The captured group if the pattern matches at the start of `s`. */
  function MatchPrefix(p: Pattern, s: string): (r: Option<string>)
    ensures r.Some? ==> r.value != [] && AllIn(p.capture, r.value)
  {
    if !StartsWith(s, p.prefix) then None
    else
      var t := s[|p.prefix|..];
      var n := RunLength(p.capture, t);
      if n > 0 && MatchTail(p.tail, t[n..]) then Some(t[..n]) else None
  }

  /** `re.search(p, s).group(1)`: tries the start positions from left to right. */
  function Search(p: Pattern, s: string): (r: Option<string>)
    ensures r.Some? ==> r.value != [] && AllIn(p.capture, r.value)
    decreases |s|
  {
    match MatchPrefix(p, s)
    case Some(c) => Some(c)
    case None => if s == [] then None else Search(p, s[1..])
  }

  // ---------------------------------------------------------- well-formedness

  ghost predicate Disjoint(k1: CharClass, k2: CharClass) {
    forall c :: !(InClass(k1, c) && InClass(k2, c))
  }

  /** Whatever `tail` matches is non-empty and does not begin with a character of `k`. */
  ghost predicate Guards(k: CharClass, tail: seq<Elem>)
    decreases |tail|
  {
    tail != [] &&
    match tail[0]
    case Lit(t) => if t == [] then Guards(k, tail[1..]) else !InClass(k, t[0])
    case Star(k2) => Disjoint(k, k2) && Guards(k, tail[1..])
  }

  /** Every starred run in `tail` is guarded by what follows it. */
  ghost predicate TailWellFormed(tail: seq<Elem>) {
    forall i :: 0 <= i < |tail| && tail[i].Star? ==> Guards(tail[i].cls, tail[i + 1..])
  }

  /** The capture run and every starred run are guarded by what follows them. */
  ghost predicate WellFormed(p: Pattern) {
    Guards(p.capture, p.tail) && TailWellFormed(p.tail)
  }

  lemma {:induction false} GuardsBlock(k: CharClass, tail: seq<Elem>, s: string)
    requires Guards(k, tail) && Accepts(tail, s)
    ensures s != [] && !InClass(k, s[0])
    decreases |tail|
  {
    match tail[0]
    case Lit(t) =>
      if t == [] {
        assert s[|t|..] == s;
        GuardsBlock(k, tail[1..], s);
      } else {
        assert s[0] == t[0];
      }
    case Star(k2) =>
      var n :| 0 <= n <= |s| && AllIn(k2, s[..n]) && Accepts(tail[1..], s[n..]);
      if n == 0 {
        assert s[0..] == s;
        GuardsBlock(k, tail[1..], s);
      } else {
        assert InClass(k2, s[..n][0]);
      }
  }

  lemma TailWellFormedRest(tail: seq<Elem>)
    requires tail != [] && TailWellFormed(tail)
    ensures TailWellFormed(tail[1..])
  {
    forall i | 0 <= i < |tail| - 1 && tail[1..][i].Star?
      ensures Guards(tail[1..][i].cls, tail[1..][i + 1..])
    {
      assert tail[1..][i + 1..] == tail[i + 2..];
      assert tail[1..][i] == tail[i + 1];
    }
  }

  /** A guarded run that some split accepts is the maximal run. */
  lemma {:induction false} RunIsMaximal(k: CharClass, rest: seq<Elem>, s: string, n: int)
    requires Guards(k, rest)
    requires 0 <= n <= |s| && AllIn(k, s[..n]) && Accepts(rest, s[n..])
    ensures n == RunLength(k, s)
  {
    var m := RunLength(k, s);
    GuardsBlock(k, rest, s[n..]);
    assert s[n..][0] == s[n];
    assert forall j :: 0 <= j < m ==> InClass(k, s[j]) by {
      forall j | 0 <= j < m ensures InClass(k, s[j]) { assert s[..m][j] == s[j]; }
    }
    assert forall j :: 0 <= j < n ==> InClass(k, s[j]) by {
      forall j | 0 <= j < n ensures InClass(k, s[j]) { assert s[..n][j] == s[j]; }
    }
  }

  /** For a well-formed tail the maximal-run scanner is the regular-expression semantics. */
  lemma {:induction false} TailExact(tail: seq<Elem>, s: string)
    requires TailWellFormed(tail)
    ensures Accepts(tail, s) <==> MatchTail(tail, s)
    decreases |tail|
  {
    if tail != [] {
      TailWellFormedRest(tail);
      match tail[0]
      case Lit(t) =>
        if StartsWith(s, t) {
          TailExact(tail[1..], s[|t|..]);
        }
      case Star(k) =>
        var m := RunLength(k, s);
        TailExact(tail[1..], s[m..]);
        assert Guards(k, tail[1..]) by { assert tail[0 + 1..] == tail[1..]; }
        if Accepts(tail, s) {
          var n :| 0 <= n <= |s| && AllIn(k, s[..n]) && Accepts(tail[1..], s[n..]);
          RunIsMaximal(k, tail[1..], s, n);
        }
    }
  }

  /** What the scanner captures is a match of the regular expression. */
  lemma MatchPrefixSound(p: Pattern, s: string)
    requires WellFormed(p) && MatchPrefix(p, s).Some?
    ensures var c := MatchPrefix(p, s).value;
      MatchesWith(p, s, |c|) && c == s[|p.prefix|..|p.prefix| + |c|]
  {
    var t := s[|p.prefix|..];
    var n := RunLength(p.capture, t);
    assert t[..n] == s[|p.prefix|..|p.prefix| + n];
    assert t[n..] == s[|p.prefix| + n..];
    TailExact(p.tail, t[n..]);
  }

  /** Every match of the regular expression at the start of `s` is the one the scanner captures. */
  lemma MatchPrefixComplete(p: Pattern, s: string, n: int)
    requires WellFormed(p)
    ensures MatchesWith(p, s, n) ==> MatchPrefix(p, s) == Some(s[|p.prefix|..|p.prefix| + n])
  {
    if MatchesWith(p, s, n) {
      MatchPrefixExact(p, s, n);
    }
  }

  lemma MatchPrefixExact(p: Pattern, s: string, n: int)
    requires WellFormed(p) && MatchesWith(p, s, n)
    ensures MatchPrefix(p, s) == Some(s[|p.prefix|..|p.prefix| + n])
  {
    var t := s[|p.prefix|..];
    assert t[..n] == s[|p.prefix|..|p.prefix| + n];
    assert t[n..] == s[|p.prefix| + n..];
    RunIsMaximal(p.capture, p.tail, t, n);
    TailExact(p.tail, t[n..]);
  }

  // ------------------------------------------------------------ leftmost search

  /** `Search` returns the capture at the first start position where the scanner matches. */
  lemma SearchFirst(p: Pattern, s: string)
    ensures Search(p, s).Some? ==>
      exists i :: 0 <= i <= |s| && MatchPrefix(p, s[i..]) == Search(p, s)
        && forall j :: 0 <= j < i ==> MatchPrefix(p, s[j..]).None?
    ensures Search(p, s).None? ==> forall i :: 0 <= i <= |s| ==> MatchPrefix(p, s[i..]).None?
  {
    SearchFoundFirst(p, s);
    SearchNoneNowhere(p, s);
  }

  lemma {:induction false} SearchFoundFirst(p: Pattern, s: string)
    ensures Search(p, s).Some? ==>
      exists i :: 0 <= i <= |s| && MatchPrefix(p, s[i..]) == Search(p, s)
        && forall j :: 0 <= j < i ==> MatchPrefix(p, s[j..]).None?
    decreases |s|
  {
    assert s[0..] == s;
    if Search(p, s).Some? && MatchPrefix(p, s).None? {
      SearchFoundFirst(p, s[1..]);
      var i :| 0 <= i <= |s| - 1 && MatchPrefix(p, s[1..][i..]) == Search(p, s[1..])
        && forall j :: 0 <= j < i ==> MatchPrefix(p, s[1..][j..]).None?;
      assert s[1..][i..] == s[i + 1..];
      forall j | 0 <= j < i + 1 ensures MatchPrefix(p, s[j..]).None? {
        if j > 0 { assert s[1..][j - 1..] == s[j..]; }
      }
      assert MatchPrefix(p, s[i + 1..]) == Search(p, s);
    }
  }

  lemma {:induction false} SearchNoneNowhere(p: Pattern, s: string)
    ensures Search(p, s).None? ==> forall i :: 0 <= i <= |s| ==> MatchPrefix(p, s[i..]).None?
    decreases |s|
  {
    assert s[0..] == s;
    if Search(p, s).None? && s != [] {
      SearchNoneNowhere(p, s[1..]);
      forall i | 1 <= i <= |s| ensures MatchPrefix(p, s[i..]).None? {
        assert s[1..][i - 1..] == s[i..];
      }
    }
  }

  /** The leftmost match of the regular expression in `s` starts at `i` and has group `c`. */
  ghost predicate LeftmostMatch(p: Pattern, s: string, i: int, c: string) {
    0 <= i <= |s| && MatchesWith(p, s[i..], |c|) && c == s[i..][|p.prefix|..|p.prefix| + |c|]
    && forall j, n :: 0 <= j < i ==> !MatchesWith(p, s[j..], n)
  }

  /** The scanner's first match is the leftmost match of the regular expression. */
  lemma LeftmostAt(p: Pattern, s: string, i: int, c: string)
    requires WellFormed(p) && 0 <= i <= |s| && MatchPrefix(p, s[i..]) == Some(c)
    requires forall j :: 0 <= j < i ==> MatchPrefix(p, s[j..]).None?
    ensures LeftmostMatch(p, s, i, c)
  {
    MatchPrefixSound(p, s[i..]);
    forall j, n | 0 <= j < i ensures !MatchesWith(p, s[j..], n) {
      MatchPrefixComplete(p, s[j..], n);
    }
  }

  /** For a well-formed pattern, a result of `Search` is the group of the leftmost regex match. */
  lemma SearchFoundIsLeftmost(p: Pattern, s: string)
    requires WellFormed(p) && Search(p, s).Some?
    ensures exists i :: LeftmostMatch(p, s, i, Search(p, s).value)
  {
    SearchFirst(p, s);
    var i :| 0 <= i <= |s| && MatchPrefix(p, s[i..]) == Search(p, s)
      && forall j :: 0 <= j < i ==> MatchPrefix(p, s[j..]).None?;
    LeftmostAt(p, s, i, Search(p, s).value);
  }

  /** For a well-formed pattern, `Search` fails only when the regex matches nowhere. */
  lemma SearchNoneIsNoMatch(p: Pattern, s: string)
    requires WellFormed(p) && Search(p, s).None?
    ensures forall i, n :: 0 <= i <= |s| ==> !MatchesWith(p, s[i..], n)
  {
    SearchFirst(p, s);
    forall i, n | 0 <= i <= |s| ensures !MatchesWith(p, s[i..], n) {
      MatchPrefixComplete(p, s[i..], n);
    }
  }

  // ------------------------------------------ stretches the prefix cannot start in

  /** One of `x`, `y` is a prefix of the other. */
  predicate Compatible(x: string, y: string) {
    forall m :: 0 <= m < |x| && m < |y| ==> x[m] == y[m]
  }

  /** No occurrence of `p` can start in `a`, whatever follows `a`. */
  ghost predicate Clean(a: string, p: string) {
    forall i :: 0 <= i < |a| ==> !Compatible(a[i..], p)
  }

  lemma CleanNoStart(a: string, b: string, p: string)
    requires Clean(a, p)
    ensures NoStartBefore(a + b, p, |a|)
  {
    forall i | 0 <= i < |a| && i <= |a + b| ensures !StartsWith((a + b)[i..], p) {
      assert !Compatible(a[i..], p);
      var m :| 0 <= m < |a[i..]| && m < |p| && a[i..][m] != p[m];
      assert (a + b)[i..][m] == a[i..][m];
    }
  }

  lemma CleanConcat(a: string, b: string, p: string)
    requires Clean(a, p) && Clean(b, p)
    ensures Clean(a + b, p)
  {
    forall i | 0 <= i < |a + b| ensures !Compatible((a + b)[i..], p) {
      if i < |a| {
        var m :| 0 <= m < |a[i..]| && m < |p| && a[i..][m] != p[m];
        assert (a + b)[i..][m] == a[i..][m];
      } else {
        assert (a + b)[i..] == b[i - |a|..];
      }
    }
  }

  /** Text without the prefix's first character. */
  lemma CleanText(a: string, p: string)
    requires p != [] && p[0] !in a
    ensures Clean(a, p)
  {
    forall i | 0 <= i < |a| ensures !Compatible(a[i..], p) {
      assert a[i..][0] == a[i];
    }
  }

  /** A search skips a clean stretch at the front. */
  lemma {:induction false} SearchSkip(p: Pattern, a: string, b: string)
    requires Clean(a, p.prefix)
    ensures Search(p, a + b) == Search(p, b)
  {
    if a != [] {
      CleanNoStart(a, b, p.prefix);
      assert (a + b)[0..] == a + b;
      assert (a + b)[1..] == a[1..] + b;
      assert Clean(a[1..], p.prefix) by {
        forall i | 0 <= i < |a| - 1 ensures !Compatible(a[1..][i..], p.prefix) {
          assert a[1..][i..] == a[i + 1..];
        }
      }
      SearchSkip(p, a[1..], b);
    } else {
      assert a + b == b;
    }
  }

  /** A search over a stretch no occurrence can start in finds nothing. */
  lemma SearchCleanNone(p: Pattern, a: string)
    requires p.prefix != [] && Clean(a, p.prefix)
    ensures Search(p, a).None?
  {
    SearchSkip(p, a, []);
    assert a + [] == a;
  }

  /** A run over `a` stops where a character outside the class follows. */
  lemma {:induction false} RunLengthConcat(k: CharClass, a: string, b: string)
    requires AllIn(k, a) && b != [] && !InClass(k, b[0])
    ensures RunLength(k, a + b) == |a|
  {
    if a != [] {
      assert (a + b)[1..] == a[1..] + b;
      assert (a + b)[0] == a[0];
      RunLengthConcat(k, a[1..], b);
    } else {
      assert a + b == b;
    }
  }

  /** The pattern matching at the front is what the search returns. */
  lemma MatchAnchor(p: Pattern, capture: string, after: string)
    requires capture != [] && AllIn(p.capture, capture)
    requires after != [] && !InClass(p.capture, after[0]) && MatchTail(p.tail, after)
    ensures Search(p, p.prefix + (capture + after)) == Some(capture)
  {
    var s := p.prefix + (capture + after);
    assert s[..|p.prefix|] == p.prefix;
    assert s[|p.prefix|..] == capture + after;
    RunLengthConcat(p.capture, capture, after);
    assert (capture + after)[..|capture|] == capture;
    assert (capture + after)[|capture|..] == after;
  }

  /** A prefix the pattern matches with an empty capture is passed over. */
  lemma EmptyCaptureSkipped(p: Pattern, after: string)
    requires p.prefix != [] && after != [] && !InClass(p.capture, after[0])
    ensures Search(p, p.prefix + after) == Search(p, p.prefix[1..] + after)
  {
    var s := p.prefix + after;
    assert s[..|p.prefix|] == p.prefix;
    assert s[|p.prefix|..] == after;
    assert s[1..] == p.prefix[1..] + after;
  }

  /** A tag that opens like `p` and disagrees with it at position `m`. */
  lemma CleanOpen(open: string, rest: string, p: string, m: nat)
    requires 0 < m < |open| && m < |p| && open[0] == p[0] && open[m] != p[m]
    requires p[0] !in open[1..] && p[0] !in rest
    ensures Clean(open + rest, p)
  {
    var a := open + rest;
    forall i | 0 <= i < |a| ensures !Compatible(a[i..], p) {
      if i == 0 {
        assert a[i..][m] == open[m];
      } else if i < |open| {
        assert a[i..][0] == open[1..][i - 1];
      } else {
        assert a[i..][0] == rest[i - |open|];
      }
    }
  }

  /** A string without `x` is a run of `[^x]`. */
  lemma AllInAnyBut(x: char, s: string)
    requires x !in s
    ensures AllIn(AnyBut(x), s)
  {
    forall i | 0 <= i < |s| ensures s[i] != x {
      assert s[i] in s;
    }
  }
}
