/**
 * Decimal numerals as the scripts produce and consume them: `str(n)`,
 * `int(s)` and the thousands-separated `f"{n:,}"`.
 */
module Numerals {
  import opened Wrappers
  import opened Text

  function DigitChar(d: nat): (c: char)
    requires d < 10
    ensures IsDigit(c)
  {
    ('0' as int + d) as char
  }

  function DigitValue(c: char): (d: nat)
    requires IsDigit(c)
    ensures d < 10 && DigitChar(d) == c
  {
    c as int - '0' as int
  }

  /** `str(n)` for a natural number: its decimal digits, without leading zeros. */
  function NatToString(n: nat): (r: string)
    ensures r != [] && AllDigits(r)
    ensures r[0] == '0' ==> r == "0"
  {
    if n < 10 then [DigitChar(n)] else NatToString(n / 10) + [DigitChar(n % 10)]
  }

  /** The number a string of ASCII digits denotes. */
  function DigitsValue(s: string): nat
    requires AllDigits(s)
  {
    if s == [] then 0 else 10 * DigitsValue(s[..|s| - 1]) + DigitValue(s[|s| - 1])
  }

  /** Reading back a rendered natural number gives the number. */
  lemma {:induction false} NatToStringValue(n: nat)
    ensures DigitsValue(NatToString(n)) == n
  {
    if n >= 10 {
      var r := NatToString(n);
      assert r[..|r| - 1] == NatToString(n / 10);
      NatToStringValue(n / 10);
    }
  }

  /** `str(i)` for any integer. */
  function IntToString(i: int): (r: string)
    ensures r != []
    ensures i >= 0 <==> AllDigits(r)
    ensures i < 0 ==> r[0] == '-' && r[1..] != [] && AllDigits(r[1..])
  {
    if i < 0 then
      var r := "-" + NatToString(-i);
      assert !IsDigit(r[0]);
      r
    else NatToString(i)
  }

  /** The value of a non-empty run of digits, if `s` is one. */
  function Digits(s: string): Option<nat> {
    if s != [] && AllDigits(s) then Some(DigitsValue(s)) else None
  }

  /**
   * `int(s)` for a string: surrounding whitespace is ignored, then an
   * optional sign and a non-empty run of digits; anything else fails
   * (Python raises ValueError).
   */
  function ParseInt(s: string): Option<int> {
    var t := Strip(s);
    if t != [] && (t[0] == '-' || t[0] == '+') then
      match Digits(t[1..])
      case Some(v) => var x: int := v; Some(if t[0] == '-' then -x else x)
      case None => None
    else
      match Digits(t)
      case Some(v) => Some(v)
      case None => None
  }

  /** `int(s)` of a non-empty digit string is the number it denotes. */
  lemma ParseIntOfDigits(s: string)
    requires s != [] && AllDigits(s)
    ensures ParseInt(s) == Some(DigitsValue(s) as int)
  {
    assert !IsSpace(s[0]) && !IsSpace(s[|s| - 1]);
    StripUnchanged(s);
  }

  /** `int(str(i)) == i`. */
  lemma IntToStringRoundTrip(i: int)
    ensures ParseInt(IntToString(i)) == Some(i)
  {
    if i < 0 {
      NegativeRoundTrip(i);
    } else {
      NatToStringValue(i);
      ParseIntOfDigits(IntToString(i));
    }
  }

  lemma NegativeRoundTrip(i: int)
    requires i < 0
    ensures ParseInt(IntToString(i)) == Some(i)
  {
    NegativeDigits(i);
    ParseNegative(IntToString(i));
  }

  /** The digits after the sign of a negative number's numeral denote its magnitude. */
  lemma NegativeDigits(i: int)
    requires i < 0
    ensures DigitsValue(IntToString(i)[1..]) == -i
  {
    var r := IntToString(i);
    assert r[1..] == NatToString(-i);
    NatToStringValue(-i);
  }

  /** `int` of a minus sign followed by digits. */
  lemma ParseNegative(r: string)
    requires r != [] && r[0] == '-' && r[1..] != [] && AllDigits(r[1..])
    ensures ParseInt(r) == Some(-(DigitsValue(r[1..]) as int))
  {
    assert r[|r| - 1] == r[1..][|r| - 2];
    StripUnchanged(r);
  }

  /** A text that starts and ends with a visible character is its own strip. */
  lemma StripUnchanged(s: string)
    requires s != [] && !IsSpace(s[0]) && !IsSpace(s[|s| - 1])
    ensures Strip(s) == s
  {
    assert LStrip(s) == s;
    RStripVisibleEnd(s);
  }

  // ------------------------------------------------------ thousands grouping

  /** Groups a digit string in threes from the right, joined by commas. */
  function Group(ds: string): (r: string)
    decreases |ds|
  {
    if |ds| <= 3 then ds else Group(ds[..|ds| - 3]) + "," + ds[|ds| - 3..]
  }

  /** Dropping the commas of the grouped form of a comma-free string gives it back. */
  lemma {:induction false} Ungroup(ds: string)
    requires ',' !in ds
    ensures Without(Group(ds), ',') == ds
    decreases |ds|
  {
    if |ds| <= 3 {
      WithoutAbsent(ds, ',');
    } else {
      var head, tail := ds[..|ds| - 3], ds[|ds| - 3..];
      assert ds == head + tail;
      assert ',' !in head && ',' !in tail;
      Ungroup(head);
      assert Group(ds) == (Group(head) + [',']) + tail;
      UngroupStep(Group(head), tail);
    }
  }

  lemma UngroupStep(g: string, tail: string)
    requires ',' !in tail
    ensures Without((g + [',']) + tail, ',') == Without(g, ',') + tail
  {
    var x := g + [','];
    WithoutConcat(x, tail, ',');
    WithoutConcat(g, [','], ',');
    WithoutAbsent(tail, ',');
    var w := Without(g, ',');
    assert Without([','], ',') == [];
    assert Without(x, ',') == w + [];
    assert w + [] == w;
  }

  /**
   * In the grouped form of a comma-free string a position holds a comma
   * exactly when the number of characters from it to the end is a multiple
   * of four, and there is one comma per full group of three after the first.
   */
  lemma {:induction false} GroupCommas(ds: string)
    requires ',' !in ds
    ensures forall k :: 0 <= k < |Group(ds)| ==> (Group(ds)[k] == ',' <==> (|Group(ds)| - k) % 4 == 0)
    ensures ds != [] ==> |Group(ds)| == |ds| + (|ds| - 1) / 3
    decreases |ds|
  {
    var r := Group(ds);
    if |ds| <= 3 {
      forall k | 0 <= k < |r| ensures r[k] != ',' && (|r| - k) % 4 != 0 {
        assert r[k] in ds;
      }
    } else {
      var head, tail := ds[..|ds| - 3], ds[|ds| - 3..];
      assert ds == head + tail;
      assert ',' !in head && ',' !in tail;
      GroupCommas(head);
      var g := Group(head);
      assert r == g + [','] + tail;
      CommasStep(g, tail);
    }
  }

  /** One more group of three keeps commas exactly at the positions a multiple of four from the end. */
  lemma CommasStep(g: string, tail: string)
    requires |tail| == 3 && ',' !in tail
    requires forall k :: 0 <= k < |g| ==> (g[k] == ',' <==> (|g| - k) % 4 == 0)
    ensures var r := g + [','] + tail;
      forall k :: 0 <= k < |r| ==> (r[k] == ',' <==> (|r| - k) % 4 == 0)
  {
    var r := g + [','] + tail;
    forall k | 0 <= k < |r| ensures r[k] == ',' <==> (|r| - k) % 4 == 0 {
      if k < |g| {
        assert r[k] == g[k];
        assert |r| - k == (|g| - k) + 4;
      } else if k > |g| {
        assert r[k] == tail[k - |g| - 1];
        assert r[k] in tail;
        assert 0 < |r| - k < 4;
      } else {
        assert |r| - k == 4;
      }
    }
  }

  /** Removing a character that does not occur changes nothing. */
  lemma {:induction false} WithoutAbsent(s: string, c: char)
    requires c !in s
    ensures Without(s, c) == s
  {
    if s != [] {
      assert c !in s[1..] by { forall d | d in s[1..] ensures d in s { } }
      WithoutAbsent(s[1..], c);
    }
  }

  lemma DigitsHaveNoComma(s: string)
    requires AllDigits(s)
    ensures ',' !in s
  {
    forall c | c in s ensures c != ',' {
      var k :| 0 <= k < |s| && s[k] == c;
      assert IsDigit(s[k]);
    }
  }

  /** `f"{n:,}"` for a natural number. */
  function Grouped(n: nat): (r: string)
    ensures r != [] && IsDigit(r[0])
    ensures forall k :: 0 <= k < |r| ==> IsDigit(r[k]) || r[k] == ','
  {
    var ds := NatToString(n);
    GroupDigits(ds);
    Group(ds)
  }

  /** Grouping a digit string yields digits and commas, starting with its first digit. */
  lemma {:induction false} GroupDigits(ds: string)
    requires ds != [] && AllDigits(ds)
    ensures Group(ds) != [] && Group(ds)[0] == ds[0]
    ensures forall k :: 0 <= k < |Group(ds)| ==> IsDigit(Group(ds)[k]) || Group(ds)[k] == ','
    decreases |ds|
  {
    if |ds| > 3 {
      var head := ds[..|ds| - 3];
      GroupDigits(head);
      var r := Group(ds);
      var g := Group(head);
      assert r == g + [','] + ds[|ds| - 3..];
      forall k | 0 <= k < |r| ensures IsDigit(r[k]) || r[k] == ',' {
        if k > |g| {
          assert r[k] == ds[|ds| - 3 + (k - |g| - 1)];
        }
      }
    }
  }

  /** Dropping the separators of `f"{n:,}"` gives back `str(n)`. */
  lemma UngroupGrouped(n: nat)
    ensures Without(Grouped(n), ',') == NatToString(n)
  {
    var ds := NatToString(n);
    DigitsHaveNoComma(ds);
    Ungroup(ds);
  }

  /** `str(1000)` is `1000` and `f"{1000:,}"` is `1,000`. */
  lemma GroupedExample()
    ensures NatToString(1000) == "1000"
    ensures Grouped(1000) == "1,000"
  {
    assert NatToString(1) == "1";
    assert NatToString(10) == "10";
    assert NatToString(100) == "100";
    assert NatToString(1000) == "1000";
    var ds := "1000";
    assert ds[..|ds| - 3] == "1" && ds[|ds| - 3..] == "000";
    assert Group("1") == "1";
  }
}
