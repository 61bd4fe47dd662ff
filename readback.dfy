/**
 * The two scripts composed: what `extract_product_info` reads back from a
 * page that `create_product_page` wrote, and what the schema fixer then
 * does with such a page.
 */
module ReadBack {
  import opened Wrappers
  import opened Text
  import opened Numerals
  import opened Scanner
  import opened Extractor
  import opened Renderer
  import opened RoundTrip
  import Schema
  import Patcher

  // ------------------------------------------------------------ the name

  /** No proper suffix of `s` begins with the first two characters of `s`. */
  ghost predicate Unbordered(s: string) {
    |s| >= 2 && forall k :: 0 < k < |s| ==> s[k] != s[0] || (k + 1 < |s| && s[k + 1] != s[1])
  }

  /**
   * In a text free of an unbordered `s`, followed by `s`, the only place
   * `s` starts is the end.
   */
  lemma OnlyAtEnd(l: string, s: string)
    requires Unbordered(s) && !Contains(l, s)
    ensures NoStartBefore(l + s, s, |l|)
  {
    var x := l + s;
    ContainsAt(l, s);
    forall i | 0 <= i < |l| && i <= |x| ensures !StartsWith(x[i..], s) {
      if i + |s| <= |l| {
        assert !OccursAt(l, s, i);
        assert x[i..][..|s|] == l[i..i + |s|];
      } else {
        var k := |l| - i;
        var w := x[i..][..|s|];
        assert w[k] == s[0];
        if k + 1 < |s| {
          assert w[k + 1] == s[1];
        }
        assert w[k] != s[k] || (k + 1 < |s| && w[k + 1] != s[k + 1]);
      }
    }
  }

  /**
   * `NameOf` on a text followed by a suffix it does not contain, when the
   * suffix starts with whitespace, is unbordered, and has visible second
   * and last characters.
   */
  lemma NameOfSuffixed(title: string, s: string)
    requires Unbordered(s) && IsSpace(s[0]) && !IsSpace(s[1]) && !IsSpace(s[|s| - 1])
    requires !Contains(title, s)
    ensures Strip(Replace(Strip(title + s), s, "")) == if HasNonSpace(title) then Strip(title) else s[1..]
  {
    if HasNonSpace(title) {
      NameOfVisible(title, s);
    } else {
      NameOfBlank(title, s);
    }
  }

  lemma NameOfVisible(title: string, s: string)
    requires Unbordered(s) && !IsSpace(s[|s| - 1])
    requires !Contains(title, s) && HasNonSpace(title)
    ensures Strip(Replace(Strip(title + s), s, "")) == Strip(title)
  {
    var l := LStrip(title);
    LStripConcat(title, s);
    StripVisibleEnd(l, s);
    ContainsSuffix(title, |title| - |l|, s);
    ReplaceLast(l, s);
    LStripStripped(title);
  }

  /** Removing `s` from a text free of it followed by `s` leaves the text. */
  lemma ReplaceLast(l: string, s: string)
    requires Unbordered(s) && !Contains(l, s)
    ensures Replace(l + s, s, "") == l
  {
    OnlyAtEnd(l, s);
    ReplaceSkip(l, s, s, "");
    ReplaceSelf(s);
    assert l + [] == l;
  }

  lemma LStripStripped(t: string)
    ensures Strip(LStrip(t)) == Strip(t)
  {
    var l := LStrip(t);
    assert LStrip(l) == l;
  }

  lemma StripVisibleEnd(l: string, s: string)
    requires s != [] && !IsSpace(s[|s| - 1])
    ensures RStrip(l + s) == l + s
  {
    assert (l + s)[|l + s| - 1] == s[|s| - 1];
    RStripVisibleEnd(l + s);
  }

  lemma ReplaceSelf(s: string)
    requires s != []
    ensures Replace(s, s, "") == []
  {
    assert s[|s|..] == [];
    assert s[..|s|] == s;
  }

  lemma NameOfBlank(title: string, s: string)
    requires |s| >= 2 && IsSpace(s[0]) && !IsSpace(s[1]) && !IsSpace(s[|s| - 1])
    requires !HasNonSpace(title)
    ensures Strip(Replace(Strip(title + s), s, "")) == s[1..]
  {
    LStripSpaces(title, s);
    assert LStrip(s[1..]) == s[1..];
    assert s[1..][|s[1..]| - 1] == s[|s| - 1];
    RStripVisibleEnd(s[1..]);
    ShortNotContains(s[1..], s);
    ReplaceAbsent(s[1..], s, "");
  }

  lemma StoreSuffixChars()
    ensures |StoreSuffix| == 14 && TitleSuffix == StoreSuffix
    ensures StoreSuffix[0] == ' ' && StoreSuffix[1] == '-' && StoreSuffix[2] == ' ' && StoreSuffix[7] == ' '
    ensures StoreSuffix[3] == 'م' && StoreSuffix[8] == 'ا' && StoreSuffix[13] == 'ق'
    ensures forall k :: 0 <= k < 14 && StoreSuffix[k] == ' ' ==> k == 0 || k == 2 || k == 7
  {
  }

  lemma StoreSuffixUnbordered()
    ensures Unbordered(StoreSuffix)
  {
    StoreSuffixChars();
  }

  /**
   * The name read back from a title tag: the title stripped when it has a
   * visible character; when it is all whitespace, the stripped suffix no
   * longer matches the store suffix and the name is `- متجر العراق`.
   */
  lemma NameOfRendered(title: string)
    requires !Contains(title, StoreSuffix)
    ensures NameOf(title + TitleSuffix) == if HasNonSpace(title) then Strip(title) else StoreSuffix[1..]
  {
    StoreSuffixChars();
    StoreSuffixUnbordered();
    NameOfSuffixed(title, StoreSuffix);
  }

  // ------------------------------------------------------- the whole page

  /** A visible price, its separators removed, is the price's decimal digits. */
  lemma PriceOfGrouped(n: nat)
    ensures AllIn(DigitOrComma, Grouped(n))
    ensures PriceOf(Grouped(n)) == NatToString(n)
  {
    ReplaceCharIsWithout(Grouped(n), ',');
    UngroupGrouped(n);
  }

  /**
   * What the schema fixer reads back from a generated page: the title as
   * its name; the shown description up to its first `"`, when that part is
   * not empty; both prices as plain digits; the discount when it is not
   * negative. When neither the title nor the image URL holds a `"` it
   * never reads an image, since the image tag carries `loading="lazy"`
   * after the class the image pattern expects to close the tag.
   */
  lemma ExtractRendered(p: Product)
    requires Admissible(p) && !Contains(Title(p), StoreSuffix)
    ensures var data := ExtractProductInfo(Page(p));
      && data.Keys - {ImageKey} == {NameKey, OldPriceKey, PriceKey}
           + (if DescriptionUpToQuote(p) != [] then {DescriptionKey} else {})
           + (if Discount(p) >= 0 then {DiscountKey} else {})
      && ('"' !in Title(p) && '"' !in ImageUrl(p) ==> ImageKey !in data)
      && data[NameKey] == (if HasNonSpace(Title(p)) then Strip(Title(p)) else StoreSuffix[1..])
      && (DescriptionUpToQuote(p) != [] ==> data[DescriptionKey] == Strip(DescriptionUpToQuote(p)))
      && data[OldPriceKey] == NatToString(ListPrice(p))
      && data[PriceKey] == NatToString(SalePrice(p))
      && (Discount(p) >= 0 ==> data[DiscountKey] == IntToString(Discount(p)))
  {
    var data := ExtractProductInfo(Page(p));
    ExtractedName(p);
    ExtractedDescription(p);
    ExtractedPrices(p);
    ExtractedDiscount(p);
    if '"' !in Title(p) && '"' !in ImageUrl(p) {
      SearchImagePage(p);
    }
    KeySet(data, DescriptionUpToQuote(p) != [], Discount(p) >= 0);
  }

  /** The key set of a result apart from the image, from which keys it holds. */
  lemma KeySet(data: map<Key, string>, description: bool, discount: bool)
    requires NameKey in data && OldPriceKey in data && PriceKey in data
    requires DescriptionKey in data <==> description
    requires DiscountKey in data <==> discount
    ensures data.Keys - {ImageKey} == {NameKey, OldPriceKey, PriceKey}
      + (if description then {DescriptionKey} else {})
      + (if discount then {DiscountKey} else {})
  {
    var expected := {NameKey, OldPriceKey, PriceKey}
      + (if description then {DescriptionKey} else {})
      + (if discount then {DiscountKey} else {});
    forall k: Key ensures k in data.Keys - {ImageKey} <==> k in expected {
      match k
      case NameKey =>
      case DescriptionKey =>
      case OldPriceKey =>
      case PriceKey =>
      case DiscountKey =>
      case ImageKey =>
    }
  }

  lemma ExtractedName(p: Product)
    requires Admissible(p) && !Contains(Title(p), StoreSuffix)
    ensures NameKey in ExtractProductInfo(Page(p))
    ensures ExtractProductInfo(Page(p))[NameKey] == if HasNonSpace(Title(p)) then Strip(Title(p)) else StoreSuffix[1..]
  {
    SearchTitlePage(p);
    NameOfRendered(Title(p));
  }

  lemma ExtractedDescription(p: Product)
    requires Admissible(p)
    ensures DescriptionKey in ExtractProductInfo(Page(p)) <==> DescriptionUpToQuote(p) != []
    ensures DescriptionUpToQuote(p) != [] ==> ExtractProductInfo(Page(p))[DescriptionKey] == Strip(DescriptionUpToQuote(p))
  {
    SearchDescriptionPage(p);
  }

  lemma ExtractedPrices(p: Product)
    requires Admissible(p)
    ensures OldPriceKey in ExtractProductInfo(Page(p)) && PriceKey in ExtractProductInfo(Page(p))
    ensures ExtractProductInfo(Page(p))[OldPriceKey] == NatToString(ListPrice(p))
    ensures ExtractProductInfo(Page(p))[PriceKey] == NatToString(SalePrice(p))
  {
    SearchOldPricePage(p);
    PriceOfGrouped(ListPrice(p));
    SearchPricePage(p);
    PriceOfGrouped(SalePrice(p));
  }

  lemma ExtractedDiscount(p: Product)
    requires Admissible(p)
    ensures DiscountKey in ExtractProductInfo(Page(p)) <==> Discount(p) >= 0
    ensures Discount(p) >= 0 ==> ExtractProductInfo(Page(p))[DiscountKey] == IntToString(Discount(p))
  {
    SearchDiscountPage(p);
  }

  /**
   * A description with an inch mark: the generator writes
   * `شاشة 55" عالية الدقة` into the description attribute unescaped, and
   * the part the fixer reads (which `ExtractedDescription` stores, stripped)
   * is only `شاشة 55`.
   */
  lemma InchMarkDescription(p: Product)
    requires p.description == Some("شاشة 55\" عالية الدقة")
    ensures DescriptionUpToQuote(p) == "شاشة 55"
  {
    InchMarkShown(p);
    InchMarkBeforeQuote();
  }

  /** The inch-mark description is short enough to be shown whole. */
  lemma InchMarkShown(p: Product)
    requires p.description == Some("شاشة 55\" عالية الدقة")
    ensures MetaDescription(p) == "شاشة 55\" عالية الدقة"
  {
  }

  /** The inch mark is its seventh character, after `شاشة 55`. */
  lemma InchMarkBeforeQuote()
    ensures BeforeFirst("شاشة 55\" عالية الدقة", '"') == "شاشة 55"
  {
    var d := "شاشة 55\" عالية الدقة";
    assert d[..7] == "شاشة 55";
    BeforeFirstAt(d, '"', 7);
  }

  // --------------------------------------------------- the fixer's verdict

  /** The page's own script tag carries the marker the fixer looks for. */
  lemma PageHasMarker(p: Product)
    ensures Contains(Page(p), Schema.Marker)
  {
    var m := Schema.Marker;
    assert ScriptOpen == "<script type=\"" + m + "\">\n";
    ContainsMiddle("<script type=\"", m, "\">\n");
    var sd := StructuredData(Title(p), ImageUrl(p), MetaDescription(p), SalePrice(p));
    var j := JsonLd(Title(p), ImageUrl(p), MetaDescription(p), SalePrice(p));
    ContainsRight("    ", ScriptOpen, m);
    ContainsLeft("    " + ScriptOpen, j, m);
    ContainsLeft("    " + ScriptOpen + j, "    ", m);
    ContainsLeft("    " + ScriptOpen + j + "    ", ScriptClose, m);
    var pre := CanonicalLine(PageSlug(p)) + OgUrlLine(PageSlug(p)) + OgPriceLine(SalePrice(p));
    ContainsRight(pre, sd, m);
    ContainsLeft(pre + sd, BodyStart, m);
    ContainsLeft(pre + sd + BodyStart, HeadingLine(Title(p)), m);
    var rest := ImageLine(ImageUrl(p), Title(p)) + (BadgeLine(Discount(p))
      + (OldPriceLine(ListPrice(p)) + (NewPriceLine(SalePrice(p)) + PageEnd(p))));
    ContainsLeft(PageMiddle(p), rest, m);
    ContainsRight(PageHead(p), PageMiddle(p) + rest, m);
  }

  /** A generated page is skipped by the fixer and left exactly as it is. */
  lemma GeneratedPageSkipped(p: Product, filename: string)
    ensures Patcher.AddSchema(Page(p), filename) == Patcher.Outcome(Page(p), false)
  {
    PageHasMarker(p);
  }

  /**
   * A directory of generated pages: the batch updates none of them,
   * reports zero updated, and leaves every file as it was.
   */
  lemma {:induction false} GeneratedBatchUntouched(fs: seq<Patcher.File>, ps: seq<Product>)
    requires |fs| == |ps|
    requires forall i :: 0 <= i < |fs| ==> fs[i].content == Some(Page(ps[i]))
    ensures Patcher.CountUpdated(fs) == 0
    ensures Patcher.ProcessedAll(fs) == fs
  {
    forall i | 0 <= i < |fs| ensures !Patcher.Updated(fs[i]) && Patcher.Processed(fs[i]) == fs[i] {
      GeneratedPageSkipped(ps[i], fs[i].name);
    }
    Patcher.CountUpdatedNone(fs);
  }
}
