/**
 * `extract_product_info` of the schema fixer: six independent searches over
 * a product page, each adding one key to the result when its pattern
 * matches.
 */
module Extractor {
  import opened Wrappers
  import opened Text
  import opened Scanner

  /**
   * The keys of the result dictionary: `"name"`, `"description"`,
   * `"old_price"`, `"price"`, `"discount"` and `"image"`. Six distinct
   * literal strings, so a constructor each.
   */
  datatype Key = NameKey | DescriptionKey | OldPriceKey | PriceKey | DiscountKey | ImageKey

  /** The store name the page titles end with. */
  const StoreSuffix := " - متجر العراق"

  /** `<title>([^<]+)</title>` */
  const TitlePattern := Pattern("<title>", AnyBut('<'), [Lit("</title>")])
  /** `<meta name="description" content="([^"]+)"` */
  const DescriptionPattern := Pattern("<meta name=\"description\" content=\"", AnyBut('"'), [Lit("\"")])
  /** `<span class="old-price">([\d,]+)\s*د\.ع</span>` */
  const OldPricePattern := Pattern("<span class=\"old-price\">", DigitOrComma, [Star(Space), Lit("د.ع</span>")])
  /** `<div class="new-price">([\d,]+)\s*د\.ع</div>` */
  const PricePattern := Pattern("<div class=\"new-price\">", DigitOrComma, [Star(Space), Lit("د.ع</div>")])
  /** `<span class="discount-badge">خصم (\d+)%</span>` */
  const DiscountPattern := Pattern("<span class=\"discount-badge\">خصم ", Digit, [Lit("%</span>")])
  /** `<img src="([^"]+)" alt="[^"]*" class="product-image">` */
  const ImagePattern :=
    Pattern("<img src=\"", AnyBut('"'), [Lit("\" alt=\""), Star(AnyBut('"')), Lit("\" class=\"product-image\">")])

  /** In each of the six patterns a run cannot begin what follows it, so `Search` is `re.search`. */
  lemma PatternsWellFormed()
    ensures WellFormed(TitlePattern) && WellFormed(DescriptionPattern)
    ensures WellFormed(OldPricePattern) && WellFormed(PricePattern)
    ensures WellFormed(DiscountPattern) && WellFormed(ImagePattern)
  {
    assert Disjoint(DigitOrComma, Space);
    assert OldPricePattern.tail[1..] == [Lit("د.ع</span>")];
    assert PricePattern.tail[1..] == [Lit("د.ع</div>")];
    assert ImagePattern.tail[2..] == [Lit("\" class=\"product-image\">")];
    assert ImagePattern.tail[1..] == [Star(AnyBut('"')), Lit("\" class=\"product-image\">")];
  }

  /** The name kept from a captured title: stripped, store suffix removed, stripped again. */
  function NameOf(title: string): (r: string)
    ensures r == [] || (!IsSpace(r[0]) && !IsSpace(r[|r| - 1]))
  {
    Strip(Replace(Strip(title), StoreSuffix, ""))
  }

  /** A captured price with its thousands separators removed. */
  function PriceOf(captured: string): (r: string)
    requires AllIn(DigitOrComma, captured)
    ensures AllDigits(r)
  {
    ReplaceCharIsWithout(captured, ',');
    var r := Replace(captured, ",", "");
    assert forall c :: c in r ==> c != ',' && c in captured;
    assert forall i :: 0 <= i < |r| ==> IsDigit(r[i]) by {
      forall i | 0 <= i < |r| ensures IsDigit(r[i]) {
        assert r[i] in r;
        var j :| 0 <= j < |captured| && captured[j] == r[i];
        assert InClass(DigitOrComma, captured[j]);
      }
    }
    r
  }

  /**
   * What `extract_product_info` stores under `key`, or `None` when the
   * key's pattern finds nothing: each key has its own pattern and its own
   * clean-up of the captured text.
   */
  function Lookup(html: string, key: Key): Option<string> {
    match key
    case NameKey =>
      var m := Search(TitlePattern, html);
      if m.Some? then Some(NameOf(m.value)) else None
    case DescriptionKey =>
      var m := Search(DescriptionPattern, html);
      if m.Some? then Some(Strip(m.value)) else None
    case OldPriceKey =>
      var m := Search(OldPricePattern, html);
      if m.Some? then Some(PriceOf(m.value)) else None
    case PriceKey =>
      var m := Search(PricePattern, html);
      if m.Some? then Some(PriceOf(m.value)) else None
    case DiscountKey => Search(DiscountPattern, html)
    case ImageKey => Search(ImagePattern, html)
  }

  /** `extract_product_info(html_content)`. */
  function ExtractProductInfo(html: string): (data: map<Key, string>)
    ensures NameKey in data <==> Search(TitlePattern, html).Some?
    ensures DescriptionKey in data <==> Search(DescriptionPattern, html).Some?
    ensures OldPriceKey in data <==> Search(OldPricePattern, html).Some?
    ensures PriceKey in data <==> Search(PricePattern, html).Some?
    ensures DiscountKey in data <==> Search(DiscountPattern, html).Some?
    ensures ImageKey in data <==> Search(ImagePattern, html).Some?
    ensures NameKey in data ==> data[NameKey] == NameOf(Search(TitlePattern, html).value)
    ensures DescriptionKey in data ==> data[DescriptionKey] == Strip(Search(DescriptionPattern, html).value)
    ensures OldPriceKey in data ==> data[OldPriceKey] == PriceOf(Search(OldPricePattern, html).value)
    ensures PriceKey in data ==> data[PriceKey] == PriceOf(Search(PricePattern, html).value)
    ensures DiscountKey in data ==> data[DiscountKey] == Search(DiscountPattern, html).value
    ensures ImageKey in data ==> data[ImageKey] == Search(ImagePattern, html).value
  {
    map key | Lookup(html, key).Some? :: Lookup(html, key).value
  }

  /**
   * What the extracted values look like, whatever the page: the name and
   * description are stripped, the description and image contain no `"`,
   * the prices are digits only and the discount is a non-empty run of digits.
   */
  lemma ExtractedShapes(html: string)
    ensures var data := ExtractProductInfo(html);
      NameKey in data ==> var v := data[NameKey]; v == [] || (!IsSpace(v[0]) && !IsSpace(v[|v| - 1]))
    ensures var data := ExtractProductInfo(html);
      DescriptionKey in data ==> var v := data[DescriptionKey];
      '"' !in v && (v == [] || (!IsSpace(v[0]) && !IsSpace(v[|v| - 1])))
    ensures var data := ExtractProductInfo(html);
      (OldPriceKey in data ==> AllDigits(data[OldPriceKey])) && (PriceKey in data ==> AllDigits(data[PriceKey]))
    ensures var data := ExtractProductInfo(html);
      DiscountKey in data ==> data[DiscountKey] != [] && AllDigits(data[DiscountKey])
    ensures var data := ExtractProductInfo(html);
      ImageKey in data ==> data[ImageKey] != [] && '"' !in data[ImageKey]
  {
    NameKeyShape(html);
    DescriptionKeyShape(html);
    PriceKeysShape(html);
    DiscountKeyShape(html);
    ImageKeyShape(html);
  }

  lemma NameKeyShape(html: string)
    ensures var data := ExtractProductInfo(html);
      NameKey in data ==> var v := data[NameKey]; v == [] || (!IsSpace(v[0]) && !IsSpace(v[|v| - 1]))
  {
    var data := ExtractProductInfo(html);
    if NameKey in data {
      var title := Search(TitlePattern, html).value;
      StripShape(Replace(Strip(title), StoreSuffix, ""));
    }
  }

  lemma PriceKeysShape(html: string)
    ensures var data := ExtractProductInfo(html);
      (OldPriceKey in data ==> AllDigits(data[OldPriceKey])) && (PriceKey in data ==> AllDigits(data[PriceKey]))
  {
    var data := ExtractProductInfo(html);
    if OldPriceKey in data {
      var v := PriceOf(Search(OldPricePattern, html).value);
      assert data[OldPriceKey] == v;
    }
    if PriceKey in data {
      var v := PriceOf(Search(PricePattern, html).value);
      assert data[PriceKey] == v;
    }
  }

  lemma DescriptionKeyShape(html: string)
    ensures var data := ExtractProductInfo(html);
      DescriptionKey in data ==> var v := data[DescriptionKey];
      '"' !in v && (v == [] || (!IsSpace(v[0]) && !IsSpace(v[|v| - 1])))
  {
    var data := ExtractProductInfo(html);
    if DescriptionKey in data {
      var c := Search(DescriptionPattern, html).value;
      DescriptionShape(c);
      assert data[DescriptionKey] == Strip(c);
    }
  }

  lemma DiscountKeyShape(html: string)
    ensures var data := ExtractProductInfo(html);
      DiscountKey in data ==> data[DiscountKey] != [] && AllDigits(data[DiscountKey])
  {
    if Search(DiscountPattern, html).Some? {
      DiscountShape(html);
    }
  }

  lemma ImageKeyShape(html: string)
    ensures var data := ExtractProductInfo(html);
      ImageKey in data ==> data[ImageKey] != [] && '"' !in data[ImageKey]
  {
    if Search(ImagePattern, html).Some? {
      NoQuote(Search(ImagePattern, html).value);
    }
  }

  /** A run of characters other than `"`, as the description and image patterns capture. */
  lemma NoQuote(c: string)
    requires AllIn(AnyBut('"'), c)
    ensures '"' !in c
  {
    forall i | 0 <= i < |c| ensures c[i] != '"' { assert InClass(AnyBut('"'), c[i]); }
  }

  lemma DescriptionShape(c: string)
    requires AllIn(AnyBut('"'), c)
    ensures var v := Strip(c); '"' !in v && (v == [] || (!IsSpace(v[0]) && !IsSpace(v[|v| - 1])))
  {
    StripSubset(c);
    NoQuote(c);
  }

  lemma DiscountShape(html: string)
    requires Search(DiscountPattern, html).Some?
    ensures var c := Search(DiscountPattern, html).value; c != [] && AllDigits(c)
  {
    var c := Search(DiscountPattern, html).value;
    assert forall i :: 0 <= i < |c| ==> InClass(Digit, c[i]);
  }
}
