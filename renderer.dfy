/**
 * `create_product_page` of the page generator: a product record rendered
 * into a page. The page keeps the template lines that carry a value or a
 * fragment the schema fixer searches for; every literal piece that opens
 * a tag is a named constant beginning with `<`.
 */
module Renderer {
  import opened Wrappers
  import opened Text
  import opened Numerals

  /**
   * A product record as loaded from the catalogue; `None` is a missing
   * key. Prices are natural numbers.
   */
  datatype Product = Product(
    title: Option<string>,
    price: Option<nat>,
    salePrice: Option<nat>,
    description: Option<string>,
    imageLink: Option<string>,
    slug: Option<string>)

  const DefaultTitle := "منتج"
  const DefaultDescription := "منتج عالي الجودة بأفضل سعر"

  /** The store name appended to every page title. */
  const TitleSuffix := " - متجر العراق"
  /** Where the generated pages claim to live; the slug and `.html` are appended. */
  const SiteBase := "https://sherow1982.github.io/1/products/"
  /** The currency written after a visible price. */
  const Currency := " د.ع"
  /** The number of description characters the head of the page keeps. */
  const MetaLength := 160

  // ------------------------------------------------------------ the values

  function Abs(x: int): nat {
    if x < 0 then -x else x
  }

  /** `round(num / den)`, taken as a nearest integer (ties go up). */
  function RoundDiv(num: int, den: int): int
    requires den > 0
  {
    (2 * num + den) / (2 * den)
  }

  /** The rounded quotient is within one half of the exact one. */
  lemma RoundDivNearest(num: int, den: int)
    requires den > 0
    ensures 2 * Abs(RoundDiv(num, den) * den - num) <= den
  {
    var r := RoundDiv(num, den);
    var m := 2 * num + den;
    assert m == r * (2 * den) + m % (2 * den);
    assert 0 <= m % (2 * den) < 2 * den;
    assert r * (2 * den) == 2 * (r * den);
  }

  /** Both prices are present and non-zero, so a discount is computed. */
  predicate Discounted(p: Product) {
    p.price.Some? && p.price.value != 0 && p.salePrice.Some? && p.salePrice.value != 0
  }

  /**
   * The discount percentage: the rounded share of the price saved, when
   * both the price and the sale price are present and non-zero; else 0.
   */
  function Discount(p: Product): (d: int)
    ensures !Discounted(p) ==> d == 0
  {
    if Discounted(p) then
      RoundDiv(100 * (p.price.value - p.salePrice.value), p.price.value)
    else 0
  }

  /** A computed discount is the nearest integer to the saved share in percent. */
  lemma DiscountNearest(p: Product)
    requires Discounted(p)
    ensures 2 * Abs(Discount(p) * p.price.value - 100 * (p.price.value - p.salePrice.value)) <= p.price.value
  {
    RoundDivNearest(100 * (p.price.value - p.salePrice.value), p.price.value);
  }

  function Title(p: Product): string { p.title.GetOr(DefaultTitle) }
  function SalePrice(p: Product): nat { p.salePrice.GetOr(0) }
  function ListPrice(p: Product): nat { p.price.GetOr(0) }
  function ImageUrl(p: Product): string { p.imageLink.GetOr("") }
  function FullDescription(p: Product): string { p.description.GetOr(DefaultDescription) }
  /** The slug written into the page's own URLs. */
  function PageSlug(p: Product): string { p.slug.GetOr("") }

  /** The description as the head of the page shows it: its first 160 characters. */
  function MetaDescription(p: Product): (r: string)
    ensures |r| <= MetaLength && |r| <= |FullDescription(p)|
    ensures r == FullDescription(p)[..|r|]
    ensures |FullDescription(p)| <= MetaLength ==> r == FullDescription(p)
    ensures |FullDescription(p)| > MetaLength ==> |r| == MetaLength
  {
    Take(FullDescription(p), MetaLength)
  }

  // ------------------------------------------------------- tag openings

  const DoctypeTag := "<!DOCTYPE html>\n"
  const HtmlTag := "<html dir=\"rtl\" lang=\"ar\">\n"
  const HeadTag := "<head>\n"
  const TitleOpen := "<title>"
  const TitleClose := "</title>"
  const DescriptionOpen := "<meta name=\"description\" content=\""
  const CanonicalOpen := "<link rel=\"canonical\" href=\""
  const OgUrlOpen := "<meta property=\"og:url\" content=\""
  const OgPriceOpen := "<meta property=\"og:price:amount\" content=\""
  const ScriptOpen := "<script type=\"application/ld+json\">\n"
  const ScriptClose := "</script>\n"
  const HeadClose := "</head>\n"
  const BodyTag := "<body>\n"
  const HeadingOpen := "<h1>"
  const HeadingClose := "</h1>\n"
  const ImageOpen := "<img src=\""
  const BadgeOpen := "<span class=\"discount-badge\">خصم "
  const OldPriceOpen := "<span class=\"old-price\">"
  const SpanClose := "</span>\n"
  const NewPriceOpen := "<div class=\"new-price\">"
  const DivClose := "</div>\n"
  const ParagraphOpen := "<p>"
  const ParagraphClose := "</p>\n"
  const BodyClose := "</body>\n"
  const HtmlClose := "</html>"

  // ---------------------------------------------------------- the lines

  /** Lines 43-45 of the template. */
  const Preamble := DoctypeTag + HtmlTag + HeadTag

  function TitleLine(title: string): string {
    "    " + TitleOpen + title + TitleSuffix + TitleClose + "\n"
  }

  function DescriptionLine(description: string): string {
    "    " + DescriptionOpen + description + "\">\n"
  }

  function CanonicalLine(slug: string): string {
    "    " + CanonicalOpen + SiteBase + slug + ".html\">\n"
  }

  function OgUrlLine(slug: string): string {
    "    " + OgUrlOpen + SiteBase + slug + ".html\">\n"
  }

  function OgPriceLine(sale: nat): string {
    "    " + OgPriceOpen + NatToString(sale) + "\">\n"
  }

  /** `"key": "value"`, as the JSON object writes its string members. */
  function JsonPair(key: string, value: string): string {
    "\"" + key + "\": \"" + value + "\""
  }

  /** One member line of the JSON object: indentation, the pair, a comma. */
  function JsonField(indent: string, key: string, value: string): string {
    indent + JsonPair(key, value) + ",\n"
  }

  const JsonIndent := "      "
  const OfferIndent := "        "

  /** Lines 78-83: the product's own members. */
  function JsonProduct(title: string, image: string, description: string): string {
    "    {\n"
    + JsonField(JsonIndent, "@context", "https://schema.org/")
    + JsonField(JsonIndent, "@type", "Product")
    + JsonField(JsonIndent, "name", title)
    + JsonField(JsonIndent, "image", image)
    + JsonField(JsonIndent, "description", description)
  }

  /** Lines 87-90, after the price. */
  const OfferEnd :=
    JsonField(OfferIndent, "priceCurrency", "IQD")
    + OfferIndent + "\"availability\": " + "\"https://schema.org/InStock\"\n"
    + "      }\n"
    + "    }\n"

  /** Lines 84-90: the offer. */
  function JsonOffer(sale: nat): string {
    JsonIndent + "\"offers\": {\n"
    + JsonField(OfferIndent, "@type", "Offer")
    + JsonField(OfferIndent, "price", NatToString(sale))
    + OfferEnd
  }

  /** The JSON object between the script tags (lines 78-90). */
  function JsonLd(title: string, image: string, description: string, sale: nat): string {
    JsonProduct(title, image, description) + JsonOffer(sale)
  }

  /** The page's own JSON-LD block (lines 77-91). */
  function StructuredData(title: string, image: string, description: string, sale: nat): string {
    "    " + ScriptOpen + JsonLd(title, image, description, sale) + "    " + ScriptClose
  }

  /** Lines 115-116. */
  const BodyStart := HeadClose + BodyTag

  function HeadingLine(title: string): string {
    "            " + HeadingOpen + title + HeadingClose
  }

  function ImageLine(image: string, title: string): string {
    "                    " + ImageOpen + image + "\" alt=\"" + title
    + "\" class=\"product-image\" loading=\"lazy\">\n"
  }

  function BadgeLine(discount: int): string {
    "                            " + BadgeOpen + IntToString(discount) + "%" + SpanClose
  }

  function OldPriceLine(price: nat): string {
    "                            " + OldPriceOpen + Grouped(price) + Currency + SpanClose
  }

  function NewPriceLine(sale: nat): string {
    "                        " + NewPriceOpen + Grouped(sale) + Currency + DivClose
  }

  function ParagraphLine(description: string): string {
    "                        " + ParagraphOpen + description + ParagraphClose
  }

  /** Lines 173-174. */
  const Closing := BodyClose + HtmlClose

  /** The head of the page, up to the description meta tag. */
  function PageHead(p: Product): string {
    Preamble + (TitleLine(Title(p)) + DescriptionLine(MetaDescription(p)))
  }

  /** From the canonical link to the heading. */
  function PageMiddle(p: Product): string {
    CanonicalLine(PageSlug(p)) + OgUrlLine(PageSlug(p)) + OgPriceLine(SalePrice(p))
    + StructuredData(Title(p), ImageUrl(p), MetaDescription(p), SalePrice(p))
    + BodyStart + HeadingLine(Title(p))
  }

  /** From the full description to the end. */
  function PageEnd(p: Product): string {
    ParagraphLine(FullDescription(p)) + Closing
  }

  /** `create_product_page(product)`, section by section. */
  function Page(p: Product): string {
    PageHead(p) + (PageMiddle(p)
    + (ImageLine(ImageUrl(p), Title(p))
    + (BadgeLine(Discount(p))
    + (OldPriceLine(ListPrice(p))
    + (NewPriceLine(SalePrice(p))
    + PageEnd(p))))))
  }

  /** The name of the file a record is written to; `i` is its 1-based position in the catalogue. */
  function FileName(p: Product, i: nat): (r: string)
    ensures p.slug.Some? ==> r == "products/" + p.slug.value + ".html"
    ensures p.slug.None? ==> r == "products/product-" + NatToString(i) + ".html"
  {
    "products/" + p.slug.GetOr("product-" + NatToString(i)) + ".html"
  }

  // ----------------------------------------------------------- properties

  /**
   * Multiplying by a positive number keeps the strict order (a step of
   * `DiscountRange`, `DiscountAboveZero` and `NearestUnique`).
   */
  lemma ScaleOrder(x: int, y: int, c: int)
    requires c > 0
    ensures x < y <==> x * c < y * c
  {
    assert y * c - x * c == (y - x) * c;
    if x < y {
      MulPositive(y - x, c);
    } else {
      MulNonNegative(x - y, c);
    }
  }

  /** The sign facts `ScaleOrder` needs. */
  lemma MulPositive(a: int, c: int)
    requires a > 0 && c > 0
    ensures a * c > 0
  {
  }

  lemma MulNonNegative(a: int, c: int)
    requires a >= 0 && c >= 0
    ensures a * c >= 0
  {
  }

  /** For a sale price between zero and the price the discount is a percentage. */
  lemma DiscountRange(p: Product)
    requires p.price.Some? && p.salePrice.Some?
    requires 0 < p.salePrice.value <= p.price.value
    ensures 0 <= Discount(p) <= 100
  {
    var price, sale, d := p.price.value, p.salePrice.value, Discount(p);
    DiscountNearest(p);
    assert 0 <= 100 * (price - sale) < 100 * price;
    ScaleOrder(-1, d, price);
    ScaleOrder(d, 101, price);
  }

  /** A sale price above the price gives no positive discount. */
  lemma DiscountAboveZero(p: Product)
    requires p.price.Some? && p.salePrice.Some?
    requires 0 < p.price.value < p.salePrice.value
    ensures Discount(p) <= 0
  {
    DiscountNearest(p);
    ScaleOrder(Discount(p), 1, p.price.value);
  }

  /** The nearest integer is unique when the distance is below one half. */
  lemma NearestUnique(x: int, num: int, den: int)
    requires den > 0 && 2 * Abs(x * den - num) < den
    ensures RoundDiv(num, den) == x
  {
    var r := RoundDiv(num, den);
    RoundDivNearest(num, den);
    ScaleOrder(r, x + 1, den);
    ScaleOrder(x - 1, r, den);
    assert (x + 1) * den == x * den + den;
    assert (x - 1) * den == x * den - den;
  }

  /** A record with price 2000 and sale price 1000 has a discount of 50 and a badge reading `خصم 50%`. */
  lemma DiscountExample(p: Product)
    requires p.price == Some(2000) && p.salePrice == Some(1000)
    ensures Discount(p) == 50
    ensures Contains(Page(p), "خصم 50%")
  {
    NearestUnique(50, 100 * (2000 - 1000), 2000);
    assert IntToString(50) == "50";
    var before := "                            " + "<span class=\"discount-badge\">";
    assert BadgeLine(50) == before + "خصم 50%" + SpanClose;
    ContainsMiddle(before, "خصم 50%", SpanClose);
    var rest := OldPriceLine(ListPrice(p)) + (NewPriceLine(SalePrice(p)) + PageEnd(p));
    ContainsLeft(BadgeLine(50), rest, "خصم 50%");
    InBadge(p, "خصم 50%");
  }

  // ------------------------------------------------------ page fragments

  /** A piece of one section of the page is a piece of the page. */
  lemma InHead(p: Product, x: string)
    requires Contains(PageHead(p), x)
    ensures Contains(Page(p), x)
  {
    ContainsLeft(PageHead(p), PageMiddle(p) + (ImageLine(ImageUrl(p), Title(p)) + (BadgeLine(Discount(p))
      + (OldPriceLine(ListPrice(p)) + (NewPriceLine(SalePrice(p)) + PageEnd(p))))), x);
  }

  lemma InMiddle(p: Product, x: string)
    requires Contains(PageMiddle(p), x)
    ensures Contains(Page(p), x)
  {
    var rest := ImageLine(ImageUrl(p), Title(p)) + (BadgeLine(Discount(p))
      + (OldPriceLine(ListPrice(p)) + (NewPriceLine(SalePrice(p)) + PageEnd(p))));
    ContainsLeft(PageMiddle(p), rest, x);
    ContainsRight(PageHead(p), PageMiddle(p) + rest, x);
  }

  lemma InBadge(p: Product, x: string)
    requires Contains(BadgeLine(Discount(p)) + (OldPriceLine(ListPrice(p)) + (NewPriceLine(SalePrice(p)) + PageEnd(p))), x)
    ensures Contains(Page(p), x)
  {
    var rest := BadgeLine(Discount(p)) + (OldPriceLine(ListPrice(p)) + (NewPriceLine(SalePrice(p)) + PageEnd(p)));
    var image := ImageLine(ImageUrl(p), Title(p));
    ContainsRight(image, rest, x);
    ContainsRight(PageMiddle(p), image + rest, x);
    ContainsRight(PageHead(p), PageMiddle(p) + (image + rest), x);
  }

  lemma InPrices(p: Product, x: string)
    requires Contains(OldPriceLine(ListPrice(p)) + (NewPriceLine(SalePrice(p)) + PageEnd(p)), x)
    ensures Contains(Page(p), x)
  {
    var rest := OldPriceLine(ListPrice(p)) + (NewPriceLine(SalePrice(p)) + PageEnd(p));
    ContainsRight(BadgeLine(Discount(p)), rest, x);
    InBadge(p, x);
  }

  /** The middle three of five pieces. */
  lemma Inner3(a: string, b: string, c: string, d: string, e: string)
    ensures Contains(a + b + c + d + e, b + c + d)
  {
    assert a + b + c + d + e == a + (b + c + d) + e;
    ContainsMiddle(a, b + c + d, e);
  }

  /** The middle four of six pieces. */
  lemma Inner4(a: string, b: string, c: string, d: string, e: string, f: string)
    ensures Contains(a + b + c + d + e + f, b + c + d + e)
  {
    assert a + b + c + d + e + f == a + (b + c + d + e) + f;
    ContainsMiddle(a, b + c + d + e, f);
  }

  /** The title tag is `<title>`, the title, the store name and `</title>`. */
  lemma TitleTag(p: Product)
    ensures Contains(Page(p), TitleOpen + Title(p) + TitleSuffix + TitleClose)
  {
    var t := TitleLine(Title(p));
    Inner4("    ", TitleOpen, Title(p), TitleSuffix, TitleClose, "\n");
    ContainsLeft(t, DescriptionLine(MetaDescription(p)), TitleOpen + Title(p) + TitleSuffix + TitleClose);
    ContainsRight(Preamble, t + DescriptionLine(MetaDescription(p)), TitleOpen + Title(p) + TitleSuffix + TitleClose);
    InHead(p, TitleOpen + Title(p) + TitleSuffix + TitleClose);
  }

  /** The head's description is the shown description, in quotes. */
  lemma DescriptionTag(p: Product)
    ensures Contains(Page(p), DescriptionOpen + MetaDescription(p) + "\"")
  {
    var m := MetaDescription(p);
    assert "\">\n" == "\"" + ">\n";
    Inner3("    ", DescriptionOpen, m, "\"", ">\n");
    assert DescriptionLine(m) == "    " + DescriptionOpen + m + "\"" + ">\n";
    ContainsRight(Preamble + TitleLine(Title(p)), DescriptionLine(m), DescriptionOpen + m + "\"");
    assert PageHead(p) == Preamble + TitleLine(Title(p)) + DescriptionLine(m);
    InHead(p, DescriptionOpen + m + "\"");
  }

  /** The canonical link and the og URL are the site base, the slug and `.html`. */
  lemma PageUrls(p: Product)
    ensures Contains(Page(p), CanonicalOpen + SiteBase + PageSlug(p) + ".html\"")
    ensures Contains(Page(p), OgUrlOpen + SiteBase + PageSlug(p) + ".html\"")
  {
    var slug := PageSlug(p);
    var c, o, op := CanonicalLine(slug), OgUrlLine(slug), OgPriceLine(SalePrice(p));
    var sd := StructuredData(Title(p), ImageUrl(p), MetaDescription(p), SalePrice(p));
    assert ".html\">\n" == ".html\"" + ">\n";
    assert c == "    " + CanonicalOpen + SiteBase + slug + ".html\"" + ">\n";
    assert o == "    " + OgUrlOpen + SiteBase + slug + ".html\"" + ">\n";
    Inner4("    ", CanonicalOpen, SiteBase, slug, ".html\"", ">\n");
    Inner4("    ", OgUrlOpen, SiteBase, slug, ".html\"", ">\n");
    var cu, ou := CanonicalOpen + SiteBase + slug + ".html\"", OgUrlOpen + SiteBase + slug + ".html\"";
    ContainsLeft(c, o, cu);
    ContainsRight(c, o, ou);
    InMiddleFront(p, cu);
    InMiddleFront(p, ou);
  }

  /** A piece of the two URL lines is a piece of the page. */
  lemma InMiddleFront(p: Product, x: string)
    requires Contains(CanonicalLine(PageSlug(p)) + OgUrlLine(PageSlug(p)), x)
    ensures Contains(Page(p), x)
  {
    var co := CanonicalLine(PageSlug(p)) + OgUrlLine(PageSlug(p));
    var sd := StructuredData(Title(p), ImageUrl(p), MetaDescription(p), SalePrice(p));
    ContainsLeft(co, OgPriceLine(SalePrice(p)), x);
    ContainsLeft(co + OgPriceLine(SalePrice(p)), sd, x);
    ContainsLeft(co + OgPriceLine(SalePrice(p)) + sd, BodyStart, x);
    ContainsLeft(co + OgPriceLine(SalePrice(p)) + sd + BodyStart, HeadingLine(Title(p)), x);
    InMiddle(p, x);
  }

  /** The og price is `str(sale_price)`, in quotes. */
  lemma OgPriceTag(p: Product)
    ensures Contains(Page(p), OgPriceOpen + NatToString(SalePrice(p)) + "\"")
  {
    var co := CanonicalLine(PageSlug(p)) + OgUrlLine(PageSlug(p));
    var op := OgPriceLine(SalePrice(p));
    var x := OgPriceOpen + NatToString(SalePrice(p)) + "\"";
    var sd := StructuredData(Title(p), ImageUrl(p), MetaDescription(p), SalePrice(p));
    assert "\">\n" == "\"" + ">\n";
    Inner3("    ", OgPriceOpen, NatToString(SalePrice(p)), "\"", ">\n");
    assert op == "    " + OgPriceOpen + NatToString(SalePrice(p)) + "\"" + ">\n";
    ContainsRight(co, op, x);
    ContainsLeft(co + op, sd, x);
    ContainsLeft(co + op + sd, BodyStart, x);
    ContainsLeft(co + op + sd + BodyStart, HeadingLine(Title(p)), x);
    InMiddle(p, x);
  }

  /** The visible prices are the grouped digits followed by the currency. */
  lemma VisiblePrices(p: Product)
    ensures Contains(Page(p), OldPriceOpen + Grouped(ListPrice(p)) + Currency)
    ensures Contains(Page(p), NewPriceOpen + Grouped(SalePrice(p)) + Currency)
  {
    var o, n := OldPriceLine(ListPrice(p)), NewPriceLine(SalePrice(p));
    var ox := OldPriceOpen + Grouped(ListPrice(p)) + Currency;
    var nx := NewPriceOpen + Grouped(SalePrice(p)) + Currency;
    Inner3("                            ", OldPriceOpen, Grouped(ListPrice(p)), Currency, SpanClose);
    Inner3("                        ", NewPriceOpen, Grouped(SalePrice(p)), Currency, DivClose);
    ContainsLeft(o, n + PageEnd(p), ox);
    ContainsLeft(n, PageEnd(p), nx);
    ContainsRight(o, n + PageEnd(p), nx);
    InPrices(p, ox);
    InPrices(p, nx);
  }

  /** The whole description is the body's paragraph. */
  lemma BodyDescription(p: Product)
    ensures Contains(Page(p), ParagraphOpen + FullDescription(p) + ParagraphClose)
  {
    var x := ParagraphOpen + FullDescription(p) + ParagraphClose;
    var o, n := OldPriceLine(ListPrice(p)), NewPriceLine(SalePrice(p));
    Inner3("                        ", ParagraphOpen, FullDescription(p), ParagraphClose, []);
    assert ParagraphLine(FullDescription(p)) == "                        " + ParagraphOpen + FullDescription(p) + ParagraphClose + [];
    ContainsLeft(ParagraphLine(FullDescription(p)), Closing, x);
    ContainsRight(n, PageEnd(p), x);
    ContainsRight(o, n + PageEnd(p), x);
    InPrices(p, x);
  }

  /** A piece of the JSON object is a piece of the page. */
  lemma InJson(p: Product, x: string)
    requires Contains(JsonLd(Title(p), ImageUrl(p), MetaDescription(p), SalePrice(p)), x)
    ensures Contains(Page(p), x)
  {
    var j := JsonLd(Title(p), ImageUrl(p), MetaDescription(p), SalePrice(p));
    var sd := StructuredData(Title(p), ImageUrl(p), MetaDescription(p), SalePrice(p));
    ContainsRight("    " + ScriptOpen, j, x);
    ContainsLeft("    " + ScriptOpen + j, "    ", x);
    ContainsLeft("    " + ScriptOpen + j + "    ", ScriptClose, x);
    var pre := CanonicalLine(PageSlug(p)) + OgUrlLine(PageSlug(p)) + OgPriceLine(SalePrice(p));
    ContainsRight(pre, sd, x);
    ContainsLeft(pre + sd, BodyStart, x);
    ContainsLeft(pre + sd + BodyStart, HeadingLine(Title(p)), x);
    InMiddle(p, x);
  }

  lemma FieldPair(indent: string, key: string, value: string)
    ensures Contains(JsonField(indent, key, value), JsonPair(key, value))
  {
    ContainsMiddle(indent, JsonPair(key, value), ",\n");
  }

  /**
   * The JSON object names the title, the image and the shown description,
   * and gives the price as `str(sale_price)`.
   */
  lemma StructuredFields(p: Product)
    ensures Contains(Page(p), JsonPair("name", Title(p)))
    ensures Contains(Page(p), JsonPair("image", ImageUrl(p)))
    ensures Contains(Page(p), JsonPair("description", MetaDescription(p)))
    ensures Contains(Page(p), JsonPair("price", NatToString(SalePrice(p))))
  {
    var t, i, d, n := Title(p), ImageUrl(p), MetaDescription(p), NatToString(SalePrice(p));
    var a := "    {\n" + JsonField(JsonIndent, "@context", "https://schema.org/")
      + JsonField(JsonIndent, "@type", "Product");
    var f3, f4, f5 := JsonField(JsonIndent, "name", t), JsonField(JsonIndent, "image", i),
      JsonField(JsonIndent, "description", d);
    var offer := JsonOffer(SalePrice(p));
    FieldPair(JsonIndent, "name", t);
    FieldPair(JsonIndent, "image", i);
    FieldPair(JsonIndent, "description", d);
    ContainsRight(a, f3, JsonPair("name", t));
    ContainsLeft(a + f3, f4, JsonPair("name", t));
    ContainsLeft(a + f3 + f4, f5, JsonPair("name", t));
    ContainsLeft(a + f3 + f4 + f5, offer, JsonPair("name", t));
    InJson(p, JsonPair("name", t));
    ContainsRight(a + f3, f4, JsonPair("image", i));
    ContainsLeft(a + f3 + f4, f5, JsonPair("image", i));
    ContainsLeft(a + f3 + f4 + f5, offer, JsonPair("image", i));
    InJson(p, JsonPair("image", i));
    ContainsRight(a + f3 + f4, f5, JsonPair("description", d));
    ContainsLeft(a + f3 + f4 + f5, offer, JsonPair("description", d));
    InJson(p, JsonPair("description", d));
    var o := JsonIndent + "\"offers\": {\n" + JsonField(OfferIndent, "@type", "Offer");
    FieldPair(OfferIndent, "price", n);
    ContainsRight(o, JsonField(OfferIndent, "price", n), JsonPair("price", n));
    ContainsLeft(o + JsonField(OfferIndent, "price", n), OfferEnd, JsonPair("price", n));
    ContainsRight(a + f3 + f4 + f5, offer, JsonPair("price", n));
    InJson(p, JsonPair("price", n));
  }

  /**
   * A record without title, sale price or image still renders: the
   * defaults stand in, the title tag names `منتج` and the price shown is `0`.
   */
  lemma DefaultsRender(p: Product)
    requires p.title.None? && p.salePrice.None? && p.imageLink.None?
    ensures Title(p) == DefaultTitle && SalePrice(p) == 0 && ImageUrl(p) == [] && Discount(p) == 0
    ensures Contains(Page(p), TitleOpen + DefaultTitle + TitleSuffix + TitleClose)
    ensures Contains(Page(p), NewPriceOpen + "0" + Currency)
    ensures Contains(Page(p), JsonPair("price", "0"))
  {
    DefaultTitleChosen(p);
    DefaultPriceChosen(p);
    DefaultTitleTag(p);
    ZeroShown(p);
    ZeroInJson(p);
  }

  lemma DefaultTitleChosen(p: Product)
    requires p.title.None?
    ensures Title(p) == DefaultTitle
  {
  }

  lemma DefaultPriceChosen(p: Product)
    requires p.salePrice.None? && p.imageLink.None?
    ensures ImageUrl(p) == [] && Discount(p) == 0 && SalePrice(p) == 0
  {
  }

  lemma DefaultTitleTag(p: Product)
    requires p.title.None?
    ensures Contains(Page(p), TitleOpen + DefaultTitle + TitleSuffix + TitleClose)
  {
    TitleTag(p);
  }

  lemma ZeroShown(p: Product)
    requires SalePrice(p) == 0
    ensures Contains(Page(p), NewPriceOpen + "0" + Currency)
  {
    VisiblePrices(p);
    assert Grouped(0) == "0";
  }

  lemma ZeroInJson(p: Product)
    requires SalePrice(p) == 0
    ensures Contains(Page(p), JsonPair("price", "0"))
  {
    StructuredFields(p);
    var zero := NatToString(SalePrice(p));
    assert zero == "0";
  }

  /** Price 2000 with sale price 1000: the JSON-LD says `1000`, the page shows `1,000 د.ع`. */
  lemma PriceExample(p: Product)
    requires p.price == Some(2000) && p.salePrice == Some(1000)
    ensures Contains(Page(p), JsonPair("price", "1000"))
    ensures Contains(Page(p), OgPriceOpen + "1000" + "\"")
    ensures Contains(Page(p), NewPriceOpen + "1,000" + Currency)
  {
    GroupedExample();
    StructuredFields(p);
    OgPriceTag(p);
    VisiblePrices(p);
  }

  /**
   * A record without a slug is written to `products/product-{i}.html`,
   * while the page's own URLs end in `products/.html`.
   */
  lemma SluglessRecord(p: Product, i: nat)
    requires p.slug.None?
    ensures FileName(p, i) == "products/product-" + NatToString(i) + ".html"
    ensures Contains(Page(p), CanonicalOpen + SiteBase + ".html\"")
    ensures Contains(Page(p), OgUrlOpen + SiteBase + ".html\"")
  {
    PageUrls(p);
    Unslugged(CanonicalOpen + SiteBase, PageSlug(p), ".html\"");
    Unslugged(OgUrlOpen + SiteBase, PageSlug(p), ".html\"");
  }

  lemma Unslugged(a: string, slug: string, b: string)
    requires slug == []
    ensures a + slug + b == a + b
  {
  }
}
