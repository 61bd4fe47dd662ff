/**
 * `generate_schema` of the schema fixer: the extracted fields, with
 * defaults for the missing ones, substituted into a fixed JSON-LD block;
 * the rating and the review count are tiered on the discount.
 */
module Schema {
  import opened Wrappers
  import opened Text
  import opened Numerals
  import opened Extractor

  const DefaultName := "منتج"
  const DefaultDescription := "منتج عالي الجودة من متجر العراق"
  const DefaultPrice := "0"
  const DefaultImage := "https://via.placeholder.com/500"
  const DefaultDiscount := "0"

  /** Where the product pages are published; the file name is appended. */
  const ProductBase := "https://sherow1982.github.io/Iraq-Store/products/"
  const PriceValidUntil := "2025-12-31"

  /** The script type that marks a page as already carrying structured data. */
  const Marker := "application/ld+json"

  /** `data.get(key, default)`. */
  function Get(data: map<Key, string>, key: Key, default: string): (r: string)
    ensures key in data ==> r == data[key]
    ensures key !in data ==> r == default
  {
    if key in data then data[key] else default
  }

  /** The rating: two tiers split above a discount of 10. */
  function Rating(discount: int): (r: string)
    ensures r == "4.5" <==> discount > 10
    ensures r == "4.0" <==> discount <= 10
  {
    if discount > 10 then "4.5" else "4.0"
  }

  /** The review count: two tiers split above a discount of 15. */
  function ReviewCount(discount: int): (r: string)
    ensures r == "127" <==> discount > 15
    ensures r == "89" <==> discount <= 15
  {
    if discount > 15 then "127" else "89"
  }

  /** The values substituted into the block. */
  datatype SchemaFields = SchemaFields(
    name: string, description: string, image: string, url: string,
    price: string, rating: string, reviewCount: string)

  /**
   * The substituted values, or `None` when `int(discount)` raises. The
   * old price is looked up by the source but never substituted, so it is
   * not read here.
   */
  function Fields(data: map<Key, string>, filename: string): (r: Option<SchemaFields>)
    ensures r.Some? <==> ParseInt(Get(data, DiscountKey, DefaultDiscount)).Some?
    ensures r.Some? ==>
      var d := ParseInt(Get(data, DiscountKey, DefaultDiscount)).value;
      && r.value.name == Get(data, NameKey, DefaultName)
      && r.value.description == Get(data, DescriptionKey, DefaultDescription)
      && r.value.image == Get(data, ImageKey, DefaultImage)
      && r.value.price == Get(data, PriceKey, DefaultPrice)
      && r.value.url == ProductBase + filename
      && (r.value.rating == "4.5" <==> d > 10)
      && (r.value.reviewCount == "127" <==> d > 15)
  {
    match ParseInt(Get(data, DiscountKey, DefaultDiscount))
    case None => None
    case Some(d) =>
      Some(SchemaFields(
        Get(data, NameKey, DefaultName),
        Get(data, DescriptionKey, DefaultDescription),
        Get(data, ImageKey, DefaultImage),
        ProductBase + filename,
        Get(data, PriceKey, DefaultPrice),
        Rating(d),
        ReviewCount(d)))
  }

  /** The opening of the block, up to the marker. */
  const BlockOpen := "    <script type=\""

  /** The block from the marker's closing quote up to the offer URL. */
  function BlockHead(f: SchemaFields): string {
    "\">\n"
    + "    {\n"
    + "      \"@context\": \"https://schema.org/\",\n"
    + "      \"@type\": \"Product\",\n"
    + "      \"name\": \"" + f.name + "\",\n"
    + "      \"description\": \"" + f.description + "\",\n"
    + "      \"image\": \"" + f.image + "\",\n"
    + "      \"brand\": {\n"
    + "        \"@type\": \"Brand\",\n"
    + "        \"name\": \"متجر العراق\"\n"
    + "      },\n"
    + "      \"offers\": {\n"
    + "        \"@type\": \"Offer\",\n"
    + "        \"url\": \""
  }

  /** The block from the end of the offer URL up to the validity date. */
  function BlockMiddle(f: SchemaFields): string {
    "\",\n"
    + "        \"priceCurrency\": \"IQD\",\n"
    + "        \"price\": \"" + f.price + "\",\n"
    + "        \"priceValidUntil\": \""
  }

  /** The block after the validity date. */
  function BlockTail(f: SchemaFields): string {
    "\",\n"
    + "        \"availability\": \"https://schema.org/InStock\",\n"
    + "        \"itemCondition\": \"https://schema.org/NewCondition\"\n"
    + "      },\n"
    + "      \"aggregateRating\": {\n"
    + "        \"@type\": \"AggregateRating\",\n"
    + "        \"ratingValue\": \"" + f.rating + "\",\n"
    + "        \"reviewCount\": \"" + f.reviewCount + "\",\n"
    + "        \"bestRating\": \"5\",\n"
    + "        \"worstRating\": \"1\"\n"
    + "      }\n"
    + "    }\n"
    + "    </script>"
  }

  /** The block, with the values in place; it carries the marker, the offer URL and the validity date. */
  function Block(f: SchemaFields): (r: string)
    ensures Contains(r, Marker)
    ensures Contains(r, f.url)
    ensures Contains(r, PriceValidUntil)
  {
    var front := BlockOpen + Marker + BlockHead(f);
    var back := BlockMiddle(f) + PriceValidUntil + BlockTail(f);
    ContainsMiddle(BlockOpen, Marker, BlockHead(f));
    ContainsLeft(front, f.url, Marker);
    ContainsLeft(front + f.url, back, Marker);
    ContainsMiddle(front, f.url, back);
    ContainsMiddle(BlockMiddle(f), PriceValidUntil, BlockTail(f));
    ContainsRight(front + f.url, back, PriceValidUntil);
    front + f.url + back
  }

  /** `generate_schema(product_data, filename)`; `None` when `int(discount)` raises. */
  function GenerateSchema(data: map<Key, string>, filename: string): (r: Option<string>)
    ensures r.Some? <==> ParseInt(Get(data, DiscountKey, DefaultDiscount)).Some?
    ensures r.Some? ==> Contains(r.value, Marker)
    ensures r.Some? ==> Contains(r.value, ProductBase + filename)
    ensures r.Some? ==> Contains(r.value, PriceValidUntil)
  {
    match Fields(data, filename)
    case None => None
    case Some(f) => Some(Block(f))
  }

  /** The old price, present or not, never changes the block. */
  lemma OldPriceIrrelevant(data: map<Key, string>, filename: string, v: string)
    ensures GenerateSchema(data[OldPriceKey := v], filename) == GenerateSchema(data, filename)
    ensures GenerateSchema(data - {OldPriceKey}, filename) == GenerateSchema(data, filename)
  {
    SameFieldsWithout(data, data[OldPriceKey := v], filename);
    SameFieldsWithout(data, data - {OldPriceKey}, filename);
  }

  /** Two maps that agree except at the old price give the same fields. */
  lemma SameFieldsWithout(data: map<Key, string>, other: map<Key, string>, filename: string)
    requires forall k :: k != OldPriceKey ==> (k in data <==> k in other)
    requires forall k :: k != OldPriceKey && k in data ==> data[k] == other[k]
    ensures Fields(other, filename) == Fields(data, filename)
  {
    assert Get(other, DiscountKey, DefaultDiscount) == Get(data, DiscountKey, DefaultDiscount);
    assert Get(other, NameKey, DefaultName) == Get(data, NameKey, DefaultName);
    assert Get(other, DescriptionKey, DefaultDescription) == Get(data, DescriptionKey, DefaultDescription);
    assert Get(other, ImageKey, DefaultImage) == Get(data, ImageKey, DefaultImage);
    assert Get(other, PriceKey, DefaultPrice) == Get(data, PriceKey, DefaultPrice);
  }

  /** With no discount key the default `'0'` parses: the block is the all-defaults one for a missing key set. */
  lemma DefaultsNeverFail(data: map<Key, string>, filename: string)
    requires DiscountKey !in data
    ensures GenerateSchema(data, filename).Some?
    ensures Fields(data, filename).value.rating == "4.0"
    ensures Fields(data, filename).value.reviewCount == "89"
    ensures Fields(map[], filename) == Some(SchemaFields(
      DefaultName, DefaultDescription, DefaultImage, ProductBase + filename, DefaultPrice, "4.0", "89"))
  {
    ParseIntOfDigits(DefaultDiscount);
    assert DigitsValue(DefaultDiscount) == 0 by { assert DefaultDiscount[..0] == []; }
  }

  /** Whatever page the fields come from, the block is generated; the discount's digits set the tiers. */
  lemma ExtractedNeverFails(html: string, filename: string)
    ensures var data := ExtractProductInfo(html);
      && GenerateSchema(data, filename).Some?
      && (DiscountKey in data ==>
            var d := DigitsValue(data[DiscountKey]);
            && (Fields(data, filename).value.rating == "4.5" <==> d > 10)
            && (Fields(data, filename).value.reviewCount == "127" <==> d > 15))
  {
    var data := ExtractProductInfo(html);
    ExtractedShapes(html);
    if DiscountKey in data {
      ParseIntOfDigits(data[DiscountKey]);
    } else {
      DefaultsNeverFail(data, filename);
    }
  }

  /** A discount that `int` reads as `d` puts the block in the tiers of `d`. */
  lemma DiscountTiers(data: map<Key, string>, filename: string, s: string, d: int)
    requires ParseInt(s) == Some(d)
    ensures Fields(data[DiscountKey := s], filename).Some?
    ensures Fields(data[DiscountKey := s], filename).value.rating == Rating(d)
    ensures Fields(data[DiscountKey := s], filename).value.reviewCount == ReviewCount(d)
  {
    assert Get(data[DiscountKey := s], DiscountKey, DefaultDiscount) == s;
  }

  /** The tiers are independent: discounts 10, 11, 12, 15 and 16 give the pairs below. */
  lemma TierExamples()
    ensures Rating(10) == "4.0" && ReviewCount(10) == "89"
    ensures Rating(11) == "4.5" && ReviewCount(11) == "89"
    ensures Rating(12) == "4.5" && ReviewCount(12) == "89"
    ensures Rating(15) == "4.5" && ReviewCount(15) == "89"
    ensures Rating(16) == "4.5" && ReviewCount(16) == "127"
  {
  }
}
