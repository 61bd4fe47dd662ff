# Iraq-Store product pages and schema fixer, in Dafny

This project models two scripts of the Iraq-Store site and the way they fit together.

- **The page generator** (`generate_products.py`) turns a catalogue record into an HTML product page. Its `create_product_page` computes:
  - the discount percentage;
  - the prices shown with thousands separators;
  - the description cut to 160 characters for the head of the page;
  - defaults for missing keys.

  The record's position in the catalogue names the file when the record has no slug.
- **The schema fixer** (`fix-schema.py`) visits every product page and processes it as follows:
  - It skips a page that already carries `application/ld+json`.
  - It reads six fields off the page with six regular-expression searches (`extract_product_info`).
  - It builds a JSON-LD block from those fields, with defaults and two rating tiers (`generate_schema`).
  - It inserts the block before every `</head>` (`add_schema_to_file`) and counts pages updated and skipped (`main`).

## Modules

- `Text`: the Python `str` operations the scripts use, over `seq<char>`: `isspace`, `strip`, `in`, `replace` and slicing.
- `Numerals`: `str(n)`, the thousands-separated `f"{n:,}"`, `int(s)`, and the round trips between them.
- `Scanner`: `re.search` for the shape every pattern here has, `prefix(class+)tail`, where the tail is a list of literals and starred classes. A "well-formedness" predicate checks that each run is followed by an element that cannot continue it. For well-formed patterns, three proofs show that taking each run maximally gives the regular-expression semantics: soundness, completeness, and that the match found is the leftmost one.
- `Extractor`: `extract_product_info` as a map from the six dictionary keys, modelled as a `Key` datatype with one constructor per literal key, to the converted groups of the patterns that match.
- `Schema`: `generate_schema`: the defaults, the rating and review-count tiers, and the block text.
- `Patcher`: the content step of `add_schema_to_file`, and `main`'s loop as a method with its counters. The product directory is a sequence of files, each either read or unreadable.
- `Renderer`: `create_product_page`, and the file name of line 188.
- `RoundTrip`: follows each search over a generated page, line by line. Each lemma shows where the pattern's prefix cannot start, and what the search returns at the one line that carries its anchor.
- `ReadBack`: the two scripts composed. These lemmas state what the fixer extracts from a generated page, and that the fixer leaves a generated page untouched.

### Assumptions on the records
The round-trip lemmas assume a record that is `Admissible`: its title, description, image URL and slug contain no `<`. Every one of the six patterns starts with `<`, so free text without one cannot start a match anywhere on the page.

A `"` in the free text is allowed. A `"` in the description changes what is read back, as stated under the differences below. The lemma that the image is never read back (`RoundTrip.SearchImagePage`) also assumes that neither the image URL nor the title holds a `"`. This assumption is needed. An image URL such as `x" class="product-image">` closes the `src` attribute early and completes the pattern. A title such as `t" class="product-image">` does the same after `alt="`.

The lemmas about the name read back (`ReadBack.ExtractedName`, `ReadBack.ExtractRendered`) also assume that the title does not contain the store name ` - متجر العراق`.

Prices are natural numbers.

### Differences between the two scripts
Each of these is a property proved about the model.

- **The image is never read back.** The fixer's image pattern expects `class="product-image">`. The generator writes `class="product-image" loading="lazy">`. When neither the image URL nor the title holds a `"`, the extracted data therefore never has an `image` key (`RoundTrip.SearchImagePage`).
- **A description is read only up to its first `"`.** The generator writes the description into `content="…"` without escaping it. The fixer's `([^"]+)"` stops at the first quote. For `شاشة 55" عالية الدقة`, the fixer's search captures only `شاشة 55` (`ReadBack.InchMarkDescription`), and the fixer stores that part stripped (`ReadBack.ExtractedDescription`). A description that starts with `"` is not read back at all (`RoundTrip.SearchDescriptionPage`, `ReadBack.ExtractRendered`).
- **A whitespace-only title keeps part of the store name.** The fixer strips the captured `title - متجر العراق` before removing the store name. When the title is empty or all whitespace, stripping also removes the store name's leading space. The suffix then no longer matches, and the name read back is `- متجر العراق` (`ReadBack.NameOfRendered`).
- **Generated pages are never patched.** Generated pages carry their own `application/ld+json` script, so the fixer skips every one of them. A batch over a directory of generated pages updates nothing and reports zero updated (`ReadBack.GeneratedPageSkipped`, `ReadBack.GeneratedBatchUntouched`).
- **A record without a slug gets a mismatched URL.** Its page is written to `products/product-{i}.html`. Its own canonical and `og:url` links, however, end in `products/.html` (`Renderer.SluglessRecord`).
- **The two scripts publish under different bases.** The generator uses `https://sherow1982.github.io/1/products/`. The fixer uses `https://sherow1982.github.io/Iraq-Store/products/`.

## Model

| member | source | states |
|---|---|---|
| Text.Strip | fix-schema.py:23 | `str.strip()`: the result neither starts nor ends with whitespace |
| Text.StripTrims | fix-schema.py:23 | `s.strip()` is `s` less an all-whitespace run at each end; with Strip's ensures this fixes the value |
| Text.StripEmpty | fix-schema.py:23 | the stripped string is empty exactly when the string has no visible character |
| Text.StripIdempotent | fix-schema.py:25 | stripping twice is stripping once |
| Text.ReplaceAbsent | fix-schema.py:25 | replacing a string that does not occur changes nothing |
| Text.ReplacePresent | fix-schema.py:125 | replacing a string that occurs leaves the replacement in the result |
| Text.ReplaceCharIsWithout | fix-schema.py:35 | `replace(',', '')` removes every comma and nothing else |
| Text.Take | generate_products.py:41 | `s[:n]`: at most `n` characters, a prefix of `s`, all of `s` when it is short enough |
| Text.BeforeFirst | fix-schema.py:28 | the longest prefix without `c`: it is followed by `c` or is all of `s`, and it is all of `s` when `s` has no `c` |
| Text.BeforeFirstAt | fix-schema.py:28 | a `c` at `k` with none before it makes the part before the first `c` equal to `s[..k]` |
| Numerals.NatToString | generate_products.py:63 | `str(n)`: non-empty ASCII digits, with a leading `0` only for zero |
| Numerals.NatToStringValue | generate_products.py:86 | the digits of `str(n)` denote `n` |
| Numerals.IntToString | generate_products.py:139 | `str(i)`: all digits exactly when `i` is not negative; otherwise a minus sign and digits |
| Numerals.IntToStringRoundTrip | fix-schema.py:67 | `int(str(i)) == i` |
| Numerals.ParseIntOfDigits | fix-schema.py:67-68 | `int` of a non-empty digit string is its value |
| Numerals.Grouped | generate_products.py:142-144 | `f"{n:,}"` starts with a digit and consists of digits and commas |
| Numerals.GroupCommas | generate_products.py:142-144 | the commas sit exactly every fourth place from the right, and the length of the grouped form |
| Numerals.UngroupGrouped | fix-schema.py:35 | removing the commas of `f"{n:,}"` gives `str(n)` |
| Numerals.GroupedExample | generate_products.py:144 | `str(1000)` is `1000` and `f"{1000:,}"` is `1,000` |
| Scanner.RunLength | fix-schema.py:21-48 | the longest prefix inside a class: every character before it is in the class, and the one after it is not |
| Scanner.Search | fix-schema.py:21 | `re.search(...).group(1)`: a found group is non-empty and inside the capture class |
| Scanner.TailExact | fix-schema.py:33-48 | for a well-formed tail, taking each starred run maximally accepts exactly what some split accepts |
| Scanner.MatchPrefixSound | fix-schema.py:21-48 | the scanned group at a position is a regular-expression match there |
| Scanner.MatchPrefixComplete | fix-schema.py:21-48 | every regular-expression match at a position is the scanned one |
| Scanner.SearchFirst | fix-schema.py:21-48 | a search returns the group at some start position; when it fails, nothing matches at any position |
| Scanner.SearchFoundIsLeftmost | fix-schema.py:21-48 | a found group is the group of the leftmost match |
| Scanner.SearchNoneIsNoMatch | fix-schema.py:21-48 | a failed search means the regular expression matches nowhere |
| Extractor.PatternsWellFormed | fix-schema.py:21-48 | each of the six patterns is well formed, so the scanner is `re.search` for it |
| Extractor.NameOf | fix-schema.py:23-25 | the name is empty or begins and ends with a visible character |
| Extractor.PriceOf | fix-schema.py:35 | a captured price without its commas is all digits |
| Extractor.ExtractProductInfo | fix-schema.py:16-52 | each of the six keys is present exactly when its pattern matches, with the converted group as value |
| Extractor.ExtractedShapes | fix-schema.py:16-52 | on any page: name and description stripped, description and image without `"`, prices all digits, discount non-empty digits |
| Schema.Get | fix-schema.py:59-64 | `dict.get` with a default |
| Schema.Rating | fix-schema.py:67 | `4.5` exactly when the discount exceeds 10, else `4.0` |
| Schema.ReviewCount | fix-schema.py:68 | `127` exactly when the discount exceeds 15, else `89` |
| Schema.Fields | fix-schema.py:59-71 | the substituted values are defined exactly when `int(discount)` succeeds, and equal the looked-up values or their defaults, the offer URL and the two tiers |
| Schema.Block | fix-schema.py:73-101 | the block carries `application/ld+json`, the offer URL and `2025-12-31` |
| Schema.GenerateSchema | fix-schema.py:55-103 | a block exactly when `int(discount)` succeeds; it carries the marker, `https://sherow1982.github.io/Iraq-Store/products/` + file name and the validity date |
| Schema.OldPriceIrrelevant | fix-schema.py:62 | setting or removing `old_price` never changes the block |
| Schema.DefaultsNeverFail | fix-schema.py:59-68 | with no discount key the block is generated with rating `4.0` and 89 reviews; an empty map gives all defaults |
| Schema.ExtractedNeverFails | fix-schema.py:42-45 | on data extracted from any page, `int(discount)` never fails, and the tiers follow the extracted digits |
| Schema.DiscountTiers | fix-schema.py:67-68 | a discount that `int` reads as `d` gives the tiers of `d` |
| Schema.TierExamples | fix-schema.py:67-68 | discounts 10, 11, 12, 15 and 16 give (4.0, 89), (4.5, 89), (4.5, 89), (4.5, 89) and (4.5, 127) |
| Patcher.Insertion | fix-schema.py:125 | the replacement for `</head>` carries the marker when the block does |
| Patcher.Splice | fix-schema.py:125 | with no `</head>` the content is unchanged; otherwise the result carries the marker |
| Patcher.AddSchema | fix-schema.py:106-136 | a marked page is returned unchanged and not updated; otherwise updated exactly when the block is generated; a page not updated is unchanged |
| Patcher.UpdatedUnlessMarked | fix-schema.py:114-132 | the step reports an update exactly when the page lacks the marker |
| Patcher.AddSchemaIdempotent | fix-schema.py:114-131 | a second step on the result changes nothing; it reports an update again exactly when the first did and the page has no `</head>` |
| Patcher.ProductPages | fix-schema.py:156 | the visited files are the directory's `.html` files other than `index.html` |
| Patcher.Processed | fix-schema.py:109-136 | a file keeps its name, and stays readable or unreadable |
| Patcher.SkippedUnchanged | fix-schema.py:134-136 | a file not reported updated is left as it was |
| Patcher.CountUpdatedNone | fix-schema.py:169-173 | a batch of files none of which is updated counts zero |
| Patcher.BatchIdempotent | fix-schema.py:169-173 | a second batch over the first one's output changes no file |
| Patcher.VisitPage | fix-schema.py:170 | one file's turn: the new file and whether it was updated, an unreadable file counting as not updated |
| Patcher.BatchStep | fix-schema.py:169-173 | one more page extends the processed batch by that page's result and the count by its report |
| Patcher.Turn | fix-schema.py:169-173 | one turn of the loop keeps its invariant: the processed prefix, `updated` its count of updates and `updated + skipped` its length |
| Patcher.FixSchemas | fix-schema.py:166-173 | the loop returns the processed pages and counters with `updated` the number of updated pages and `updated + skipped` the number of pages |
| Renderer.RoundDivNearest | generate_products.py:29 | the rounded quotient is within one half of the exact one |
| Renderer.Discount | generate_products.py:29 | 0 when a price is missing or zero |
| Renderer.DiscountNearest | generate_products.py:29 | when both prices are present and non-zero, the discount is the nearest integer to the saved share in percent |
| Renderer.DiscountRange | generate_products.py:29 | for 0 < sale price ≤ price the discount is in 0..100 |
| Renderer.DiscountAboveZero | generate_products.py:29 | a sale price above the price gives no positive discount |
| Renderer.NearestUnique | generate_products.py:29 | an integer closer than one half to the quotient is the discount |
| Renderer.DiscountExample | generate_products.py:139 | price 2000 and sale price 1000 give discount 50 and a badge reading `خصم 50%` |
| Renderer.MetaDescription | generate_products.py:41 | the head's description is at most 160 characters and a prefix of the full description, all of it when short |
| Renderer.FileName | generate_products.py:188-189 | `products/{slug}.html`, and `products/product-{i}.html` without a slug |
| Renderer.TitleTag | generate_products.py:50 | the page holds `<title>{title} - متجر العراق</title>` |
| Renderer.DescriptionTag | generate_products.py:51 | the head's description meta tag holds the cut description |
| Renderer.PageUrls | generate_products.py:55-62 | the canonical and og URLs are the site base, the slug and `.html` |
| Renderer.OgPriceTag | generate_products.py:63 | the og price is `str(sale_price)` |
| Renderer.StructuredFields | generate_products.py:77-91 | the page's JSON-LD holds the title, the image, the cut description and `str(sale_price)` as price |
| Renderer.VisiblePrices | generate_products.py:142-144 | the shown prices are `f"{n:,}"` followed by ` د.ع` |
| Renderer.BodyDescription | generate_products.py:149 | the body's paragraph holds the whole description |
| Renderer.DefaultsRender | generate_products.py:32-38 | a record without title, sale price and image renders with `منتج`, 0 and `''`: the title tag names `منتج`, the price shown and the JSON-LD price are `0` |
| Renderer.PriceExample | generate_products.py:86 | sale price 1000: JSON-LD and og price `1000`, price shown `1,000 د.ع` |
| Renderer.SluglessRecord | generate_products.py:185-189 | a record without a slug is written to `products/product-{i}.html` while its own URLs end in `/products/.html` |
| RoundTrip.SearchTitlePage | fix-schema.py:21 | on a generated page the title search captures the title followed by the store name |
| RoundTrip.DescriptionQuoteFree | fix-schema.py:28 | without a `"` in the description, the part read is the whole cut description |
| RoundTrip.SearchDescriptionPage | fix-schema.py:28 | the description search captures the cut description up to its first `"`, and finds nothing when that part is empty |
| RoundTrip.SearchOldPricePage | fix-schema.py:33 | the old-price search captures `f"{price:,}"` |
| RoundTrip.SearchPricePage | fix-schema.py:38 | the price search captures `f"{sale_price:,}"` |
| RoundTrip.SearchDiscountPage | fix-schema.py:43 | the discount search captures `str(discount)` when it is not negative, and finds nothing when it is |
| RoundTrip.SearchImagePage | fix-schema.py:48 | the image search finds nothing on a generated page whose title and image URL hold no `"` |
| ReadBack.NameOfRendered | fix-schema.py:21-25 | the name read back is the stripped title, or `- متجر العراق` when the title is all whitespace |
| ReadBack.PriceOfGrouped | fix-schema.py:35 | a shown price read back is `str(n)` |
| ReadBack.ExtractRendered | fix-schema.py:16-52 | from a generated page the fixer extracts the name, both prices as `str`, the cut description up to its first `"` when that part is non-empty, and the discount when not negative; it extracts no image when the title and image URL hold no `"` |
| ReadBack.ExtractedDescription | fix-schema.py:28-30 | the fixer stores a description exactly when the cut description's part before its first `"` is non-empty, and stores that part stripped |
| ReadBack.InchMarkDescription | fix-schema.py:28 | of the description `شاشة 55" عالية الدقة` the description search reads only `شاشة 55` |
| ReadBack.PageHasMarker | generate_products.py:77 | a generated page carries `application/ld+json` |
| ReadBack.GeneratedPageSkipped | fix-schema.py:114-116 | the fixer returns a generated page unchanged and reports it not updated |
| ReadBack.GeneratedBatchUntouched | fix-schema.py:166-173 | over a directory of generated pages the batch counts zero updated and leaves every file as it was |

## Left out

- File and directory I/O are left out: `open`, `read`, `write`, `json.load`, `os.makedirs`, and `Path.glob` beyond its name filter. The directory is a sequence of name and content pairs, and an unreadable file has no content.
- Console output (`print`) and the summary banners are left out.
- Exceptions are modelled only as outcomes. A failing `int(discount)` inside `add_schema_to_file` is a `None` block and counts as skipped. A failing read is an unreadable file. A failing write is not modelled.
- The template's constant filler is left out: the CSS, the charset, viewport, author, robots, `og:type` and currency tags, the navigation, the back link, the description heading and the footer.
- Several lines that carry values are also left out of the modelled page:
  - the keywords tag, which carries the title (generate_products.py:52);
  - the `og:title`, `og:description` and `og:image` tags (generate_products.py:59-61);
  - the Twitter tags (generate_products.py:68-70);
  - the WhatsApp link, which carries `quote(title)` and `{sale_price:,}` (generate_products.py:34).

  For an `Admissible` record none of these lines holds a `<` besides its own tag's, so none of them contains one of the six pattern prefixes. This is argued, not proved: the round-trip lemmas are proved over the page without these lines.
- Prices are natural numbers. `{:,}` on floats or negative numbers, float division, and `round`'s tie-breaking at exact halves are left out.
- Renderer.RoundDivNearest: `RoundDiv` rounds halves up; the lemma claims only the nearest integer, not which one at a tie.
- The validity of the emitted JSON is not modelled. Values are substituted without escaping.
- `\d` is modelled as the ASCII digits. Python also matches other Unicode decimal digits.
- `int()` is modelled as optional surrounding whitespace, an optional sign and ASCII digits. Underscores and non-ASCII digits are left out.
- Numerals.ParseInt: does not model CPython's limit on integer string conversion. By default, `int()` of a string with more than 4300 digits raises `ValueError`, and `str()` of such an integer raises too. The model reads every digit string.
- Numerals.ParseIntOfDigits: claims a value for every digit string, including those over the 4300-digit limit, where Python raises.
- Schema.ExtractedNeverFails: on a page whose discount badge holds more than 4300 digits, `int(discount)` raises in Python, and fix-schema.py:134-136 reports the page not updated. The lemma, following the model of `int()`, claims it never fails.
- Patcher.UpdatedUnlessMarked: on such a page the source skips the file unchanged, while the model reports it updated.
- The generator's own loop (its counters, error list and writes) is I/O driving and is left out. Only `create_product_page` and the file name at line 188 are modelled.
