/**
 * A page written by the page generator, read back by the schema fixer.
 * The searches are followed line by line through the page: every line is
 * shown to hold no place where a pattern's prefix could start, except the
 * one line that carries that pattern's anchor.
 */
module RoundTrip {
  import opened Wrappers
  import opened Text
  import opened Numerals
  import opened Scanner
  import opened Extractor
  import opened Renderer

  /** The six patterns' anchors, by index. */
  const TitleIx := 0
  const DescriptionIx := 1
  const OldPriceIx := 2
  const PriceIx := 3
  const DiscountIx := 4
  const ImageIx := 5
  /** No anchor excepted. */
  const NoIx := -1

  /** No prefix but the `except`-th can start anywhere in `s`. */
  ghost predicate Quiet(s: string, except: int) {
       (except != TitleIx ==> Clean(s, TitlePattern.prefix))
    && (except != DescriptionIx ==> Clean(s, DescriptionPattern.prefix))
    && (except != OldPriceIx ==> Clean(s, OldPricePattern.prefix))
    && (except != PriceIx ==> Clean(s, PricePattern.prefix))
    && (except != DiscountIx ==> Clean(s, DiscountPattern.prefix))
    && (except != ImageIx ==> Clean(s, ImagePattern.prefix))
  }

  // ------------------------------------------------------------ composing

  lemma QuietConcat(a: string, b: string, except: int)
    requires Quiet(a, except) && Quiet(b, except)
    ensures Quiet(a + b, except)
  {
    if except != TitleIx { CleanConcat(a, b, TitlePattern.prefix); }
    if except != DescriptionIx { CleanConcat(a, b, DescriptionPattern.prefix); }
    if except != OldPriceIx { CleanConcat(a, b, OldPricePattern.prefix); }
    if except != PriceIx { CleanConcat(a, b, PricePattern.prefix); }
    if except != DiscountIx { CleanConcat(a, b, DiscountPattern.prefix); }
    if except != ImageIx { CleanConcat(a, b, ImagePattern.prefix); }
  }

  /** Text without `<` holds no prefix. */
  lemma QuietText(t: string, except: int)
    requires '<' !in t
    ensures Quiet(t, except)
  {
    CleanText(t, TitlePattern.prefix);
    CleanText(t, DescriptionPattern.prefix);
    CleanText(t, OldPricePattern.prefix);
    CleanText(t, PricePattern.prefix);
    CleanText(t, DiscountPattern.prefix);
    CleanText(t, ImagePattern.prefix);
  }

  /** A tag whose only `<` is its first character, and that disagrees with `p` at position `m`. */
  lemma CleanTag(tag: string, p: string, m: nat)
    requires 0 < m < |tag| && m < |p| && tag[0] == '<' == p[0] && tag[m] != p[m] && '<' !in tag[1..]
    ensures Clean(tag, p)
  {
    CleanOpen(tag, [], p, m);
    assert tag + [] == tag;
  }

  // ------------------------------------------------------------- the tags

  /** The characters of the prefixes that tell the tags apart. */
  lemma TitlePrefixChars()
    ensures TitlePattern.prefix[0] == '<' && TitlePattern.prefix[1] == 't'
  {
  }

  lemma DescriptionPrefixChars()
    ensures DescriptionPattern.prefix[0] == '<' && DescriptionPattern.prefix[1] == 'm' && DescriptionPattern.prefix[6] == 'n'
  {
  }

  lemma OldPricePrefixChars()
    ensures OldPricePattern.prefix[0] == '<' && OldPricePattern.prefix[1] == 's' && OldPricePattern.prefix[2] == 'p' && OldPricePattern.prefix[13] == 'o'
  {
  }

  lemma PricePrefixChars()
    ensures PricePattern.prefix[0] == '<' && PricePattern.prefix[1] == 'd'
  {
  }

  lemma DiscountPrefixChars()
    ensures DiscountPattern.prefix[0] == '<' && DiscountPattern.prefix[1] == 's' && DiscountPattern.prefix[2] == 'p' && DiscountPattern.prefix[13] == 'd'
  {
  }

  lemma ImagePrefixChars()
    ensures ImagePattern.prefix[0] == '<' && ImagePattern.prefix[1] == 'i'
  {
  }

  lemma PrefixChars()
    ensures TitlePattern.prefix[0] == '<' && TitlePattern.prefix[1] == 't'
    ensures DescriptionPattern.prefix[0] == '<' && DescriptionPattern.prefix[1] == 'm' && DescriptionPattern.prefix[6] == 'n'
    ensures OldPricePattern.prefix[0] == '<' && OldPricePattern.prefix[1] == 's' && OldPricePattern.prefix[2] == 'p' && OldPricePattern.prefix[13] == 'o'
    ensures PricePattern.prefix[0] == '<' && PricePattern.prefix[1] == 'd'
    ensures DiscountPattern.prefix[0] == '<' && DiscountPattern.prefix[1] == 's' && DiscountPattern.prefix[2] == 'p' && DiscountPattern.prefix[13] == 'd'
    ensures ImagePattern.prefix[0] == '<' && ImagePattern.prefix[1] == 'i'
  {
    TitlePrefixChars();
    DescriptionPrefixChars();
    OldPricePrefixChars();
    PricePrefixChars();
    DiscountPrefixChars();
    ImagePrefixChars();
  }

  // Each tag's `…Opens` and `…Chars` lemmas state literal facts about that
  // tag (where its `<` is, which character follows it) and serve the tag's
  // `…Quiet` lemma next to them; those of the anchoring tags also serve the
  // line searches further down.

  lemma DoctypeTagOpens()
    ensures DoctypeTag[0] == '<' && '<' !in DoctypeTag[1..]
  {
  }

  lemma DoctypeTagChars()
    ensures DoctypeTag[1] == '!'
  {
  }

  lemma DoctypeTagQuiet()
    ensures Quiet(DoctypeTag, NoIx)
  {
    DoctypeTagOpens();
    DoctypeTagChars();
    PrefixChars();
    CleanTag(DoctypeTag, TitlePattern.prefix, 1);
    CleanTag(DoctypeTag, DescriptionPattern.prefix, 1);
    CleanTag(DoctypeTag, OldPricePattern.prefix, 1);
    CleanTag(DoctypeTag, PricePattern.prefix, 1);
    CleanTag(DoctypeTag, DiscountPattern.prefix, 1);
    CleanTag(DoctypeTag, ImagePattern.prefix, 1);
  }

  lemma HtmlTagOpens()
    ensures HtmlTag[0] == '<' && '<' !in HtmlTag[1..]
  {
  }

  lemma HtmlTagChars()
    ensures HtmlTag[1] == 'h'
  {
  }

  lemma HtmlTagQuiet()
    ensures Quiet(HtmlTag, NoIx)
  {
    HtmlTagOpens();
    HtmlTagChars();
    PrefixChars();
    CleanTag(HtmlTag, TitlePattern.prefix, 1);
    CleanTag(HtmlTag, DescriptionPattern.prefix, 1);
    CleanTag(HtmlTag, OldPricePattern.prefix, 1);
    CleanTag(HtmlTag, PricePattern.prefix, 1);
    CleanTag(HtmlTag, DiscountPattern.prefix, 1);
    CleanTag(HtmlTag, ImagePattern.prefix, 1);
  }

  lemma HeadTagOpens()
    ensures HeadTag[0] == '<' && '<' !in HeadTag[1..]
  {
  }

  lemma HeadTagChars()
    ensures HeadTag[1] == 'h'
  {
  }

  lemma HeadTagQuiet()
    ensures Quiet(HeadTag, NoIx)
  {
    HeadTagOpens();
    HeadTagChars();
    PrefixChars();
    CleanTag(HeadTag, TitlePattern.prefix, 1);
    CleanTag(HeadTag, DescriptionPattern.prefix, 1);
    CleanTag(HeadTag, OldPricePattern.prefix, 1);
    CleanTag(HeadTag, PricePattern.prefix, 1);
    CleanTag(HeadTag, DiscountPattern.prefix, 1);
    CleanTag(HeadTag, ImagePattern.prefix, 1);
  }

  lemma TitleOpenOpens()
    ensures TitleOpen[0] == '<' && '<' !in TitleOpen[1..]
  {
  }

  lemma TitleOpenChars()
    ensures TitleOpen[1] == 't'
  {
  }

  lemma TitleOpenQuiet()
    ensures Quiet(TitleOpen, TitleIx)
  {
    TitleOpenOpens();
    TitleOpenChars();
    PrefixChars();
    CleanTag(TitleOpen, DescriptionPattern.prefix, 1);
    CleanTag(TitleOpen, OldPricePattern.prefix, 1);
    CleanTag(TitleOpen, PricePattern.prefix, 1);
    CleanTag(TitleOpen, DiscountPattern.prefix, 1);
    CleanTag(TitleOpen, ImagePattern.prefix, 1);
  }

  lemma TitleCloseOpens()
    ensures TitleClose[0] == '<' && '<' !in TitleClose[1..]
  {
  }

  lemma TitleCloseChars()
    ensures TitleClose[1] == '/'
  {
  }

  lemma TitleCloseQuiet()
    ensures Quiet(TitleClose, NoIx)
  {
    TitleCloseOpens();
    TitleCloseChars();
    PrefixChars();
    CleanTag(TitleClose, TitlePattern.prefix, 1);
    CleanTag(TitleClose, DescriptionPattern.prefix, 1);
    CleanTag(TitleClose, OldPricePattern.prefix, 1);
    CleanTag(TitleClose, PricePattern.prefix, 1);
    CleanTag(TitleClose, DiscountPattern.prefix, 1);
    CleanTag(TitleClose, ImagePattern.prefix, 1);
  }

  lemma DescriptionOpenOpens()
    ensures DescriptionOpen[0] == '<' && '<' !in DescriptionOpen[1..]
  {
  }

  lemma DescriptionOpenChars()
    ensures DescriptionOpen[1] == 'm'
  {
  }

  lemma DescriptionOpenQuiet()
    ensures Quiet(DescriptionOpen, DescriptionIx)
  {
    DescriptionOpenOpens();
    DescriptionOpenChars();
    PrefixChars();
    CleanTag(DescriptionOpen, TitlePattern.prefix, 1);
    CleanTag(DescriptionOpen, OldPricePattern.prefix, 1);
    CleanTag(DescriptionOpen, PricePattern.prefix, 1);
    CleanTag(DescriptionOpen, DiscountPattern.prefix, 1);
    CleanTag(DescriptionOpen, ImagePattern.prefix, 1);
  }

  lemma CanonicalOpenOpens()
    ensures CanonicalOpen[0] == '<' && '<' !in CanonicalOpen[1..]
  {
  }

  lemma CanonicalOpenChars()
    ensures CanonicalOpen[1] == 'l'
  {
  }

  lemma CanonicalOpenQuiet()
    ensures Quiet(CanonicalOpen, NoIx)
  {
    CanonicalOpenOpens();
    CanonicalOpenChars();
    PrefixChars();
    CleanTag(CanonicalOpen, TitlePattern.prefix, 1);
    CleanTag(CanonicalOpen, DescriptionPattern.prefix, 1);
    CleanTag(CanonicalOpen, OldPricePattern.prefix, 1);
    CleanTag(CanonicalOpen, PricePattern.prefix, 1);
    CleanTag(CanonicalOpen, DiscountPattern.prefix, 1);
    CleanTag(CanonicalOpen, ImagePattern.prefix, 1);
  }

  lemma OgUrlOpenOpens()
    ensures OgUrlOpen[0] == '<' && '<' !in OgUrlOpen[1..]
  {
  }

  lemma OgUrlOpenChars()
    ensures OgUrlOpen[1] == 'm' && OgUrlOpen[6] == 'p'
  {
  }

  lemma OgUrlOpenQuiet()
    ensures Quiet(OgUrlOpen, NoIx)
  {
    OgUrlOpenOpens();
    OgUrlOpenChars();
    PrefixChars();
    CleanTag(OgUrlOpen, TitlePattern.prefix, 1);
    CleanTag(OgUrlOpen, DescriptionPattern.prefix, 6);
    CleanTag(OgUrlOpen, OldPricePattern.prefix, 1);
    CleanTag(OgUrlOpen, PricePattern.prefix, 1);
    CleanTag(OgUrlOpen, DiscountPattern.prefix, 1);
    CleanTag(OgUrlOpen, ImagePattern.prefix, 1);
  }

  lemma OgPriceOpenOpens()
    ensures OgPriceOpen[0] == '<' && '<' !in OgPriceOpen[1..]
  {
  }

  lemma OgPriceOpenChars()
    ensures OgPriceOpen[1] == 'm' && OgPriceOpen[6] == 'p'
  {
  }

  lemma OgPriceOpenQuiet()
    ensures Quiet(OgPriceOpen, NoIx)
  {
    OgPriceOpenOpens();
    OgPriceOpenChars();
    PrefixChars();
    CleanTag(OgPriceOpen, TitlePattern.prefix, 1);
    CleanTag(OgPriceOpen, DescriptionPattern.prefix, 6);
    CleanTag(OgPriceOpen, OldPricePattern.prefix, 1);
    CleanTag(OgPriceOpen, PricePattern.prefix, 1);
    CleanTag(OgPriceOpen, DiscountPattern.prefix, 1);
    CleanTag(OgPriceOpen, ImagePattern.prefix, 1);
  }

  lemma ScriptOpenOpens()
    ensures ScriptOpen[0] == '<' && '<' !in ScriptOpen[1..]
  {
  }

  lemma ScriptOpenChars()
    ensures ScriptOpen[1] == 's' && ScriptOpen[2] == 'c'
  {
  }

  lemma ScriptOpenQuiet()
    ensures Quiet(ScriptOpen, NoIx)
  {
    ScriptOpenOpens();
    ScriptOpenChars();
    PrefixChars();
    CleanTag(ScriptOpen, TitlePattern.prefix, 1);
    CleanTag(ScriptOpen, DescriptionPattern.prefix, 1);
    CleanTag(ScriptOpen, OldPricePattern.prefix, 2);
    CleanTag(ScriptOpen, PricePattern.prefix, 1);
    CleanTag(ScriptOpen, DiscountPattern.prefix, 2);
    CleanTag(ScriptOpen, ImagePattern.prefix, 1);
  }

  lemma ScriptCloseOpens()
    ensures ScriptClose[0] == '<' && '<' !in ScriptClose[1..]
  {
  }

  lemma ScriptCloseChars()
    ensures ScriptClose[1] == '/'
  {
  }

  lemma ScriptCloseQuiet()
    ensures Quiet(ScriptClose, NoIx)
  {
    ScriptCloseOpens();
    ScriptCloseChars();
    PrefixChars();
    CleanTag(ScriptClose, TitlePattern.prefix, 1);
    CleanTag(ScriptClose, DescriptionPattern.prefix, 1);
    CleanTag(ScriptClose, OldPricePattern.prefix, 1);
    CleanTag(ScriptClose, PricePattern.prefix, 1);
    CleanTag(ScriptClose, DiscountPattern.prefix, 1);
    CleanTag(ScriptClose, ImagePattern.prefix, 1);
  }

  lemma HeadCloseOpens()
    ensures HeadClose[0] == '<' && '<' !in HeadClose[1..]
  {
  }

  lemma HeadCloseChars()
    ensures HeadClose[1] == '/'
  {
  }

  lemma HeadCloseQuiet()
    ensures Quiet(HeadClose, NoIx)
  {
    HeadCloseOpens();
    HeadCloseChars();
    PrefixChars();
    CleanTag(HeadClose, TitlePattern.prefix, 1);
    CleanTag(HeadClose, DescriptionPattern.prefix, 1);
    CleanTag(HeadClose, OldPricePattern.prefix, 1);
    CleanTag(HeadClose, PricePattern.prefix, 1);
    CleanTag(HeadClose, DiscountPattern.prefix, 1);
    CleanTag(HeadClose, ImagePattern.prefix, 1);
  }

  lemma BodyTagOpens()
    ensures BodyTag[0] == '<' && '<' !in BodyTag[1..]
  {
  }

  lemma BodyTagChars()
    ensures BodyTag[1] == 'b'
  {
  }

  lemma BodyTagQuiet()
    ensures Quiet(BodyTag, NoIx)
  {
    BodyTagOpens();
    BodyTagChars();
    PrefixChars();
    CleanTag(BodyTag, TitlePattern.prefix, 1);
    CleanTag(BodyTag, DescriptionPattern.prefix, 1);
    CleanTag(BodyTag, OldPricePattern.prefix, 1);
    CleanTag(BodyTag, PricePattern.prefix, 1);
    CleanTag(BodyTag, DiscountPattern.prefix, 1);
    CleanTag(BodyTag, ImagePattern.prefix, 1);
  }

  lemma HeadingOpenOpens()
    ensures HeadingOpen[0] == '<' && '<' !in HeadingOpen[1..]
  {
  }

  lemma HeadingOpenChars()
    ensures HeadingOpen[1] == 'h'
  {
  }

  lemma HeadingOpenQuiet()
    ensures Quiet(HeadingOpen, NoIx)
  {
    HeadingOpenOpens();
    HeadingOpenChars();
    PrefixChars();
    CleanTag(HeadingOpen, TitlePattern.prefix, 1);
    CleanTag(HeadingOpen, DescriptionPattern.prefix, 1);
    CleanTag(HeadingOpen, OldPricePattern.prefix, 1);
    CleanTag(HeadingOpen, PricePattern.prefix, 1);
    CleanTag(HeadingOpen, DiscountPattern.prefix, 1);
    CleanTag(HeadingOpen, ImagePattern.prefix, 1);
  }

  lemma HeadingCloseOpens()
    ensures HeadingClose[0] == '<' && '<' !in HeadingClose[1..]
  {
  }

  lemma HeadingCloseChars()
    ensures HeadingClose[1] == '/'
  {
  }

  lemma HeadingCloseQuiet()
    ensures Quiet(HeadingClose, NoIx)
  {
    HeadingCloseOpens();
    HeadingCloseChars();
    PrefixChars();
    CleanTag(HeadingClose, TitlePattern.prefix, 1);
    CleanTag(HeadingClose, DescriptionPattern.prefix, 1);
    CleanTag(HeadingClose, OldPricePattern.prefix, 1);
    CleanTag(HeadingClose, PricePattern.prefix, 1);
    CleanTag(HeadingClose, DiscountPattern.prefix, 1);
    CleanTag(HeadingClose, ImagePattern.prefix, 1);
  }

  lemma ImageOpenOpens()
    ensures ImageOpen[0] == '<' && '<' !in ImageOpen[1..]
  {
  }

  lemma ImageOpenChars()
    ensures ImageOpen[1] == 'i'
  {
  }

  lemma ImageOpenQuiet()
    ensures Quiet(ImageOpen, ImageIx)
  {
    ImageOpenOpens();
    ImageOpenChars();
    PrefixChars();
    CleanTag(ImageOpen, TitlePattern.prefix, 1);
    CleanTag(ImageOpen, DescriptionPattern.prefix, 1);
    CleanTag(ImageOpen, OldPricePattern.prefix, 1);
    CleanTag(ImageOpen, PricePattern.prefix, 1);
    CleanTag(ImageOpen, DiscountPattern.prefix, 1);
  }

  lemma BadgeOpenOpens()
    ensures BadgeOpen[0] == '<' && '<' !in BadgeOpen[1..]
  {
  }

  lemma BadgeOpenChars()
    ensures BadgeOpen[1] == 's' && BadgeOpen[13] == 'd'
  {
  }

  lemma BadgeOpenQuiet()
    ensures Quiet(BadgeOpen, DiscountIx)
  {
    BadgeOpenOpens();
    BadgeOpenChars();
    PrefixChars();
    CleanTag(BadgeOpen, TitlePattern.prefix, 1);
    CleanTag(BadgeOpen, DescriptionPattern.prefix, 1);
    CleanTag(BadgeOpen, OldPricePattern.prefix, 13);
    CleanTag(BadgeOpen, PricePattern.prefix, 1);
    CleanTag(BadgeOpen, ImagePattern.prefix, 1);
  }

  lemma OldPriceOpenOpens()
    ensures OldPriceOpen[0] == '<' && '<' !in OldPriceOpen[1..]
  {
  }

  lemma OldPriceOpenChars()
    ensures OldPriceOpen[1] == 's' && OldPriceOpen[13] == 'o'
  {
  }

  lemma OldPriceOpenQuiet()
    ensures Quiet(OldPriceOpen, OldPriceIx)
  {
    OldPriceOpenOpens();
    OldPriceOpenChars();
    PrefixChars();
    CleanTag(OldPriceOpen, TitlePattern.prefix, 1);
    CleanTag(OldPriceOpen, DescriptionPattern.prefix, 1);
    CleanTag(OldPriceOpen, PricePattern.prefix, 1);
    CleanTag(OldPriceOpen, DiscountPattern.prefix, 13);
    CleanTag(OldPriceOpen, ImagePattern.prefix, 1);
  }

  lemma SpanCloseOpens()
    ensures SpanClose[0] == '<' && '<' !in SpanClose[1..]
  {
  }

  lemma SpanCloseChars()
    ensures SpanClose[1] == '/'
  {
  }

  lemma SpanCloseQuiet()
    ensures Quiet(SpanClose, NoIx)
  {
    SpanCloseOpens();
    SpanCloseChars();
    PrefixChars();
    CleanTag(SpanClose, TitlePattern.prefix, 1);
    CleanTag(SpanClose, DescriptionPattern.prefix, 1);
    CleanTag(SpanClose, OldPricePattern.prefix, 1);
    CleanTag(SpanClose, PricePattern.prefix, 1);
    CleanTag(SpanClose, DiscountPattern.prefix, 1);
    CleanTag(SpanClose, ImagePattern.prefix, 1);
  }

  lemma NewPriceOpenOpens()
    ensures NewPriceOpen[0] == '<' && '<' !in NewPriceOpen[1..]
  {
  }

  lemma NewPriceOpenChars()
    ensures NewPriceOpen[1] == 'd'
  {
  }

  lemma NewPriceOpenQuiet()
    ensures Quiet(NewPriceOpen, PriceIx)
  {
    NewPriceOpenOpens();
    NewPriceOpenChars();
    PrefixChars();
    CleanTag(NewPriceOpen, TitlePattern.prefix, 1);
    CleanTag(NewPriceOpen, DescriptionPattern.prefix, 1);
    CleanTag(NewPriceOpen, OldPricePattern.prefix, 1);
    CleanTag(NewPriceOpen, DiscountPattern.prefix, 1);
    CleanTag(NewPriceOpen, ImagePattern.prefix, 1);
  }

  lemma DivCloseOpens()
    ensures DivClose[0] == '<' && '<' !in DivClose[1..]
  {
  }

  lemma DivCloseChars()
    ensures DivClose[1] == '/'
  {
  }

  lemma DivCloseQuiet()
    ensures Quiet(DivClose, NoIx)
  {
    DivCloseOpens();
    DivCloseChars();
    PrefixChars();
    CleanTag(DivClose, TitlePattern.prefix, 1);
    CleanTag(DivClose, DescriptionPattern.prefix, 1);
    CleanTag(DivClose, OldPricePattern.prefix, 1);
    CleanTag(DivClose, PricePattern.prefix, 1);
    CleanTag(DivClose, DiscountPattern.prefix, 1);
    CleanTag(DivClose, ImagePattern.prefix, 1);
  }

  lemma ParagraphOpenOpens()
    ensures ParagraphOpen[0] == '<' && '<' !in ParagraphOpen[1..]
  {
  }

  lemma ParagraphOpenChars()
    ensures ParagraphOpen[1] == 'p'
  {
  }

  lemma ParagraphOpenQuiet()
    ensures Quiet(ParagraphOpen, NoIx)
  {
    ParagraphOpenOpens();
    ParagraphOpenChars();
    PrefixChars();
    CleanTag(ParagraphOpen, TitlePattern.prefix, 1);
    CleanTag(ParagraphOpen, DescriptionPattern.prefix, 1);
    CleanTag(ParagraphOpen, OldPricePattern.prefix, 1);
    CleanTag(ParagraphOpen, PricePattern.prefix, 1);
    CleanTag(ParagraphOpen, DiscountPattern.prefix, 1);
    CleanTag(ParagraphOpen, ImagePattern.prefix, 1);
  }

  lemma ParagraphCloseOpens()
    ensures ParagraphClose[0] == '<' && '<' !in ParagraphClose[1..]
  {
  }

  lemma ParagraphCloseChars()
    ensures ParagraphClose[1] == '/'
  {
  }

  lemma ParagraphCloseQuiet()
    ensures Quiet(ParagraphClose, NoIx)
  {
    ParagraphCloseOpens();
    ParagraphCloseChars();
    PrefixChars();
    CleanTag(ParagraphClose, TitlePattern.prefix, 1);
    CleanTag(ParagraphClose, DescriptionPattern.prefix, 1);
    CleanTag(ParagraphClose, OldPricePattern.prefix, 1);
    CleanTag(ParagraphClose, PricePattern.prefix, 1);
    CleanTag(ParagraphClose, DiscountPattern.prefix, 1);
    CleanTag(ParagraphClose, ImagePattern.prefix, 1);
  }

  lemma BodyCloseOpens()
    ensures BodyClose[0] == '<' && '<' !in BodyClose[1..]
  {
  }

  lemma BodyCloseChars()
    ensures BodyClose[1] == '/'
  {
  }

  lemma BodyCloseQuiet()
    ensures Quiet(BodyClose, NoIx)
  {
    BodyCloseOpens();
    BodyCloseChars();
    PrefixChars();
    CleanTag(BodyClose, TitlePattern.prefix, 1);
    CleanTag(BodyClose, DescriptionPattern.prefix, 1);
    CleanTag(BodyClose, OldPricePattern.prefix, 1);
    CleanTag(BodyClose, PricePattern.prefix, 1);
    CleanTag(BodyClose, DiscountPattern.prefix, 1);
    CleanTag(BodyClose, ImagePattern.prefix, 1);
  }

  lemma HtmlCloseOpens()
    ensures HtmlClose[0] == '<' && '<' !in HtmlClose[1..]
  {
  }

  lemma HtmlCloseChars()
    ensures HtmlClose[1] == '/'
  {
  }

  lemma HtmlCloseQuiet()
    ensures Quiet(HtmlClose, NoIx)
  {
    HtmlCloseOpens();
    HtmlCloseChars();
    PrefixChars();
    CleanTag(HtmlClose, TitlePattern.prefix, 1);
    CleanTag(HtmlClose, DescriptionPattern.prefix, 1);
    CleanTag(HtmlClose, OldPricePattern.prefix, 1);
    CleanTag(HtmlClose, PricePattern.prefix, 1);
    CleanTag(HtmlClose, DiscountPattern.prefix, 1);
    CleanTag(HtmlClose, ImagePattern.prefix, 1);
  }

  // ------------------------------------------------------------ the text

  lemma QuietConcatAll(except: int)
    ensures forall a, b {:trigger Quiet(a + b, except)} ::
      Quiet(a, except) && Quiet(b, except) ==> Quiet(a + b, except)
  {
    forall a, b | Quiet(a, except) && Quiet(b, except) ensures Quiet(a + b, except) {
      QuietConcat(a, b, except);
    }
  }

  lemma IndentsFree()
    ensures '<' !in "    " && '<' !in "            " && '<' !in "                    "
    ensures '<' !in "                        " && '<' !in "                            "
  {
  }

  lemma PunctuationFree()
    ensures '<' !in "\n" && '<' !in "\">\n" && '<' !in ".html\">\n" && '<' !in "%"
    ensures '<' !in "\" alt=\""
  {
  }

  lemma WordsFree()
    ensures '<' !in TitleSuffix && '<' !in Currency && '<' !in SiteBase
  {
  }

  lemma ImageTailFree()
    ensures '<' !in "\" class=\"product-image\" loading=\"lazy\">\n"
  {
  }

  lemma NumbersFree(n: nat, d: int)
    ensures '<' !in NatToString(n) && '<' !in Grouped(n) && '<' !in IntToString(d)
  {
    var s, g, i := NatToString(n), Grouped(n), IntToString(d);
    assert forall k :: 0 <= k < |s| ==> s[k] != '<';
    assert forall k :: 0 <= k < |g| ==> g[k] != '<';
    forall k | 0 <= k < |i| ensures i[k] != '<' {
      if d < 0 && k > 0 {
        assert i[k] == i[1..][k - 1];
      }
    }
  }

  // ------------------------------------------------------------ the lines

  lemma PreambleQuiet()
    ensures Quiet(Preamble, NoIx)
  {
    DoctypeTagQuiet();
    HtmlTagQuiet();
    HeadTagQuiet();
    QuietConcatAll(NoIx);
  }

  lemma TitleLineQuiet(title: string)
    requires '<' !in title
    ensures Quiet(TitleLine(title), TitleIx)
  {
    TitleOpenQuiet();
    TitleCloseQuiet();
    IndentsFree();
    PunctuationFree();
    WordsFree();
    QuietText("    ", TitleIx);
    QuietText(title, TitleIx);
    QuietText(TitleSuffix, TitleIx);
    QuietText("\n", TitleIx);
    QuietConcatAll(TitleIx);
  }

  lemma DescriptionLineQuiet(description: string)
    requires '<' !in description
    ensures Quiet(DescriptionLine(description), DescriptionIx)
  {
    DescriptionOpenQuiet();
    IndentsFree();
    PunctuationFree();
    QuietText("    ", DescriptionIx);
    QuietText(description, DescriptionIx);
    QuietText("\">\n", DescriptionIx);
    QuietConcatAll(DescriptionIx);
  }

  lemma CanonicalLineQuiet(slug: string)
    requires '<' !in slug
    ensures Quiet(CanonicalLine(slug), NoIx)
  {
    CanonicalOpenQuiet();
    IndentsFree();
    PunctuationFree();
    WordsFree();
    QuietText("    ", NoIx);
    QuietText(SiteBase, NoIx);
    QuietText(slug, NoIx);
    QuietText(".html\">\n", NoIx);
    QuietConcatAll(NoIx);
  }

  lemma OgUrlLineQuiet(slug: string)
    requires '<' !in slug
    ensures Quiet(OgUrlLine(slug), NoIx)
  {
    OgUrlOpenQuiet();
    IndentsFree();
    PunctuationFree();
    WordsFree();
    QuietText("    ", NoIx);
    QuietText(SiteBase, NoIx);
    QuietText(slug, NoIx);
    QuietText(".html\">\n", NoIx);
    QuietConcatAll(NoIx);
  }

  lemma OgPriceLineQuiet(sale: nat)
    ensures Quiet(OgPriceLine(sale), NoIx)
  {
    OgPriceOpenQuiet();
    IndentsFree();
    PunctuationFree();
    NumbersFree(sale, 0);
    QuietText("    ", NoIx);
    QuietText(NatToString(sale), NoIx);
    QuietText("\">\n", NoIx);
    QuietConcatAll(NoIx);
  }

  lemma JsonPunctuationFree()
    ensures '<' !in "\"" && '<' !in "\": \"" && '<' !in ",\n"
    ensures '<' !in "    {\n" && '<' !in JsonIndent && '<' !in OfferIndent
  {
  }

  lemma JsonFieldFree(indent: string, key: string, value: string)
    requires '<' !in indent && '<' !in key && '<' !in value
    ensures '<' !in JsonField(indent, key, value)
  {
    JsonPunctuationFree();
  }

  lemma JsonWordsFree()
    ensures '<' !in "@context" && '<' !in "https://schema.org/" && '<' !in "@type"
    ensures '<' !in "Product" && '<' !in "name" && '<' !in "image" && '<' !in "description"
    ensures '<' !in "Offer" && '<' !in "price" && '<' !in "priceCurrency" && '<' !in "IQD"
  {
  }

  lemma OfferLinesFree()
    ensures '<' !in "\"offers\": {\n" && '<' !in "\"availability\": "
    ensures '<' !in "\"https://schema.org/InStock\"\n"
    ensures '<' !in "      }\n" && '<' !in "    }\n"
  {
  }

  lemma JsonProductFree(title: string, image: string, description: string)
    requires '<' !in title && '<' !in image && '<' !in description
    ensures '<' !in JsonProduct(title, image, description)
  {
    JsonPunctuationFree();
    JsonWordsFree();
    JsonFieldFree(JsonIndent, "@context", "https://schema.org/");
    JsonFieldFree(JsonIndent, "@type", "Product");
    JsonFieldFree(JsonIndent, "name", title);
    JsonFieldFree(JsonIndent, "image", image);
    JsonFieldFree(JsonIndent, "description", description);
  }

  lemma JsonOfferFree(sale: nat)
    ensures '<' !in JsonOffer(sale)
  {
    JsonPunctuationFree();
    JsonWordsFree();
    OfferLinesFree();
    NumbersFree(sale, 0);
    JsonFieldFree(OfferIndent, "@type", "Offer");
    JsonFieldFree(OfferIndent, "price", NatToString(sale));
    JsonFieldFree(OfferIndent, "priceCurrency", "IQD");
  }

  lemma JsonLdFree(title: string, image: string, description: string, sale: nat)
    requires '<' !in title && '<' !in image && '<' !in description
    ensures '<' !in JsonLd(title, image, description, sale)
  {
    JsonProductFree(title, image, description);
    JsonOfferFree(sale);
  }

  lemma StructuredDataQuiet(title: string, image: string, description: string, sale: nat)
    requires '<' !in title && '<' !in image && '<' !in description
    ensures Quiet(StructuredData(title, image, description, sale), NoIx)
  {
    ScriptOpenQuiet();
    ScriptCloseQuiet();
    IndentsFree();
    JsonLdFree(title, image, description, sale);
    QuietText("    ", NoIx);
    QuietText(JsonLd(title, image, description, sale), NoIx);
    QuietConcatAll(NoIx);
  }

  lemma BodyStartQuiet()
    ensures Quiet(BodyStart, NoIx)
  {
    HeadCloseQuiet();
    BodyTagQuiet();
    QuietConcatAll(NoIx);
  }

  lemma HeadingLineQuiet(title: string)
    requires '<' !in title
    ensures Quiet(HeadingLine(title), NoIx)
  {
    HeadingOpenQuiet();
    HeadingCloseQuiet();
    IndentsFree();
    QuietText("            ", NoIx);
    QuietText(title, NoIx);
    QuietConcatAll(NoIx);
  }

  lemma ImageLineQuiet(image: string, title: string)
    requires '<' !in image && '<' !in title
    ensures Quiet(ImageLine(image, title), ImageIx)
  {
    ImageOpenQuiet();
    IndentsFree();
    PunctuationFree();
    ImageTailFree();
    var indent, alt, tail := "                    ", "\" alt=\"", "\" class=\"product-image\" loading=\"lazy\">\n";
    QuietText(indent, ImageIx);
    QuietText(image, ImageIx);
    QuietText(alt, ImageIx);
    QuietText(title, ImageIx);
    QuietText(tail, ImageIx);
    QuietConcat(indent, ImageOpen, ImageIx);
    QuietConcat(indent + ImageOpen, image, ImageIx);
    QuietConcat(indent + ImageOpen + image, alt, ImageIx);
    QuietConcat(indent + ImageOpen + image + alt, title, ImageIx);
    QuietConcat(indent + ImageOpen + image + alt + title, tail, ImageIx);
  }

  lemma BadgeLineQuiet(discount: int)
    ensures Quiet(BadgeLine(discount), DiscountIx)
  {
    BadgeOpenQuiet();
    SpanCloseQuiet();
    IndentsFree();
    PunctuationFree();
    NumbersFree(0, discount);
    var indent, number := "                            ", IntToString(discount);
    QuietText(indent, DiscountIx);
    QuietText(number, DiscountIx);
    QuietText("%", DiscountIx);
    QuietConcat(indent, BadgeOpen, DiscountIx);
    QuietConcat(indent + BadgeOpen, number, DiscountIx);
    QuietConcat(indent + BadgeOpen + number, "%", DiscountIx);
    QuietConcat(indent + BadgeOpen + number + "%", SpanClose, DiscountIx);
  }

  lemma OldPriceLineQuiet(price: nat)
    ensures Quiet(OldPriceLine(price), OldPriceIx)
  {
    OldPriceOpenQuiet();
    SpanCloseQuiet();
    IndentsFree();
    WordsFree();
    NumbersFree(price, 0);
    QuietText("                            ", OldPriceIx);
    QuietText(Grouped(price), OldPriceIx);
    QuietText(Currency, OldPriceIx);
    QuietConcatAll(OldPriceIx);
  }

  lemma NewPriceLineQuiet(sale: nat)
    ensures Quiet(NewPriceLine(sale), PriceIx)
  {
    NewPriceOpenQuiet();
    DivCloseQuiet();
    IndentsFree();
    WordsFree();
    NumbersFree(sale, 0);
    QuietText("                        ", PriceIx);
    QuietText(Grouped(sale), PriceIx);
    QuietText(Currency, PriceIx);
    QuietConcatAll(PriceIx);
  }

  lemma PageEndQuiet(p: Product)
    requires '<' !in FullDescription(p)
    ensures Quiet(PageEnd(p), NoIx)
  {
    ParagraphOpenQuiet();
    ParagraphCloseQuiet();
    BodyCloseQuiet();
    HtmlCloseQuiet();
    IndentsFree();
    QuietText("                        ", NoIx);
    QuietText(FullDescription(p), NoIx);
    QuietConcatAll(NoIx);
  }

  // ---------------------------------------------------------- the sections

  /**
   * A record whose page reads back: no `<` in its free text, so that none
   * of it can start a tag, and so none of the six patterns' prefixes.
   */
  predicate Admissible(p: Product) {
    '<' !in Title(p) && '<' !in FullDescription(p) && '<' !in ImageUrl(p) && '<' !in PageSlug(p)
  }

  lemma MetaFree(p: Product)
    ensures forall c :: c in MetaDescription(p) ==> c in FullDescription(p)
  {
    var m, f := MetaDescription(p), FullDescription(p);
    forall c | c in m ensures c in f {
      var i :| 0 <= i < |m| && m[i] == c;
      assert f[i] == m[i];
    }
  }

  lemma HeadClean(p: Product)
    requires '<' !in Title(p) && '<' !in FullDescription(p)
    ensures Clean(PageHead(p), OldPricePattern.prefix) && Clean(PageHead(p), PricePattern.prefix)
    ensures Clean(PageHead(p), DiscountPattern.prefix) && Clean(PageHead(p), ImagePattern.prefix)
  {
    MetaFree(p);
    PreambleQuiet();
    TitleLineQuiet(Title(p));
    DescriptionLineQuiet(MetaDescription(p));
    var t, d := TitleLine(Title(p)), DescriptionLine(MetaDescription(p));
    CleanConcat(t, d, OldPricePattern.prefix);
    CleanConcat(Preamble, t + d, OldPricePattern.prefix);
    CleanConcat(t, d, PricePattern.prefix);
    CleanConcat(Preamble, t + d, PricePattern.prefix);
    CleanConcat(t, d, DiscountPattern.prefix);
    CleanConcat(Preamble, t + d, DiscountPattern.prefix);
    CleanConcat(t, d, ImagePattern.prefix);
    CleanConcat(Preamble, t + d, ImagePattern.prefix);
  }

  lemma MiddleQuiet(p: Product)
    requires Admissible(p)
    ensures Quiet(PageMiddle(p), NoIx)
  {
    MetaFree(p);
    CanonicalLineQuiet(PageSlug(p));
    OgUrlLineQuiet(PageSlug(p));
    OgPriceLineQuiet(SalePrice(p));
    StructuredDataQuiet(Title(p), ImageUrl(p), MetaDescription(p), SalePrice(p));
    BodyStartQuiet();
    HeadingLineQuiet(Title(p));
    var c, u, o := CanonicalLine(PageSlug(p)), OgUrlLine(PageSlug(p)), OgPriceLine(SalePrice(p));
    var j, h := StructuredData(Title(p), ImageUrl(p), MetaDescription(p), SalePrice(p)), HeadingLine(Title(p));
    QuietConcat(c, u, NoIx);
    QuietConcat(c + u, o, NoIx);
    QuietConcat(c + u + o, j, NoIx);
    QuietConcat(c + u + o + j, BodyStart, NoIx);
    QuietConcat(c + u + o + j + BodyStart, h, NoIx);
  }

  // ------------------------------------------------------ regrouping a line

  lemma Regroup3(a: string, b: string, c: string, r: string)
    ensures (a + (b + c)) + r == a + (b + (c + r))
  {
  }

  lemma Regroup4(a: string, b: string, c: string, d: string, r: string)
    ensures a + b + c + d + r == a + (b + (c + (d + r)))
  {
  }

  lemma Regroup5(a: string, b: string, c: string, d: string, e: string, r: string)
    ensures a + b + c + d + e + r == a + (b + (c + ((d + e) + r)))
  {
  }

  lemma Regroup6(a: string, b: string, c: string, d: string, e: string, f: string, r: string)
    ensures a + b + c + d + e + f + r == a + (b + ((c + d) + ((e + f) + r)))
  {
  }

  lemma Regroup6Right(a: string, b: string, c: string, d: string, e: string, f: string, r: string)
    ensures a + b + c + d + e + f + r == a + (b + (c + (d + (e + (f + r)))))
  {
  }

  // ------------------------------------------------------- the anchored lines

  /** The title tag yields the title with the store name after it. */
  lemma SearchTitleLine(title: string, rest: string)
    requires '<' !in title
    ensures Search(TitlePattern, TitleLine(title) + rest) == Some(title + TitleSuffix)
  {
    Regroup6("    ", TitleOpen, title, TitleSuffix, TitleClose, "\n", rest);
    var after := (TitleClose + "\n") + rest;
    IndentsFree();
    WordsFree();
    TitlePrefixChars();
    CleanText("    ", TitlePattern.prefix);
    SearchSkip(TitlePattern, "    ", TitleOpen + ((title + TitleSuffix) + after));
    AllInAnyBut('<', title + TitleSuffix);
    StartsWithConcat(TitleClose, "\n");
    StartsWithLonger(TitleClose + "\n", rest, TitleClose);
    assert after[0] == TitleClose[0] == '<';
    MatchAnchor(TitlePattern, title + TitleSuffix, after);
  }

  /**
   * The description tag yields the description up to its first `"`: the
   * attribute is written unescaped, and `([^"]+)"` stops at that quote.
   */
  lemma SearchDescriptionLine(description: string, rest: string)
    requires BeforeFirst(description, '"') != []
    ensures Search(DescriptionPattern, DescriptionLine(description) + rest) == Some(BeforeFirst(description, '"'))
  {
    var c := BeforeFirst(description, '"');
    var t := description[|c|..];
    assert description == c + t;
    Regroup4("    ", DescriptionOpen, description, "\">\n", rest);
    var after := t + ("\">\n" + rest);
    assert description + ("\">\n" + rest) == c + after;
    IndentsFree();
    DescriptionPrefixChars();
    CleanText("    ", DescriptionPattern.prefix);
    SearchSkip(DescriptionPattern, "    ", DescriptionOpen + (c + after));
    AllInAnyBut('"', c);
    QuoteFirst(t, "\">\n" + rest);
    MatchAnchor(DescriptionPattern, c, after);
  }

  /** What follows the captured part of the description starts with its closing `"`. */
  lemma QuoteFirst(t: string, rest: string)
    requires t == [] || t[0] == '"'
    requires rest != [] && rest[0] == '"'
    ensures t + rest != [] && (t + rest)[0] == '"' && StartsWith(t + rest, "\"")
  {
    assert (t + rest)[..1] == ['"'];
  }

  /**
   * A description that is empty, or starts with `"`, gives the pattern
   * nothing to capture, and the tag is passed over.
   */
  lemma SearchEmptyDescriptionLine(description: string, rest: string)
    requires BeforeFirst(description, '"') == [] && '<' !in description
    requires Clean(rest, DescriptionPattern.prefix)
    ensures Search(DescriptionPattern, DescriptionLine(description) + rest).None?
  {
    Regroup4("    ", DescriptionOpen, description, "\">\n", rest);
    var after := description + ("\">\n" + rest);
    IndentsFree();
    PunctuationFree();
    DescriptionPrefixChars();
    DescriptionOpenOpens();
    var p := DescriptionPattern;
    CleanText("    ", p.prefix);
    SearchSkip(p, "    ", DescriptionOpen + after);
    QuoteFirst(description, "\">\n" + rest);
    EmptyCaptureSkipped(p, after);
    CleanText(DescriptionOpen[1..], p.prefix);
    SearchSkip(p, DescriptionOpen[1..], after);
    CleanText(description, p.prefix);
    SearchSkip(p, description, "\">\n" + rest);
    CleanText("\">\n", p.prefix);
    SearchSkip(p, "\">\n", rest);
    SearchCleanNone(p, rest);
  }

  /** Where the image line and the image pattern part: a space, where the pattern wants `>`. */
  lemma ImageTailChars()
    ensures |"\" class=\"product-image\" loading=\"lazy\">\n"| > 23
    ensures "\" class=\"product-image\" loading=\"lazy\">\n"[0] == '"'
    ensures "\" class=\"product-image\" loading=\"lazy\">\n"[23] == ' '
  {
  }

  lemma ImagePatternTail()
    ensures ImagePattern.tail[0] == Lit("\" alt=\"")
    ensures ImagePattern.tail[1..] == [Star(AnyBut('"')), Lit("\" class=\"product-image\">")]
    ensures ImagePattern.tail[2..] == [Lit("\" class=\"product-image\">")]
    ensures |"\" class=\"product-image\">"| == 24 && "\" class=\"product-image\">"[23] == '>'
  {
  }

  /** After a non-empty image the pattern wants the tag to end right after its class. */
  lemma ImageTailFails(image: string, title: string, rest: string)
    requires image != [] && '"' !in image && '"' !in title
    ensures MatchPrefix(ImagePattern, ImageOpen + (image + ("\" alt=\"" + (title
      + ("\" class=\"product-image\" loading=\"lazy\">\n" + rest))))).None?
  {
    var alt, tail := "\" alt=\"", "\" class=\"product-image\" loading=\"lazy\">\n";
    var closing := "\" class=\"product-image\">";
    var p := ImagePattern;
    var after := alt + (title + (tail + rest));
    var s := p.prefix + (image + after);
    ImageTailChars();
    ImagePatternTail();
    assert s[..|p.prefix|] == p.prefix;
    assert s[|p.prefix|..] == image + after;
    AllInAnyBut('"', image);
    RunLengthConcat(p.capture, image, after);
    assert (image + after)[|image|..] == after;
    StartsWithConcat(alt, title + (tail + rest));
    assert after[|alt|..] == title + (tail + rest);
    AllInAnyBut('"', title);
    RunLengthConcat(AnyBut('"'), title, tail + rest);
    assert (title + (tail + rest))[|title|..] == tail + rest;
    assert (tail + rest)[..|closing|][23] == tail[23];
    assert !StartsWith(tail + rest, closing);
  }

  /** The image line never yields an image: the pattern finds no match in it. */
  lemma SearchImageLine(image: string, title: string, rest: string)
    requires '"' !in image && '"' !in title && '<' !in image && '<' !in title
    requires Clean(rest, ImagePattern.prefix)
    ensures Search(ImagePattern, ImageLine(image, title) + rest).None?
  {
    var indent, alt, tail := "                    ", "\" alt=\"", "\" class=\"product-image\" loading=\"lazy\">\n";
    var p := ImagePattern;
    Regroup6Right(indent, ImageOpen, image, alt, title, tail, rest);
    IndentsFree();
    ImagePrefixChars();
    CleanText(indent, p.prefix);
    SearchSkip(p, indent, ImageOpen + (image + (alt + (title + (tail + rest)))));
    SearchImageFromOpen(image, title, rest);
  }

  /** At the tag's own opening the pattern fails, and so the search moves on by one. */
  lemma SearchImageFromOpen(image: string, title: string, rest: string)
    requires '"' !in image && '"' !in title && '<' !in image && '<' !in title
    requires Clean(rest, ImagePattern.prefix)
    ensures Search(ImagePattern, ImageOpen + (image + ("\" alt=\"" + (title
      + ("\" class=\"product-image\" loading=\"lazy\">\n" + rest))))).None?
  {
    var alt, tail := "\" alt=\"", "\" class=\"product-image\" loading=\"lazy\">\n";
    var p := ImagePattern;
    var after := alt + (title + (tail + rest));
    ImageTailChars();
    assert ImageOpen == p.prefix;
    if image == [] {
      assert image + after == after;
      EmptyCaptureSkipped(p, after);
    } else {
      ImageTailFails(image, title, rest);
      assert (ImageOpen + (image + after))[1..] == ImageOpen[1..] + (image + after);
    }
    SearchImageAfterOpen(image, title, rest);
  }

  /** Past the `<` of the image tag nothing can start the pattern. */
  lemma SearchImageAfterOpen(image: string, title: string, rest: string)
    requires '<' !in image && '<' !in title
    requires Clean(rest, ImagePattern.prefix)
    ensures Search(ImagePattern, ImageOpen[1..] + (image + ("\" alt=\"" + (title
      + ("\" class=\"product-image\" loading=\"lazy\">\n" + rest))))).None?
  {
    var alt, tail := "\" alt=\"", "\" class=\"product-image\" loading=\"lazy\">\n";
    var p := ImagePattern;
    PunctuationFree();
    ImageTailFree();
    ImagePrefixChars();
    ImageOpenOpens();
    CleanText(ImageOpen[1..], p.prefix);
    SearchSkip(p, ImageOpen[1..], image + (alt + (title + (tail + rest))));
    CleanText(image, p.prefix);
    SearchSkip(p, image, alt + (title + (tail + rest)));
    CleanText(alt, p.prefix);
    SearchSkip(p, alt, title + (tail + rest));
    CleanText(title, p.prefix);
    SearchSkip(p, title, tail + rest);
    CleanText(tail, p.prefix);
    SearchSkip(p, tail, rest);
    SearchCleanNone(p, rest);
  }

  /** A non-negative discount is read back from the badge. */
  lemma SearchBadgeLine(discount: int, rest: string)
    requires discount >= 0
    ensures Search(DiscountPattern, BadgeLine(discount) + rest) == Some(IntToString(discount))
  {
    var indent, number := "                            ", IntToString(discount);
    Regroup5(indent, BadgeOpen, number, "%", SpanClose, rest);
    var after := ("%" + SpanClose) + rest;
    IndentsFree();
    DiscountPrefixChars();
    CleanText(indent, DiscountPattern.prefix);
    SearchSkip(DiscountPattern, indent, BadgeOpen + (number + after));
    BadgeTail(rest);
    assert AllIn(Digit, number);
    MatchAnchor(DiscountPattern, number, after);
  }

  /** `%</span>` after the number of the badge. */
  lemma BadgeTail(rest: string)
    ensures (("%" + SpanClose) + rest)[0] == '%'
    ensures MatchTail(DiscountPattern.tail, ("%" + SpanClose) + rest)
  {
    assert StartsWith("%" + SpanClose, "%</span>");
    StartsWithLonger("%" + SpanClose, rest, "%</span>");
  }

  /** A negative discount starts with `-`, which `\d+` does not take. */
  lemma SearchNegativeBadgeLine(discount: int, rest: string)
    requires discount < 0 && Clean(rest, DiscountPattern.prefix)
    ensures Search(DiscountPattern, BadgeLine(discount) + rest).None?
  {
    var indent, number := "                            ", IntToString(discount);
    var p := DiscountPattern;
    Regroup5(indent, BadgeOpen, number, "%", SpanClose, rest);
    var after := ("%" + SpanClose) + rest;
    IndentsFree();
    PunctuationFree();
    NumbersFree(0, discount);
    DiscountPrefixChars();
    BadgeOpenOpens();
    SpanCloseQuiet();
    CleanText(indent, p.prefix);
    SearchSkip(p, indent, BadgeOpen + (number + after));
    EmptyCaptureSkipped(p, number + after);
    CleanText(BadgeOpen[1..], p.prefix);
    SearchSkip(p, BadgeOpen[1..], number + after);
    CleanText(number, p.prefix);
    SearchSkip(p, number, after);
    CleanText("%", p.prefix);
    CleanConcat("%", SpanClose, p.prefix);
    SearchSkip(p, "%" + SpanClose, rest);
    SearchCleanNone(p, rest);
  }

  /** `\s*د\.ع</span>` after the visible list price. */
  lemma OldPriceTail(rest: string)
    ensures MatchTail(OldPricePattern.tail, (Currency + SpanClose) + rest)
  {
    var x := (Currency + SpanClose) + rest;
    assert StartsWith(Currency + SpanClose, " د.ع</span>");
    StartsWithLonger(Currency + SpanClose, rest, " د.ع</span>");
    assert x[0] == ' ' && x[1..][0] == x[1] == 'د';
    assert x[1..][..10] == x[1..11] == " د.ع</span>"[1..];
    assert OldPricePattern.tail[1..] == [Lit("د.ع</span>")];
  }

  /** `\s*د\.ع</div>` after the visible sale price. */
  lemma PriceTail(rest: string)
    ensures MatchTail(PricePattern.tail, (Currency + DivClose) + rest)
  {
    var x := (Currency + DivClose) + rest;
    assert StartsWith(Currency + DivClose, " د.ع</div>");
    StartsWithLonger(Currency + DivClose, rest, " د.ع</div>");
    assert x[0] == ' ' && x[1..][0] == x[1] == 'د';
    assert x[1..][..9] == x[1..10] == " د.ع</div>"[1..];
    assert PricePattern.tail[1..] == [Lit("د.ع</div>")];
  }

  /** The visible list price is read back in its grouped form. */
  lemma SearchOldPriceLine(price: nat, rest: string)
    ensures Search(OldPricePattern, OldPriceLine(price) + rest) == Some(Grouped(price))
  {
    var indent := "                            ";
    Regroup5(indent, OldPriceOpen, Grouped(price), Currency, SpanClose, rest);
    IndentsFree();
    OldPricePrefixChars();
    CleanText(indent, OldPricePattern.prefix);
    SearchSkip(OldPricePattern, indent, OldPriceOpen + (Grouped(price) + ((Currency + SpanClose) + rest)));
    OldPriceTail(rest);
    MatchAnchor(OldPricePattern, Grouped(price), (Currency + SpanClose) + rest);
  }

  /** The visible sale price is read back in its grouped form. */
  lemma SearchNewPriceLine(sale: nat, rest: string)
    ensures Search(PricePattern, NewPriceLine(sale) + rest) == Some(Grouped(sale))
  {
    var indent := "                        ";
    Regroup5(indent, NewPriceOpen, Grouped(sale), Currency, DivClose, rest);
    IndentsFree();
    PricePrefixChars();
    CleanText(indent, PricePattern.prefix);
    SearchSkip(PricePattern, indent, NewPriceOpen + (Grouped(sale) + ((Currency + DivClose) + rest)));
    PriceTail(rest);
    MatchAnchor(PricePattern, Grouped(sale), (Currency + DivClose) + rest);
  }

  // -------------------------------------------------------- the whole page

  /** The page's lines after the head, right-nested as `Page` builds them. */
  function Body(p: Product): string {
    PageMiddle(p) + (ImageLine(ImageUrl(p), Title(p)) + (BadgeLine(Discount(p))
    + (OldPriceLine(ListPrice(p)) + (NewPriceLine(SalePrice(p)) + PageEnd(p)))))
  }

  lemma PageSplit(p: Product)
    ensures Page(p) == PageHead(p) + Body(p)
    ensures Page(p) == Preamble + (TitleLine(Title(p)) + (DescriptionLine(MetaDescription(p)) + Body(p)))
  {
    PageIsHeadBody(p);
    HeadRegroup(Page(p), PageHead(p), Preamble, TitleLine(Title(p)), DescriptionLine(MetaDescription(p)), Body(p));
  }

  lemma PageIsHeadBody(p: Product)
    ensures Page(p) == PageHead(p) + Body(p)
    ensures PageHead(p) == Preamble + (TitleLine(Title(p)) + DescriptionLine(MetaDescription(p)))
  {
  }

  lemma HeadRegroup(page: string, h: string, a: string, b: string, c: string, r: string)
    requires page == h + r && h == a + (b + c)
    ensures page == a + (b + (c + r))
  {
  }

  /** The first `<title>` of the page is its title tag. */
  lemma SearchTitlePage(p: Product)
    requires '<' !in Title(p)
    ensures Search(TitlePattern, Page(p)) == Some(Title(p) + TitleSuffix)
  {
    PageSplit(p);
    PreambleQuiet();
    var rest := DescriptionLine(MetaDescription(p)) + Body(p);
    SearchSkip(TitlePattern, Preamble, TitleLine(Title(p)) + rest);
    SearchTitleLine(Title(p), rest);
  }

  /**
   * What the description pattern can read of the shown description: the
   * part before its first `"`, since the generator writes the attribute
   * unescaped and the pattern's group stops at a quote.
   */
  function DescriptionUpToQuote(p: Product): string {
    BeforeFirst(MetaDescription(p), '"')
  }

  /** Without a `"` in the description, the whole shown description is read. */
  lemma DescriptionQuoteFree(p: Product)
    requires '"' !in FullDescription(p)
    ensures DescriptionUpToQuote(p) == MetaDescription(p)
  {
    MetaFree(p);
  }

  /**
   * The description search finds the shown description up to its first
   * `"`, or nothing when that part is empty.
   */
  lemma SearchDescriptionPage(p: Product)
    requires Admissible(p)
    ensures DescriptionUpToQuote(p) != [] ==> Search(DescriptionPattern, Page(p)) == Some(DescriptionUpToQuote(p))
    ensures DescriptionUpToQuote(p) == [] ==> Search(DescriptionPattern, Page(p)).None?
  {
    PageSplit(p);
    DescriptionReadyPage(p);
    SearchDescriptionAfter(Preamble, TitleLine(Title(p)), MetaDescription(p), Body(p));
  }

  /** No description prefix in the text around the description line, and no `<` in the description. */
  ghost predicate DescriptionReady(pre: string, t: string, m: string, body: string) {
    Clean(pre, DescriptionPattern.prefix) && Clean(t, DescriptionPattern.prefix)
    && '<' !in m && (BeforeFirst(m, '"') == [] ==> Clean(body, DescriptionPattern.prefix))
  }

  lemma DescriptionReadyPage(p: Product)
    requires Admissible(p)
    ensures DescriptionReady(Preamble, TitleLine(Title(p)), MetaDescription(p), Body(p))
  {
    MetaFree(p);
    PreambleQuiet();
    TitleLineQuiet(Title(p));
    if DescriptionUpToQuote(p) == [] {
      BodyClean(p);
    }
  }

  /** The description search over text that cannot start the pattern before the description line. */
  lemma SearchDescriptionAfter(pre: string, t: string, m: string, body: string)
    requires DescriptionReady(pre, t, m, body)
    ensures BeforeFirst(m, '"') != [] ==> Search(DescriptionPattern, pre + (t + (DescriptionLine(m) + body))) == Some(BeforeFirst(m, '"'))
    ensures BeforeFirst(m, '"') == [] ==> Search(DescriptionPattern, pre + (t + (DescriptionLine(m) + body))).None?
  {
    var d := DescriptionPattern;
    SearchSkip(d, pre, t + (DescriptionLine(m) + body));
    SearchSkip(d, t, DescriptionLine(m) + body);
    if BeforeFirst(m, '"') != [] {
      SearchDescriptionLine(m, body);
    } else {
      SearchEmptyDescriptionLine(m, body);
    }
  }

  lemma BodyClean(p: Product)
    requires Admissible(p)
    ensures Clean(Body(p), DescriptionPattern.prefix)
  {
    MiddleQuiet(p);
    ImageLineQuiet(ImageUrl(p), Title(p));
    BadgeLineQuiet(Discount(p));
    OldPriceLineQuiet(ListPrice(p));
    NewPriceLineQuiet(SalePrice(p));
    PageEndQuiet(p);
    var d := DescriptionPattern.prefix;
    var n, o, b, i := NewPriceLine(SalePrice(p)), OldPriceLine(ListPrice(p)), BadgeLine(Discount(p)), ImageLine(ImageUrl(p), Title(p));
    CleanConcat(n, PageEnd(p), d);
    CleanConcat(o, n + PageEnd(p), d);
    CleanConcat(b, o + (n + PageEnd(p)), d);
    CleanConcat(i, b + (o + (n + PageEnd(p))), d);
    CleanConcat(PageMiddle(p), i + (b + (o + (n + PageEnd(p)))), d);
  }

  /** The lines from the image on, read by the patterns of the lower part of the page. */
  lemma SkipToImage(p: Product, q: Pattern)
    requires Admissible(p)
    requires IsLowerPrefix(q.prefix)
    ensures Search(q, Page(p)) == Search(q, ImageLine(ImageUrl(p), Title(p)) + (BadgeLine(Discount(p))
      + (OldPriceLine(ListPrice(p)) + (NewPriceLine(SalePrice(p)) + PageEnd(p)))))
  {
    PageSplit(p);
    HeadClean(p);
    MiddleQuiet(p);
    var rest := ImageLine(ImageUrl(p), Title(p)) + (BadgeLine(Discount(p))
      + (OldPriceLine(ListPrice(p)) + (NewPriceLine(SalePrice(p)) + PageEnd(p))));
    LowerPrefix(PageHead(p), q.prefix);
    QuietLowerPrefix(PageMiddle(p), q.prefix);
    SkipTwo(q, PageHead(p), PageMiddle(p), rest);
  }

  /** The anchors of the lines from the image on. */
  ghost predicate IsLowerPrefix(x: string) {
    x in {OldPricePattern.prefix, PricePattern.prefix, DiscountPattern.prefix, ImagePattern.prefix}
  }

  lemma LowerPrefix(s: string, x: string)
    requires Clean(s, OldPricePattern.prefix) && Clean(s, PricePattern.prefix)
    requires Clean(s, DiscountPattern.prefix) && Clean(s, ImagePattern.prefix)
    requires IsLowerPrefix(x)
    ensures Clean(s, x)
  {
  }

  lemma QuietLowerPrefix(s: string, x: string)
    requires Quiet(s, NoIx) && IsLowerPrefix(x)
    ensures Clean(s, x)
  {
  }

  lemma SkipTwo(q: Pattern, a: string, b: string, rest: string)
    requires Clean(a, q.prefix) && Clean(b, q.prefix)
    ensures Search(q, a + (b + rest)) == Search(q, rest)
  {
    SearchSkip(q, a, b + rest);
    SearchSkip(q, b, rest);
  }

  /**
   * The image pattern matches nowhere in the page, when neither the image
   * URL nor the title holds a `"` (one there could close the `src` or the
   * `alt` attribute early and so complete the pattern).
   */
  lemma SearchImagePage(p: Product)
    requires Admissible(p) && '"' !in ImageUrl(p) && '"' !in Title(p)
    ensures Search(ImagePattern, Page(p)).None?
  {
    SkipToImage(p, ImagePattern);
    BadgeLineQuiet(Discount(p));
    OldPriceLineQuiet(ListPrice(p));
    NewPriceLineQuiet(SalePrice(p));
    PageEndQuiet(p);
    var q := ImagePattern.prefix;
    var n, o, b := NewPriceLine(SalePrice(p)), OldPriceLine(ListPrice(p)), BadgeLine(Discount(p));
    CleanConcat(n, PageEnd(p), q);
    CleanConcat(o, n + PageEnd(p), q);
    CleanConcat(b, o + (n + PageEnd(p)), q);
    SearchImageLine(ImageUrl(p), Title(p), b + (o + (n + PageEnd(p))));
  }

  /** The badge is read back when the discount is not negative. */
  lemma SearchDiscountPage(p: Product)
    requires Admissible(p)
    ensures Discount(p) >= 0 ==> Search(DiscountPattern, Page(p)) == Some(IntToString(Discount(p)))
    ensures Discount(p) < 0 ==> Search(DiscountPattern, Page(p)).None?
  {
    SkipToImage(p, DiscountPattern);
    ImageLineQuiet(ImageUrl(p), Title(p));
    var q := DiscountPattern;
    var n, o, b := NewPriceLine(SalePrice(p)), OldPriceLine(ListPrice(p)), BadgeLine(Discount(p));
    SearchSkip(q, ImageLine(ImageUrl(p), Title(p)), b + (o + (n + PageEnd(p))));
    if Discount(p) >= 0 {
      SearchBadgeLine(Discount(p), o + (n + PageEnd(p)));
    } else {
      OldPriceLineQuiet(ListPrice(p));
      NewPriceLineQuiet(SalePrice(p));
      PageEndQuiet(p);
      CleanConcat(n, PageEnd(p), q.prefix);
      CleanConcat(o, n + PageEnd(p), q.prefix);
      SearchNegativeBadgeLine(Discount(p), o + (n + PageEnd(p)));
    }
  }

  /** The visible list price is the first match of the old-price pattern. */
  lemma SearchOldPricePage(p: Product)
    requires Admissible(p)
    ensures Search(OldPricePattern, Page(p)) == Some(Grouped(ListPrice(p)))
  {
    SkipToImage(p, OldPricePattern);
    ImageLineQuiet(ImageUrl(p), Title(p));
    BadgeLineQuiet(Discount(p));
    var q := OldPricePattern;
    var n, o, b := NewPriceLine(SalePrice(p)), OldPriceLine(ListPrice(p)), BadgeLine(Discount(p));
    SearchSkip(q, ImageLine(ImageUrl(p), Title(p)), b + (o + (n + PageEnd(p))));
    SearchSkip(q, b, o + (n + PageEnd(p)));
    SearchOldPriceLine(ListPrice(p), n + PageEnd(p));
  }

  /** The visible sale price is the first match of the price pattern. */
  lemma SearchPricePage(p: Product)
    requires Admissible(p)
    ensures Search(PricePattern, Page(p)) == Some(Grouped(SalePrice(p)))
  {
    SkipToImage(p, PricePattern);
    ImageLineQuiet(ImageUrl(p), Title(p));
    BadgeLineQuiet(Discount(p));
    OldPriceLineQuiet(ListPrice(p));
    var q := PricePattern;
    var n, o, b := NewPriceLine(SalePrice(p)), OldPriceLine(ListPrice(p)), BadgeLine(Discount(p));
    SearchSkip(q, ImageLine(ImageUrl(p), Title(p)), b + (o + (n + PageEnd(p))));
    SearchSkip(q, b, o + (n + PageEnd(p)));
    SearchSkip(q, o, n + PageEnd(p));
    SearchNewPriceLine(SalePrice(p), PageEnd(p));
  }
}
