/**
 * The content step of `add_schema_to_file` and the batch loop of `main`:
 * a page that already carries the marker is skipped; otherwise the block
 * is inserted before every `</head>`. The product directory is a sequence
 * of files, each read successfully or not.
 */
module Patcher {
  import opened Wrappers
  import opened Text
  import opened Extractor
  import opened Schema

  const HeadClose := "</head>"

  /** The page after the step, and the step's return value ("updated"). */
  datatype Outcome = Outcome(content: string, updated: bool)

  /** What replaces each `</head>`: the block, a newline, and `</head>` again. */
  function Insertion(schema: string): (r: string)
    ensures Contains(schema, Marker) ==> Contains(r, Marker)
  {
    if Contains(schema, Marker) then
      ContainsLeft(schema, "\n" + HeadClose, Marker);
      schema + ("\n" + HeadClose)
    else
      schema + ("\n" + HeadClose)
  }

  /** `content.replace('</head>', schema + '\n</head>')`. */
  function Splice(content: string, schema: string): (r: string)
    requires Contains(schema, Marker)
    ensures !Contains(content, HeadClose) ==> r == content
    ensures Contains(content, HeadClose) ==> Contains(r, Marker)
  {
    var patched := Replace(content, HeadClose, Insertion(schema));
    if Contains(content, HeadClose) then
      ReplacePresent(content, HeadClose, Insertion(schema));
      ContainsTrans(patched, Insertion(schema), Marker);
      patched
    else
      ReplaceAbsent(content, HeadClose, Insertion(schema));
      patched
  }

  /**
   * `add_schema_to_file` on the text of one page. A failure while building
   * the block (`int(discount)` raising) is caught and reported as not
   * updated, leaving the page as it was; a page without `</head>` is
   * reported updated although nothing changed.
   */
  function AddSchema(content: string, filename: string): (r: Outcome)
    ensures Contains(content, Marker) ==> r == Outcome(content, false)
    ensures r.updated <==>
      !Contains(content, Marker) && GenerateSchema(ExtractProductInfo(content), filename).Some?
    ensures !r.updated ==> r.content == content
    ensures !Contains(content, HeadClose) ==> r.content == content
    ensures r.updated && Contains(content, HeadClose) ==> Contains(r.content, Marker)
  {
    if Contains(content, Marker) then
      Outcome(content, false)
    else
      match GenerateSchema(ExtractProductInfo(content), filename)
      case None => Outcome(content, false)
      case Some(schema) => Outcome(Splice(content, schema), true)
  }

  /** On a page the extractor can read, the step fails only by skipping: it updates exactly when the marker is absent. */
  lemma UpdatedUnlessMarked(content: string, filename: string)
    ensures AddSchema(content, filename).updated <==> !Contains(content, Marker)
  {
    ExtractedNeverFails(content, filename);
  }

  /**
   * Running the step on its own output changes nothing more; the second
   * run reports "updated" exactly when the first did and found no `</head>`.
   */
  lemma AddSchemaIdempotent(content: string, filename: string)
    ensures var first := AddSchema(content, filename);
      && AddSchema(first.content, filename).content == first.content
      && (AddSchema(first.content, filename).updated <==> first.updated && !Contains(content, HeadClose))
  {
  }

  // ------------------------------------------------------------ the batch

  /** A file of the product directory; `None` when reading it fails. */
  datatype File = File(name: string, content: Option<string>)

  predicate EndsWith(s: string, suffix: string) {
    |suffix| <= |s| && s[|s| - |suffix|..] == suffix
  }

  /** Matched by `*.html` and not the index page. */
  predicate IsProductPage(name: string) {
    EndsWith(name, ".html") && name != "index.html"
  }

  /** The files the batch visits, in directory order. */
  function ProductPages(dir: seq<File>): (pages: seq<File>)
    ensures |pages| <= |dir|
    ensures forall f :: f in pages <==> f in dir && IsProductPage(f.name)
  {
    if dir == [] then []
    else (if IsProductPage(dir[0].name) then [dir[0]] else []) + ProductPages(dir[1..])
  }

  /** The step succeeds on the file and reports it updated. */
  predicate Updated(f: File) {
    f.content.Some? && AddSchema(f.content.value, f.name).updated
  }

  /** The file after its turn in the batch; an unreadable file is left alone. */
  function Processed(f: File): (r: File)
    ensures r.name == f.name
    ensures r.content.Some? <==> f.content.Some?
  {
    match f.content
    case None => f
    case Some(c) => File(f.name, Some(AddSchema(c, f.name).content))
  }

  /** A file the batch does not report updated is left as it was. */
  lemma SkippedUnchanged(f: File)
    ensures !Updated(f) ==> Processed(f) == f
  {
  }

  /** The batch's pages after their turns. */
  function ProcessedAll(fs: seq<File>): (r: seq<File>)
    ensures |r| == |fs|
    ensures forall i :: 0 <= i < |fs| ==> r[i] == Processed(fs[i])
    decreases |fs|
  {
    if fs == [] then [] else ProcessedAll(fs[..|fs| - 1]) + [Processed(fs[|fs| - 1])]
  }

  /** The number of files the batch reports updated. */
  function CountUpdated(fs: seq<File>): (n: nat)
    ensures n <= |fs|
    decreases |fs|
  {
    if fs == [] then 0
    else CountUpdated(fs[..|fs| - 1]) + (if Updated(fs[|fs| - 1]) then 1 else 0)
  }

  /** Processing one more file of a batch. */
  lemma ProcessedAllStep(fs: seq<File>, i: int)
    requires 0 <= i < |fs|
    ensures ProcessedAll(fs[..i + 1]) == ProcessedAll(fs[..i]) + [Processed(fs[i])]
  {
    assert fs[..i + 1][..i] == fs[..i];
  }

  /** Counting one more file of a batch. */
  lemma CountUpdatedStep(fs: seq<File>, i: int)
    requires 0 <= i < |fs|
    ensures CountUpdated(fs[..i + 1]) == CountUpdated(fs[..i]) + (if Updated(fs[i]) then 1 else 0)
  {
    assert fs[..i + 1][..i] == fs[..i];
  }

  /** One more turn of the batch loop, in terms of the step's report `ok` on that page. */
  lemma BatchStep(fs: seq<File>, i: int, ok: bool)
    requires 0 <= i < |fs| && ok == Updated(fs[i])
    ensures ProcessedAll(fs[..i + 1]) == ProcessedAll(fs[..i]) + [Processed(fs[i])]
    ensures CountUpdated(fs[..i + 1]) == CountUpdated(fs[..i]) + (if ok then 1 else 0)
  {
    ProcessedAllStep(fs, i);
    CountUpdatedStep(fs, i);
  }

  /** A batch of pages none of which the step updates counts nothing. */
  lemma {:induction false} CountUpdatedNone(fs: seq<File>)
    requires forall i :: 0 <= i < |fs| ==> !Updated(fs[i])
    ensures CountUpdated(fs) == 0
    decreases |fs|
  {
    if fs != [] {
      CountUpdatedNone(fs[..|fs| - 1]);
    }
  }

  /** A second batch over the first one's output leaves every page as it is. */
  lemma BatchIdempotent(fs: seq<File>)
    ensures forall i :: 0 <= i < |fs| ==> Processed(Processed(fs[i])) == Processed(fs[i])
  {
    forall i | 0 <= i < |fs| ensures Processed(Processed(fs[i])) == Processed(fs[i]) {
      if fs[i].content.Some? {
        AddSchemaIdempotent(fs[i].content.value, fs[i].name);
      }
    }
  }

  /**
   * `add_schema_to_file(filepath)` on one file of the directory: a file
   * that cannot be read counts as not updated.
   */
  method VisitPage(f: File) returns (page: File, updated: bool)
    ensures page == Processed(f) && updated == Updated(f)
  {
    page, updated := f, false;
    if f.content.Some? {
      var outcome := AddSchema(f.content.value, f.name);
      page, updated := File(f.name, Some(outcome.content)), outcome.updated;
    }
  }

  /** One turn of `main`'s loop: page `i` is visited and the matching counter goes up. */
  method Turn(pages: seq<File>, i: nat, result: seq<File>, updated: nat, skipped: nat)
    returns (result': seq<File>, updated': nat, skipped': nat)
    requires i < |pages|
    requires result == ProcessedAll(pages[..i]) && updated == CountUpdated(pages[..i])
    requires updated + skipped == i
    ensures result' == ProcessedAll(pages[..i + 1]) && updated' == CountUpdated(pages[..i + 1])
    ensures updated' + skipped' == i + 1
  {
    var page, ok := VisitPage(pages[i]);
    BatchStep(pages, i, ok);
    updated', skipped' := updated, skipped;
    if ok {
      updated' := updated + 1;
    } else {
      skipped' := skipped + 1;
    }
    result' := result + [page];
  }

  /**
   * `main`'s loop over the product pages. Returns the pages as they are
   * afterwards and the two counters.
   */
  method FixSchemas(dir: seq<File>) returns (result: seq<File>, updated: nat, skipped: nat)
    ensures var pages := ProductPages(dir);
      && result == ProcessedAll(pages)
      && updated == CountUpdated(pages)
      && updated + skipped == |pages|
  {
    var pages := ProductPages(dir);
    result, updated, skipped := [], 0, 0;
    var i := 0;
    while i < |pages|
      invariant 0 <= i <= |pages|
      invariant result == ProcessedAll(pages[..i])
      invariant updated == CountUpdated(pages[..i])
      invariant updated + skipped == i
    {
      result, updated, skipped := Turn(pages, i, result, updated, skipped);
      i := i + 1;
    }
    assert pages[..i] == pages;
  }
}
