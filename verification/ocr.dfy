/**
 * The extraction decisions of ocr_utils.py: the pre-check that flags a PDF as
 * image-based, the choice between the native text layer and OCR, and the
 * page-by-page OCR that joins its pages with a blank line.
 *
 * PyMuPDF, the page rendering, the OpenCV pre-processing and Tesseract are
 * not modelled as code: a document is the outcome of opening it, and each
 * page carries what its text layer and its OCR give, or `None` where that
 * step raises. Whether Tesseract was found at start-up is the parameter
 * `tesseract`.
 */
module Ocr {
  import opened Text

  /** A readable PDF whose pages hold fewer characters than this needs OCR. */
  const OCR_BELOW := 150
  /** Native text is used when its stripped length exceeds this. */
  const NATIVE_ABOVE := 50
  /** What `extract_text_with_ocr` puts between two pages. */
  const PAGE_BREAK := "\n\n"

  /** A page: what `page.get_text()` returns and what rendering, thresholding
      and `image_to_string` return, each `None` when that step raises. */
  datatype Page = Page(native: Option<string>, ocr: Option<string>)

  /** The outcome of `fitz.open`: an error, or an open document with its
      `is_pdf` and `is_encrypted` flags and its pages in order. */
  datatype Document = Unopenable | Document(isPdf: bool, encrypted: bool, pages: seq<Page>)

  /** The text layers of the pages, in page order. */
  function NativeLayer(pages: seq<Page>): seq<Option<string>>
  {
    seq(|pages|, i requires 0 <= i < |pages| => pages[i].native)
  }

  /** The OCR outputs of the pages, in page order. */
  function OcrLayer(pages: seq<Page>): seq<Option<string>>
  {
    seq(|pages|, i requires 0 <= i < |pages| => pages[i].ocr)
  }

  /** The results of a step run on every page in turn: all of them, or `None`
      as soon as one of them raises. */
  function Collect(xs: seq<Option<string>>): Option<seq<string>>
  {
    if xs == [] then Some([])
    else
      match Collect(xs[..|xs| - 1])
      case None => None
      case Some(init) =>
        match xs[|xs| - 1]
        case None => None
        case Some(x) => Some(init + [x])
  }

  /** Collecting succeeds exactly when every step did, and then holds every
      step's result in order. */
  lemma {:induction false} CollectIff(xs: seq<Option<string>>)
    ensures Collect(xs).Some? <==> forall i :: 0 <= i < |xs| ==> xs[i].Some?
    ensures Collect(xs).Some? ==>
              |Collect(xs).value| == |xs| && forall i :: 0 <= i < |xs| ==> Collect(xs).value[i] == xs[i].value
  {
    if xs != [] {
      var init := xs[..|xs| - 1];
      CollectIff(init);
      assert forall i :: 0 <= i < |init| ==> init[i] == xs[i];
    }
  }

  /** `"".join(page.get_text() for page in doc)`, or `None` when opening or
      reading a page raises. */
  function NativeText(doc: Document): Option<string>
  {
    if doc.Unopenable? then None
    else
      match Collect(NativeLayer(doc.pages))
      case None => None
      case Some(ts) => Some(Join("", ts))
  }

  /** `sum(len(t) for t in ts)`. */
  function TotalLength(ts: seq<string>): nat
  {
    if ts == [] then 0 else |ts[0]| + TotalLength(ts[1..])
  }

  /** Summing the page lengths measures the concatenated text. */
  lemma {:induction false} TotalLengthOfJoin(ts: seq<string>)
    ensures TotalLength(ts) == |Join("", ts)|
  {
    if |ts| > 1 {
      TotalLengthOfJoin(ts[1..]);
    }
  }

  /** `_is_ocr_needed`. */
  function IsOcrNeeded(doc: Document): bool
  {
    match doc
    case Unopenable => true
    case Document(isPdf, encrypted, pages) =>
      if !isPdf || encrypted then false
      else
        match Collect(NativeLayer(pages))
        case None => true
        case Some(ts) => TotalLength(ts) < OCR_BELOW
  }

  /** An unopenable or unreadable document needs OCR, a document that is not
      a PDF or is encrypted does not, and a readable PDF does exactly when
      its text layer has fewer than 150 characters. */
  lemma OcrNeededIff(doc: Document)
    ensures doc.Unopenable? ==> IsOcrNeeded(doc)
    ensures doc.Document? && (!doc.isPdf || doc.encrypted) ==> !IsOcrNeeded(doc)
    ensures doc.Document? && doc.isPdf && !doc.encrypted ==>
              (IsOcrNeeded(doc) <==> NativeText(doc).None? || |NativeText(doc).value| < OCR_BELOW)
  {
    if doc.Document? && Collect(NativeLayer(doc.pages)).Some? {
      TotalLengthOfJoin(Collect(NativeLayer(doc.pages)).value);
    }
  }

  /** What `extract_text_with_ocr` returns: nothing without Tesseract, for a
      document that will not open, or when any page fails; otherwise every
      page's OCR output in page order, a blank line between two pages. */
  function OcrText(doc: Document, tesseract: bool): string
  {
    if !tesseract || doc.Unopenable? then []
    else
      match Collect(OcrLayer(doc.pages))
      case None => []
      case Some(os) => Join(PAGE_BREAK, os)
  }

  /** No partial OCR text: a non-empty result means every page was read,
      and when every page is read the result joins their outputs in order. */
  lemma OcrTextWhole(doc: Document, tesseract: bool)
    ensures OcrText(doc, tesseract) != [] ==>
              tesseract && doc.Document? && forall i :: 0 <= i < |doc.pages| ==> doc.pages[i].ocr.Some?
    ensures tesseract && doc.Document? && (forall i :: 0 <= i < |doc.pages| ==> doc.pages[i].ocr.Some?) ==>
              exists os :: PagesRead(doc.pages, os) && OcrText(doc, tesseract) == Join(PAGE_BREAK, os)
  {
    if tesseract && doc.Document? {
      var layer := OcrLayer(doc.pages);
      CollectIff(layer);
      if Collect(layer).Some? {
        assert PagesRead(doc.pages, Collect(layer).value);
      }
    }
  }

  /** `os` holds the OCR output of each page, in page order. */
  ghost predicate PagesRead(pages: seq<Page>, os: seq<string>)
  {
    |os| == |pages| && forall i :: 0 <= i < |pages| ==> pages[i].ocr == Some(os[i])
  }

  /** `extract_text_with_ocr`: OCR every page in order, collecting the outputs;
      the first failure abandons the pages read so far. */
  method ExtractTextWithOcr(doc: Document, tesseract: bool) returns (text: string)
    ensures text == OcrText(doc, tesseract)
  {
    if !tesseract {
      return [];
    }
    if doc.Unopenable? {
      return [];
    }
    var allText: seq<string> := [];
    for n := 0 to |doc.pages|
      invariant Collect(OcrLayer(doc.pages)[..n]) == Some(allText)
    {
      assert OcrLayer(doc.pages)[..n + 1][..n] == OcrLayer(doc.pages)[..n];
      match doc.pages[n].ocr
      case None =>
        CollectIff(OcrLayer(doc.pages));
        assert OcrLayer(doc.pages)[n].None?;
        return [];
      case Some(pageText) =>
        allText := allText + [pageText];
    }
    assert OcrLayer(doc.pages)[..|doc.pages|] == OcrLayer(doc.pages);
    text := Join(PAGE_BREAK, allText);
  }

  /** `extract_text_from_pdf`: the native text when it holds more than 50
      characters once stripped, else the OCR text (empty without Tesseract);
      empty when the document cannot be opened or read. */
  function ExtractTextFromPdf(doc: Document, tesseract: bool): string
  {
    match NativeText(doc)
    case None => []
    case Some(text) =>
      if text != [] && |Strip(text)| > NATIVE_ABOVE then text
      else if tesseract then OcrText(doc, tesseract)
      else []
  }

  /** Unreadable documents give nothing; the text layer is returned as it is
      when more than 50 characters are left once it is stripped, and the OCR
      text otherwise, which is empty without Tesseract. */
  lemma ExtractionCases(doc: Document, tesseract: bool)
    ensures var r := ExtractTextFromPdf(doc, tesseract);
      (NativeText(doc).None? ==> r == [])
      && (NativeText(doc).Some? && |Strip(NativeText(doc).value)| > NATIVE_ABOVE ==> r == NativeText(doc).value)
      && (NativeText(doc).Some? && |Strip(NativeText(doc).value)| <= NATIVE_ABOVE ==> r == OcrText(doc, tesseract))
      && (!tesseract ==> r == [] || |Strip(r)| > NATIVE_ABOVE)
  {
  }

  /** Nothing partial comes out of extraction: a non-empty result is either
      the whole text layer, long enough to be trusted, or the OCR of every
      page of a document whose text layer was too short. */
  lemma ExtractedWhole(doc: Document, tesseract: bool)
    requires ExtractTextFromPdf(doc, tesseract) != []
    ensures doc.Document?
    ensures NativeText(doc).Some?
    ensures var r := ExtractTextFromPdf(doc, tesseract);
      (r == NativeText(doc).value && |Strip(r)| > NATIVE_ABOVE)
      || (tesseract && |Strip(NativeText(doc).value)| <= NATIVE_ABOVE
          && exists os :: PagesRead(doc.pages, os) && r == Join(PAGE_BREAK, os))
  {
    OcrTextWhole(doc, tesseract);
  }

  /** The pre-check and the extraction measure differently: a readable PDF
      whose text layer is 200 spaces is not flagged for OCR (200 characters),
      yet extraction goes to OCR, since nothing is left once it is stripped. */
  lemma PreCheckDisagrees()
    ensures var doc := Document(true, false, [Page(Some(Spaces(200)), Some("scan"))]);
      !IsOcrNeeded(doc) && ExtractTextFromPdf(doc, true) == "scan"
  {
    var doc := Document(true, false, [Page(Some(Spaces(200)), Some("scan"))]);
    var layer := NativeLayer(doc.pages);
    assert layer == [Some(Spaces(200))];
    assert layer[..0] == [];
    assert Collect(layer[..0]) == Some([]);
    assert [] + [Spaces(200)] == [Spaces(200)];
    assert Collect(layer) == Some([Spaces(200)]);
    assert NativeText(doc) == Some(Spaces(200));
    StripEmptyIff(Spaces(200));
    var scans := OcrLayer(doc.pages);
    assert scans == [Some("scan")];
    assert scans[..0] == [];
    assert Collect(scans[..0]) == Some([]);
    assert [] + ["scan"] == ["scan"];
    assert Collect(scans) == Some(["scan"]);
  }

  function Spaces(n: nat): (r: string)
    ensures |r| == n && AllSpace(r)
  {
    if n == 0 then [] else [' '] + Spaces(n - 1)
  }
}
