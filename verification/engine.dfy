/**
 * The processing engine of processing_engine.py: the cache key of a document, the
 * processing of one document (cache lookup, extraction, classification,
 * review sidecar, cache write), the batch loop of a job with its cancel and
 * pause checks, and the final update of the workbook.
 *
 * The folders the engine touches are maps from file names to contents:
 * the cache folder holds what `json.load` makes of each cache file, the
 * review folder holds text, and workbooks are kept by path. The progress
 * queue is the sequence of events put on it. What the job cannot know in
 * advance (whether the input workbook is locked, the clock, when the user
 * cancels or pauses) is given as parameters.
 */
module Engine {
  import opened Text
  import opened Records
  import opened Report
  import Ocr
  import H = Harvesters

  // ---------------------------------------------------------------------------
  // Inputs, events and state

  /** A document to process: its path, its size in bytes when the file
      exists, and what opening it as a PDF gives. */
  datatype InputFile = InputFile(path: FilePath, size: Option<nat>, doc: Ocr.Document)

  /** What `json.load` makes of a cache file: not JSON, a dict without
      `"status"`, or a record written by an earlier run. */
  datatype CacheEntry = Unparseable | MissingStatus | Record(data: ProcessingResult)

  /** A message put on the progress queue. */
  datatype Event =
    | Log(tag: string, msg: string)
    | Status(msg: string, led: string)
    | Progress(current: nat, total: nat)
    | IncrementCounter(counter: string)
    | FileComplete(status: string)
    | ReviewItem(info: Option<ReviewInfo>)
    | ResultPath(path: FilePath)
    | Finish(status: string)

  /** The configuration the engine reads: the harvester's, whether
      Tesseract was found, the review and output folders, and the header
      names of the columns the merge uses. */
  datatype Settings = Settings(
    harvest: H.HarvestConfig,
    tesseract: bool,
    reviewDir: string,
    outputDir: string,
    names: ColumnNames)

  /** The cache and review folders. */
  datatype Store = Store(cache: map<string, CacheEntry>, review: map<string, string>)

  /** Everything a job can change: both folders, the workbooks on disk, and
      the events put on the queue so far. */
  datatype State = State(
    cache: map<string, CacheEntry>,
    review: map<string, string>,
    workbooks: map<FilePath, Workbook>,
    events: seq<Event>)

  const INFO := "info"
  const WARNING := "warning"
  const ERROR := "error"
  const OCR_COUNTER := "ocr"
  const EXTRACTION_FAILED := "Error: Text Extraction Failed"
  const NO_MODELS := "No models"
  const LOCKED := "Input Excel is locked."

  // ---------------------------------------------------------------------------
  // Cache key

  function DigitChar(d: nat): char
    requires d < 10
  {
    ('0' as int + d) as char
  }

  /** `str(n)`: the decimal digits of `n`, without leading zeros. */
  function Decimal(n: nat): (r: string)
    ensures r != [] && forall i :: 0 <= i < |r| ==> '0' <= r[i] <= '9'
  {
    if n < 10 then [DigitChar(n)] else Decimal(n / 10) + [DigitChar(n % 10)]
  }

  /** The number a string of decimal digits denotes. */
  function DecimalValue(s: string): int
  {
    if s == [] then 0 else DecimalValue(s[..|s| - 1]) * 10 + (s[|s| - 1] as int - '0' as int)
  }

  /** Reading back the digits of a number gives the number. */
  lemma {:induction false} DecimalRoundTrip(n: nat)
    ensures DecimalValue(Decimal(n)) == n
  {
    if n >= 10 {
      DecimalRoundTrip(n / 10);
      var s := Decimal(n);
      assert s[..|s| - 1] == Decimal(n / 10);
    }
  }

  /** What follows the last `_` of a cache file name, before `.json`. */
  function SizeText(size: Option<nat>): string
  {
    match size
    case Some(n) => Decimal(n)
    case None => "unknown"
  }

  /** `get_cache_path`: the stem of the document, `_`, its size in bytes or
      `unknown` when the file does not exist, and `.json`. */
  function CacheKey(stem: string, size: Option<nat>): string
  {
    stem + "_" + SizeText(size) + ".json"
  }

  function CacheName(file: InputFile): string
  {
    CacheKey(Stem(file.path.name), file.size)
  }

  /** Two strings joined by one separator that does not occur in the second
      can be split apart again. */
  lemma SplitAtLast(a: string, b: string, c: string, d: string, sep: char)
    requires a + [sep] + b == c + [sep] + d && sep !in b && sep !in d
    ensures a == c && b == d
  {
    var w := a + [sep] + b;
    assert w[|a|] == sep && w[|c|] == sep;
    forall i | |a| < i < |w|
      ensures w[i] != sep
    {
      assert w[i] == b[i - |a| - 1];
    }
    forall i | |c| < i < |w|
      ensures w[i] != sep
    {
      assert w[i] == d[i - |c| - 1];
    }
    assert a == w[..|a|] && c == w[..|c|];
    assert b == w[|a| + 1..] && d == w[|c| + 1..];
  }

  /** `"unknown"` is not the size of any file. */
  lemma DecimalNotUnknown(n: nat)
    ensures Decimal(n) != "unknown"
  {
    assert Decimal(n)[0] != 'u';
  }

  /** Different sizes, or a size and a missing file, read differently. */
  lemma SizeTextInjective(a: Option<nat>, b: Option<nat>)
    ensures SizeText(a) == SizeText(b) ==> a == b
  {
    if a.Some? {
      DecimalNotUnknown(a.value);
      DecimalRoundTrip(a.value);
    }
    if b.Some? {
      DecimalNotUnknown(b.value);
      DecimalRoundTrip(b.value);
    }
  }

  /** Documents with different stems or sizes never share a cache file, and
      the key depends on nothing else. */
  lemma CacheKeyInjective(stem1: string, size1: Option<nat>, stem2: string, size2: Option<nat>)
    ensures CacheKey(stem1, size1) == CacheKey(stem2, size2) <==> stem1 == stem2 && size1 == size2
  {
    if CacheKey(stem1, size1) == CacheKey(stem2, size2) {
      var t1, t2 := SizeText(size1), SizeText(size2);
      var k := CacheKey(stem1, size1);
      assert stem1 + "_" + t1 == k[..|k| - 5];
      assert stem2 + "_" + t2 == k[..|k| - 5];
      assert '_' !in t1 && '_' !in t2;
      SplitAtLast(stem1, t1, stem2, t2, '_');
      SizeTextInjective(size1, size2);
    }
  }

  // ---------------------------------------------------------------------------
  // One document

  /** The text extraction gives for a document. */
  function Extracted(s: Settings, file: InputFile): string
  {
    Ocr.ExtractTextFromPdf(file.doc, s.tesseract)
  }

  /** The name of the text file written for a document that needs review,
      in the review folder. */
  function ReviewName(file: InputFile): string
  {
    Stem(file.path.name) + ".txt"
  }

  /** What that text file holds. */
  function ReviewText(name: string, text: string): string
  {
    "--- Filename: " + name + " ---\n\n" + text
  }

  /** The review record of a document in which no models were found. */
  function ReviewFor(s: Settings, file: InputFile): ReviewInfo
  {
    ReviewInfo(file.path.name, NO_MODELS, FilePath(s.reviewDir, ReviewName(file)), file.path)
  }

  /** The record computed afresh for a document: `Fail` when nothing but
      whitespace was extracted, `Needs Review` when no models were found,
      `Pass` otherwise; `ocr_used` is the OCR pre-check's verdict. */
  ghost function Fresh(s: Settings, file: InputFile): ProcessingResult
  {
    var text := Extracted(s, file);
    Classified(file.path.name, Ocr.IsOcrNeeded(file.doc), Strip(text) == [],
               H.HarvestAll(s.harvest, text, file.path.name), ReviewFor(s, file))
  }

  /** The classification branches of `process_single_pdf`, given the name,
      the pre-check's verdict, whether the extracted text is blank, what
      the harvester found and the review record. */
  function Classified(name: string, ocr: bool, blank: bool, data: H.HarvestData, info: ReviewInfo): ProcessingResult
  {
    if blank then ProcessingResult(name, EXTRACTION_FAILED, "", FAIL, ocr, None)
    else if data.models == H.NOT_FOUND then ProcessingResult(name, data.models, data.author, NEEDS_REVIEW, ocr, Some(info))
    else ProcessingResult(name, data.models, data.author, PASS, ocr, None)
  }

  /** The events of a fresh computation, from the corrupt-cache warning to
      the completion event, both excluded. */
  ghost function FreshEvents(s: Settings, file: InputFile): seq<Event>
  {
    var text := Extracted(s, file);
    ClassifyEvents(file.path.name, Ocr.IsOcrNeeded(file.doc), Strip(text) == [],
                   H.HarvestAll(s.harvest, text, file.path.name), ReviewFor(s, file))
  }

  /** The events the classification branches put on the queue: queued, OCR
      with its counter when the pre-check flagged the document, AI once
      some text was extracted, and the review item when no models were
      found. */
  function ClassifyEvents(name: string, ocr: bool, blank: bool, data: H.HarvestData, info: ReviewInfo): seq<Event>
  {
    [Status(name, "Queued")]
    + (if ocr then [Status(name, "OCR"), IncrementCounter(OCR_COUNTER)] else [])
    + (if blank then []
       else [Status(name, "AI")] + (if data.models == H.NOT_FOUND then [ReviewItem(Some(info))] else []))
  }

  /** The events of a cache hit, after the processing announcement. */
  function CachedEvents(name: string, r: ProcessingResult): seq<Event>
  {
    [Log(INFO, "Loaded from cache: " + name)]
    + (if r.status == NEEDS_REVIEW then [ReviewItem(r.reviewInfo)] else [])
    + [FileComplete(r.status)]
    + (if r.ocrUsed then [IncrementCounter(OCR_COUNTER)] else [])
  }

  /** What a call of `process_single_pdf` returns, leaves in the folders and
      puts on the queue. */
  datatype Outcome = Outcome(result: ProcessingResult, store: Store, events: seq<Event>)

  /** What a document yields independent of the folders: its file name,
      the names of its cache file and of its review text file, and the
      record, the classification events and the extracted text of
      computing it afresh. */
  datatype Computed = Computed(name: string, key: string, reviewFile: string,
                               result: ProcessingResult, events: seq<Event>, text: string)

  ghost function Compute(s: Settings, file: InputFile): Computed
  {
    Computed(file.path.name, CacheName(file), ReviewName(file), Fresh(s, file), FreshEvents(s, file), Extracted(s, file))
  }

  /** `process_single_pdf`, given what computing the document afresh would
      yield: a parsed cache record with a status is returned as it is unless
      the cache is bypassed; otherwise the computed record is stored. */
  function Processing(st: Store, ignoreCache: bool, comp: Computed): Outcome
  {
    if !ignoreCache && comp.key in st.cache && st.cache[comp.key].Record? then
      var r := st.cache[comp.key].data;
      Outcome(r, st, [Log(INFO, "Processing: " + comp.name)] + CachedEvents(comp.name, r))
    else
      Stored(st, ignoreCache, comp)
  }

  /** `process_single_pdf`. */
  ghost function Processed(s: Settings, st: Store, file: InputFile, ignoreCache: bool): Outcome
  {
    Processing(st, ignoreCache, Compute(s, file))
  }

  /** The recomputing branch of `process_single_pdf`, given the record, the
      events and the text of the computation: a corrupt entry is reported,
      a document that needs review gets its text file, the record is
      written to the cache and its completion reported last. */
  function Stored(st: Store, ignoreCache: bool, comp: Computed): Outcome
  {
    var r := comp.result;
    var warn := if !ignoreCache && comp.key in st.cache
                then [Log(WARNING, "Corrupt cache for " + comp.name + ". Reprocessing...")] else [];
    var review := if r.status == NEEDS_REVIEW
                  then st.review[comp.reviewFile := ReviewText(comp.name, comp.text)] else st.review;
    Outcome(r, Store(st.cache[comp.key := Record(r)], review),
            [Log(INFO, "Processing: " + comp.name)] + warn + comp.events + [FileComplete(r.status)])
  }


  // ---------------------------------------------------------------------------
  // A job

  /** A job: whether it re-runs an earlier report, the workbook it starts
      from, and the documents in the order they are processed. */
  datatype Job = Job(isRerun: bool, excel: FilePath, files: seq<InputFile>)

  /** What happens around a job: whether `is_file_locked` reports the input
      workbook locked, the timestamp for the copy's name, the first cancel
      check (counting the one after the loop as check `|files|`) at which
      the cancel event is set, the iterations at which the pause event is
      set, and the message of the error `shutil.copy` of an existing input
      workbook and `workbook.save` raise, if they do (an output folder that
      is missing or not writable, a target workbook open elsewhere). */
  datatype Controls = Controls(locked: bool, timestamp: string, cancelFrom: Option<nat>, paused: set<nat>,
                               copyError: Option<string>, saveError: Option<string>)

  /** The cancel event is seen set at check `i`; once set it stays set. */
  predicate CancelledAt(c: Controls, i: nat)
  {
    c.cancelFrom.Some? && c.cancelFrom.value <= i
  }

  /** How many documents the loop processes before it stops: all of them,
      unless the cancel event is seen set at an earlier check. */
  function Processes(c: Controls, n: nat): nat
  {
    if CancelledAt(c, n) && c.cancelFrom.value < n then c.cancelFrom.value else n
  }

  /** The loop processes documents while no cancel is seen and stops at the
      first check that sees one. */
  lemma ProcessesStops(c: Controls, n: nat)
    ensures Processes(c, n) <= n
    ensures forall i :: 0 <= i < Processes(c, n) ==> !CancelledAt(c, i)
    ensures Processes(c, n) < n ==> CancelledAt(c, Processes(c, n))
  {
  }

  /** The copy a first run writes its report to:
      `cloned_<stem>_<timestamp><suffix>` in the output folder. */
  function ClonePath(s: Settings, excel: FilePath, ts: string): FilePath
  {
    FilePath(s.outputDir, "cloned_" + Stem(excel.name) + "_" + ts + Suffix(excel.name))
  }

  /** `str(path)`. */
  function PathText(p: FilePath): string
  {
    p.dir + "/" + p.name
  }

  /** The message of the `FileNotFoundError` for a missing file. */
  function NoSuchFile(p: FilePath): string
  {
    "[Errno 2] No such file or directory: '" + PathText(p) + "'"
  }

  /** What the job puts on the queue when an exception ends it. */
  function Failure(msg: string): seq<Event>
  {
    [Log(ERROR, "Critical error: " + msg), Finish("Error: " + msg)]
  }

  /** `clear_review_folder`: every `.txt` file in the review folder removed. */
  function Cleared(review: map<string, string>): (r: map<string, string>)
    ensures forall k :: k in r <==> k in review && !EndsWith(k, ".txt")
    ensures forall k :: k in r ==> r[k] == review[k]
  {
    map k | k in review && !EndsWith(k, ".txt") :: review[k]
  }

  /** The state of the loop of a job: the folders, the results by file
      name, and the queue. */
  datatype Batch = Batch(store: Store, results: Results, events: seq<Event>)

  /** Iteration `i` of the loop: the pause and progress reports, then the
      processing of document `i` on the folders the earlier ones left, its
      result stored under its file name. */
  function Iteration(b: Batch, files: seq<InputFile>, comps: seq<Computed>, ignoreCache: bool, paused: set<nat>, i: nat): Batch
    requires i < |files| == |comps|
  {
    var o := Processing(b.store, ignoreCache, comps[i]);
    Batch(o.store, Put(b.results, o.result.filename, o.result), b.events + IterationStart(paused, i, |files|) + o.events)
  }

  /** The loop from iteration `i` on: it stops at the end of the documents
      or at the first cancel check that finds the cancel event set. */
  function Loop(b: Batch, files: seq<InputFile>, comps: seq<Computed>, ignoreCache: bool, c: Controls, i: nat): Batch
    requires i <= |files| == |comps|
    decreases |files| - i
  {
    if i == |files| || CancelledAt(c, i) then b
    else Loop(Iteration(b, files, comps, ignoreCache, c.paused, i), files, comps, ignoreCache, c, i + 1)
  }

  /** `comps` holds what computing each document afresh yields. */
  ghost predicate ComputedFor(s: Settings, files: seq<InputFile>, comps: seq<Computed>)
  {
    |comps| == |files| && forall j {:trigger Compute(s, files[j])} :: 0 <= j < |files| ==> comps[j] == Compute(s, files[j])
  }

  lemma ComputesFor(s: Settings, files: seq<InputFile>)
    ensures ComputedFor(s, files, Computes(s, files))
  {
  }

  /** What computing each document afresh yields. */
  ghost function Computes(s: Settings, files: seq<InputFile>): (r: seq<Computed>)
    ensures |r| == |files|
  {
    seq(|files|, j requires 0 <= j < |files| => Compute(s, files[j]))
  }

  /** The events an iteration puts before its document is processed. */
  function IterationStart(paused: set<nat>, i: nat, n: nat): seq<Event>
  {
    (if i in paused then [Status("Paused", "Paused")] else []) + [Progress(i + 1, n)]
  }

  /** The workbook a job writes its report to: the input workbook itself
      for a re-run, else its timestamped copy. */
  function Target(s: Settings, job: Job, c: Controls): FilePath
  {
    if job.isRerun then job.excel else ClonePath(s, job.excel, c.timestamp)
  }

  /** `run_processing_job`: copy the workbook (or, for a re-run, clear the
      review folder and use the workbook itself), process the documents
      until cancelled, then conclude; an exception ends the job with an
      error. */
  ghost function Run(s: Settings, job: Job, c: Controls, w: State): State
  {
    RunOver(s, job, c, w, Computes(s, job.files))
  }

  /** A job, given what computing each of its documents afresh yields. */
  function RunOver(s: Settings, job: Job, c: Controls, w: State, comps: seq<Computed>): State
    requires |comps| == |job.files|
  {
    var b := Loop(Start(job, w), job.files, comps, job.isRerun, c, 0);
    Around(s, job, c, w, b, Loaded(Books(s, job, c, w), Target(s, job, c), s.names, b.results))
  }

  /** The folders and the queue when the loop of a job begins. */
  function Start(job: Job, w: State): Batch
  {
    Batch(Store(w.cache, if job.isRerun then Cleared(w.review) else w.review), [],
          w.events + [Log(INFO, "Processing job started.")])
  }

  /** The workbooks once a first run has copied its input workbook. */
  function Books(s: Settings, job: Job, c: Controls, w: State): map<FilePath, Workbook>
  {
    if job.isRerun || job.excel !in w.workbooks then w.workbooks
    else w.workbooks[Target(s, job, c) := w.workbooks[job.excel]]
  }

  /** A job around its loop, given what the loop leaves (`b`) and what
      loading and updating the workbook gives: a locked or missing input
      workbook, or a copy that fails, ends a first run before the loop;
      otherwise the job concludes from the state the loop leaves. */
  function Around(s: Settings, job: Job, c: Controls, w: State, b: Batch, update: Result<Workbook>): State
  {
    var started := w.events + [Log(INFO, "Processing job started.")];
    if !job.isRerun && c.locked then
      State(w.cache, w.review, w.workbooks, started + Failure(LOCKED))
    else if !job.isRerun && job.excel !in w.workbooks then
      State(w.cache, w.review, w.workbooks, started + Failure(NoSuchFile(job.excel)))
    else if !job.isRerun && c.copyError.Some? then
      State(w.cache, w.review, w.workbooks, started + Failure(c.copyError.value))
    else
      Concluded(Target(s, job, c), CancelledAt(c, |job.files|),
                State(b.store.cache, b.store.review, Books(s, job, c, w), b.events), update, c.saveError)
  }

  /** Loading the target workbook and updating its active sheet with the
      results: the error of a missing (or unreadable) file, or of a missing
      header, else the updated workbook. */
  function Loaded(books: map<FilePath, Workbook>, target: FilePath, names: ColumnNames, results: Results): Result<Workbook>
  {
    if target !in books || !Shaped(books[target].cells, books[target].fills) then Error(NoSuchFile(target))
    else UpdatedSheet(books[target], names, results)
  }

  /** The end of a job once the loop is over, given what loading and
      updating the workbook gives and the error saving it raises, if any:
      `Cancelled` when the cancel event is set (the workbook is then never
      loaded); otherwise the error that ends the job, or the updated
      workbook saved over the target. */
  function Concluded(target: FilePath, cancelled: bool, w: State, update: Result<Workbook>, saveError: Option<string>): State
  {
    if cancelled then State(w.cache, w.review, w.workbooks, w.events + [Finish("Cancelled")])
    else
      var saving := w.events + [Status("Updating Excel...", "Saving")];
      match update
      case Error(msg) => State(w.cache, w.review, w.workbooks, saving + Failure(msg))
      case Ok(wb) =>
        match saveError
        case Some(msg) =>
          State(w.cache, w.review, w.workbooks, saving + ([Status("Applying formatting...", "Saving")] + Failure(msg)))
        case None =>
          State(w.cache, w.review, w.workbooks[target := wb],
                saving + [Status("Applying formatting...", "Saving"), ResultPath(target), Finish("Complete")])
  }

  /** The part of `process_single_pdf` between the cache lookup and the
      writes: the OCR pre-check, the extraction and the classification, with
      the events they put on the queue; also returns the extracted text. */
  method Classify(s: Settings, file: InputFile) returns (result: ProcessingResult, evs: seq<Event>, text: string)
    ensures (result, evs, text) == (Fresh(s, file), FreshEvents(s, file), Extracted(s, file))
  {
    var name := file.path.name;
    evs := [Status(name, "Queued")];
    var ocrRequired := Ocr.IsOcrNeeded(file.doc);
    if ocrRequired {
      evs := evs + [Status(name, "OCR"), IncrementCounter(OCR_COUNTER)];
    }
    text := Extracted(s, file);
    ghost var front := evs;
    if Strip(text) == [] {
      result := ProcessingResult(name, EXTRACTION_FAILED, "", FAIL, ocrRequired, None);
      assert evs == front + [];
    } else {
      evs := evs + [Status(name, "AI")];
      var data := H.HarvestAllData(s.harvest, text, name);
      if data.models == H.NOT_FOUND {
        var info := ReviewFor(s, file);
        result := ProcessingResult(name, data.models, data.author, NEEDS_REVIEW, ocrRequired, Some(info));
        evs := evs + [ReviewItem(Some(info))];
        Appended(front, [Status(name, "AI")], [ReviewItem(Some(info))]);
      } else {
        result := ProcessingResult(name, data.models, data.author, PASS, ocrRequired, None);
        assert evs == front + ([Status(name, "AI")] + []);
      }
    }
  }

  lemma Appended(a: seq<Event>, b: seq<Event>, c: seq<Event>)
    ensures a + b + c == a + (b + c)
  {
  }

  // ---------------------------------------------------------------------------
  // The engine, run on the folders in place

  class Workspace {
    var cache: map<string, CacheEntry>
    var review: map<string, string>
    var workbooks: map<FilePath, Workbook>
    var events: seq<Event>

    function Folders(): Store
      reads this
    {
      Store(cache, review)
    }

    function Snapshot(): State
      reads this
    {
      State(cache, review, workbooks, events)
    }

    constructor (w: State)
      ensures Snapshot() == w
    {
      cache := w.cache;
      review := w.review;
      workbooks := w.workbooks;
      events := w.events;
    }

    /** `clear_review_folder`, one `.txt` file at a time. */
    method ClearReviewFolder()
      modifies this
      ensures review == Cleared(old(review))
      ensures cache == old(cache) && workbooks == old(workbooks) && events == old(events)
    {
      var doomed := set k | k in review && EndsWith(k, ".txt");
      while doomed != {}
        invariant doomed <= review.Keys && forall k :: k in doomed ==> EndsWith(k, ".txt")
        invariant forall k :: k in review <==> k in old(review) && (k in doomed || !EndsWith(k, ".txt"))
        invariant forall k :: k in review ==> review[k] == old(review)[k]
        invariant cache == old(cache) && workbooks == old(workbooks) && events == old(events)
        decreases |doomed|
      {
        var f :| f in doomed;
        review := review - {f};
        doomed := doomed - {f};
      }
    }

    /** `process_single_pdf`. */
    method ProcessSinglePdf(s: Settings, file: InputFile, ignoreCache: bool) returns (result: ProcessingResult)
      modifies this
      ensures var o := Processed(s, old(Folders()), file, ignoreCache);
        (result, Folders(), events) == (o.result, o.store, old(events) + o.events)
      ensures workbooks == old(workbooks)
    {
      var key := CacheName(file);
      if !ignoreCache && key in cache && cache[key].Record? {
        result := LoadCached(file.path.name, key, ignoreCache, Compute(s, file));
      } else {
        result := Recompute(s, file, ignoreCache);
      }
    }

    /** A cache hit: the stored record, announced as loaded. */
    method LoadCached(name: string, key: string, ignoreCache: bool, ghost comp: Computed) returns (result: ProcessingResult)
      requires (comp.name, comp.key) == (name, key)
      requires !ignoreCache && key in cache && cache[key].Record?
      modifies this
      ensures result == old(cache)[key].data
      ensures var o := Processing(old(Folders()), ignoreCache, comp);
        (result, Folders(), events) == (o.result, o.store, old(events) + o.events)
      ensures workbooks == old(workbooks)
    {
      events := events + [Log(INFO, "Processing: " + name)];
      result := cache[key].data;
      events := events + [Log(INFO, "Loaded from cache: " + name)];
      if result.status == NEEDS_REVIEW {
        events := events + [ReviewItem(result.reviewInfo)];
      }
      events := events + [FileComplete(result.status)];
      if result.ocrUsed {
        events := events + [IncrementCounter(OCR_COUNTER)];
      }
      assert events == old(events) + ([Log(INFO, "Processing: " + name)] + CachedEvents(name, result));
    }

    method Recompute(s: Settings, file: InputFile, ignoreCache: bool) returns (result: ProcessingResult)
      requires ignoreCache || CacheName(file) !in cache || !cache[CacheName(file)].Record?
      modifies this
      ensures var o := Processed(s, old(Folders()), file, ignoreCache);
        (result, Folders(), events) == (o.result, o.store, old(events) + o.events)
      ensures workbooks == old(workbooks)
    {
      var found, text;
      result, found, text := Classify(s, file);
      WriteRecord(Computed(file.path.name, CacheName(file), ReviewName(file), result, found, text), ignoreCache);
    }

    /** The writes of the recomputing branch: the events, the review text
        file when it is needed, and the cache file. */
    method WriteRecord(comp: Computed, ignoreCache: bool)
      modifies this
      ensures var o := Stored(old(Folders()), ignoreCache, comp);
        (Folders(), events) == (o.store, old(events) + o.events)
      ensures workbooks == old(workbooks)
    {
      var name := comp.name;
      var result := comp.result;
      var warn := [];
      if !ignoreCache && comp.key in cache {
        warn := [Log(WARNING, "Corrupt cache for " + name + ". Reprocessing...")];
      }
      if result.status == NEEDS_REVIEW {
        review := review[comp.reviewFile := ReviewText(name, comp.text)];
      }
      cache := cache[comp.key := Record(result)];
      events := events + ([Log(INFO, "Processing: " + name)] + warn + comp.events + [FileComplete(result.status)]);
    }

    /** `run_processing_job`. */
    method RunProcessingJob(s: Settings, job: Job, c: Controls)
      modifies this
      ensures Snapshot() == Run(s, job, c, old(Snapshot()))
    {
      events := events + [Log(INFO, "Processing job started.")];
      var target := Target(s, job, c);
      if job.isRerun {
        ClearReviewFolder();
      } else {
        if c.locked {
          events := events + Failure(LOCKED);
          return;
        }
        if job.excel !in workbooks {
          events := events + Failure(NoSuchFile(job.excel));
          return;
        }
        if c.copyError.Some? {
          events := events + Failure(c.copyError.value);
          return;
        }
        workbooks := workbooks[target := workbooks[job.excel]];
      }
      ComputesFor(s, job.files);
      var results := ProcessFiles(s, job.files, job.isRerun, c, Computes(s, job.files));
      Conclude(s.names, target, CancelledAt(c, |job.files|), results, c.saveError);
    }

    /** The part of `run_processing_job` after the loop: the cancel check,
        then the workbook loaded, updated through its active sheet, and
        saved unless saving raises `saveError`. */
    method Conclude(names: ColumnNames, target: FilePath, cancelled: bool, results: Results, saveError: Option<string>)
      modifies this
      ensures Snapshot() == Concluded(target, cancelled, old(Snapshot()), Loaded(old(workbooks), target, names, results), saveError)
    {
      if cancelled {
        events := events + [Finish("Cancelled")];
        return;
      }
      events := events + [Status("Updating Excel...", "Saving")];
      var updated;
      if target !in workbooks || !Shaped(workbooks[target].cells, workbooks[target].fills) {
        updated := Error(NoSuchFile(target));
      } else {
        updated := UpdateWorkbook(workbooks[target], names, results);
      }
      match updated
      case Error(msg) =>
        events := events + Failure(msg);
      case Ok(wb) =>
        match saveError
        case Some(msg) =>
          events := events + ([Status("Applying formatting...", "Saving")] + Failure(msg));
        case None =>
          workbooks := workbooks[target := wb];
          events := events + [Status("Applying formatting...", "Saving"), ResultPath(target), Finish("Complete")];
    }

    /** The loop of `run_processing_job` over the documents, up to the first
        cancel check that finds the cancel event set. */
    method ProcessFiles(s: Settings, files: seq<InputFile>, ignoreCache: bool, c: Controls, ghost comps: seq<Computed>)
      returns (results: Results)
      requires ComputedFor(s, files, comps)
      modifies this
      ensures Batch(Folders(), results, events) == Loop(Batch(old(Folders()), [], old(events)), files, comps, ignoreCache, c, 0)
      ensures workbooks == old(workbooks)
    {
      results := [];
      var i := 0;
      while i < |files|
        invariant i <= |files|
        invariant Loop(Batch(Folders(), results, events), files, comps, ignoreCache, c, i)
               == Loop(Batch(old(Folders()), [], old(events)), files, comps, ignoreCache, c, 0)
        invariant workbooks == old(workbooks)
      {
        if CancelledAt(c, i) {
          break;
        }
        results := ProcessNext(s, files, comps, ignoreCache, c.paused, i, results);
        i := i + 1;
      }
    }

    /** One iteration of the loop: the pause and progress reports, then the
        document. */
    method ProcessNext(s: Settings, files: seq<InputFile>, ghost comps: seq<Computed>, ignoreCache: bool, paused: set<nat>, i: nat, results: Results)
      returns (results': Results)
      requires i < |files| && ComputedFor(s, files, comps)
      modifies this
      ensures Batch(Folders(), results', events) == Iteration(old(Batch(Folders(), results, events)), files, comps, ignoreCache, paused, i)
      ensures workbooks == old(workbooks)
    {
      if i in paused {
        events := events + [Status("Paused", "Paused")];
      }
      events := events + [Progress(i + 1, |files|)];
      assert events == old(events) + IterationStart(paused, i, |files|);
      var res := ProcessSinglePdf(s, files[i], ignoreCache);
      results' := Put(results, res.filename, res);
    }
  }
}
