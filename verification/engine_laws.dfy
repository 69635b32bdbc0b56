/**
 * What processing_engine.py promises about one document and about a job,
 * proved of the model in module Engine.
 */
module EngineLaws {
  import opened Text
  import opened Records
  import opened Report
  import opened Engine
  import Ocr
  import H = Harvesters

  // ---------------------------------------------------------------------------
  // Selecting events

  /** The kinds of event the properties below count. */
  datatype Kind = Completion | Review | Advance | End

  predicate OfKind(e: Event, k: Kind)
  {
    match k
    case Completion => e.FileComplete?
    case Review => e.ReviewItem?
    case Advance => e.Progress?
    case End => e.Finish?
  }

  /** The events of `evs` of kind `k`, in order. */
  function Only(evs: seq<Event>, k: Kind): seq<Event>
  {
    if evs == [] then [] else (if OfKind(evs[0], k) then [evs[0]] else []) + Only(evs[1..], k)
  }

  /** Selecting from a concatenation selects from each part. */
  lemma {:induction false} OnlyAppend(a: seq<Event>, b: seq<Event>, k: Kind)
    ensures Only(a + b, k) == Only(a, k) + Only(b, k)
  {
    if a == [] {
      assert a + b == b;
    } else {
      assert (a + b)[0] == a[0];
      assert (a + b)[1..] == a[1..] + b;
      OnlyAppend(a[1..], b, k);
    }
  }

  /** Nothing is selected from events none of which is of kind `k`. */
  lemma {:induction false} OnlyNone(evs: seq<Event>, k: Kind)
    requires forall i :: 0 <= i < |evs| ==> !OfKind(evs[i], k)
    ensures Only(evs, k) == []
  {
    if evs != [] {
      OnlyNone(evs[1..], k);
    }
  }

  lemma OnlyOne(e: Event)
    ensures forall k :: Only([e], k) == if OfKind(e, k) then [e] else []
  {
    assert [e][1..] == [];
  }

  /** Log messages are of none of the counted kinds. */
  lemma OnlyLogs(evs: seq<Event>)
    requires forall i :: 0 <= i < |evs| ==> evs[i].Log? || evs[i].IncrementCounter?
    ensures forall k :: Only(evs, k) == []
  {
    forall k {
      OnlyNone(evs, k);
    }
  }

  // ---------------------------------------------------------------------------
  // One document

  /** The classification of a document computed afresh: `Fail` exactly when
      only whitespace was extracted, with the extraction-failed text and no
      author; `Needs Review` exactly when some text was extracted but the
      harvest gave nothing but the empty string, or only `Not Found`, and
      then with the review record; `Pass` otherwise. `ocr_used` is the
      pre-check's verdict, whether or not OCR ran. */
  lemma FreshClassification(s: Settings, file: InputFile)
    ensures var r := Fresh(s, file);
      var text := Extracted(s, file);
      var found := H.HarvestedSet(s.harvest, text, file.path.name);
      var nothing := found <= {[]} || found == {H.NOT_FOUND};
      && r.filename == file.path.name
      && r.ocrUsed == Ocr.IsOcrNeeded(file.doc)
      && (r.status == FAIL <==> Strip(text) == [])
      && (r.status == NEEDS_REVIEW <==> Strip(text) != [] && nothing)
      && (r.status == PASS <==> Strip(text) != [] && !nothing)
      && (r.status == FAIL ==> r.models == EXTRACTION_FAILED && r.author == "")
      && (r.reviewInfo.Some? <==> r.status == NEEDS_REVIEW)
      && (r.reviewInfo.Some? ==> r.reviewInfo.value == ReviewInfo(file.path.name, NO_MODELS, FilePath(s.reviewDir, ReviewName(file)), file.path))
  {
    H.HarvestedNothing(s.harvest, Extracted(s, file), file.path.name);
  }

  /** The classification events report neither a completion, nor
      progress, nor the end of the job, and a review item exactly for a
      document that needs review, carrying its review record. */
  lemma ClassifyEventsQuiet(name: string, ocr: bool, blank: bool, data: H.HarvestData, info: ReviewInfo)
    ensures var evs := ClassifyEvents(name, ocr, blank, data, info);
      var r := Classified(name, ocr, blank, data, info);
      && Quiet(evs)
      && Only(evs, Review) == if r.status == NEEDS_REVIEW then [ReviewItem(r.reviewInfo)] else []
  {
    var evs := ClassifyEvents(name, ocr, blank, data, info);
    var r := Classified(name, ocr, blank, data, info);
    var last: seq<Event> := if r.status == NEEDS_REVIEW then [ReviewItem(r.reviewInfo)] else [];
    var front := evs[..|evs| - |last|];
    assert evs == front + last;
    OnlyNone(front, Review);
    OnlyAppend(front, last, Review);
  }

  /** No completion, progress or end of job among `evs`. */
  predicate Quiet(evs: seq<Event>)
  {
    forall k :: 0 <= k < |evs| ==> !evs[k].FileComplete? && !evs[k].Progress? && !evs[k].Finish?
  }

  /** The events of one call, selected by kind: exactly one completion,
      with the status returned; a review item exactly when that status is
      `Needs Review`, with the record's review information; no progress
      report and no end of job. */
  function Reported(o: Outcome): (seq<Event>, seq<Event>, seq<Event>, seq<Event>)
  {
    (Only(o.events, Completion), Only(o.events, Review), Only(o.events, Advance), Only(o.events, End))
  }

  function Expected(r: ProcessingResult): (seq<Event>, seq<Event>, seq<Event>, seq<Event>)
  {
    ([FileComplete(r.status)], if r.status == NEEDS_REVIEW then [ReviewItem(r.reviewInfo)] else [], [], [])
  }

  /** Events around a quiet computation: logs before it, its completion
      after it. */
  lemma FramedReported(pre: seq<Event>, evs: seq<Event>, post: seq<Event>, done: Event)
    requires forall i :: 0 <= i < |pre| ==> pre[i].Log? || pre[i].IncrementCounter?
    requires forall i :: 0 <= i < |post| ==> post[i].Log? || post[i].IncrementCounter?
    requires Quiet(evs) && done.FileComplete?
    ensures Only(pre + evs + [done] + post, Completion) == [done]
    ensures Only(pre + evs + [done] + post, Review) == Only(evs, Review)
    ensures Only(pre + evs + [done] + post, Advance) == []
    ensures Only(pre + evs + [done] + post, End) == []
  {
    OnlyLogs(pre);
    OnlyLogs(post);
    OnlyOne(done);
    OnlyNone(evs, Completion);
    OnlyNone(evs, Advance);
    OnlyNone(evs, End);
    OnlyFramed(pre, evs, [done], post, Completion);
    OnlyFramed(pre, evs, [done], post, Review);
    OnlyFramed(pre, evs, [done], post, Advance);
    OnlyFramed(pre, evs, [done], post, End);
  }

  lemma OnlyFramed(pre: seq<Event>, evs: seq<Event>, done: seq<Event>, post: seq<Event>, k: Kind)
    requires Only(pre, k) == [] && Only(post, k) == []
    ensures Only(pre + evs + done + post, k) == Only(evs, k) + Only(done, k)
  {
    OnlyAppend(pre, evs, k);
    OnlyAppend(pre + evs, done, k);
    OnlyAppend(pre + evs + done, post, k);
  }

  /** The writing branch reports its completion last, after the events of
      the computation. */
  lemma StoredReported(st: Store, ignoreCache: bool, comp: Computed)
    requires Sound(comp)
    ensures Reported(Stored(st, ignoreCache, comp)) == Expected(comp.result)
  {
    var name := comp.name;
    var warn := if !ignoreCache && comp.key in st.cache
                then [Log(WARNING, "Corrupt cache for " + name + ". Reprocessing...")] else [];
    var pre := [Log(INFO, "Processing: " + name)] + warn;
    FramedReported(pre, comp.events, [], FileComplete(comp.result.status));
    assert Stored(st, ignoreCache, comp).events == pre + comp.events + [FileComplete(comp.result.status)] + [];
  }

  /** A cache hit reports the stored record as it would have been reported
      when computed. */
  lemma CachedReported(name: string, r: ProcessingResult)
    ensures Reported(Outcome(r, Store(map[], map[]), [Log(INFO, "Processing: " + name)] + CachedEvents(name, r))) == Expected(r)
  {
    var nr: seq<Event> := if r.status == NEEDS_REVIEW then [ReviewItem(r.reviewInfo)] else [];
    var ocr: seq<Event> := if r.ocrUsed then [IncrementCounter(OCR_COUNTER)] else [];
    var start := Log(INFO, "Processing: " + name);
    var loaded := Log(INFO, "Loaded from cache: " + name);
    var done := FileComplete(r.status);
    if nr != [] {
      OnlyOne(nr[0]);
    }
    FramedReported([start, loaded], nr, ocr, done);
    assert CachedEvents(name, r) == [loaded] + nr + [done] + ocr;
    Regroup(start, loaded, nr, done, ocr);
  }

  lemma Regroup(a: Event, b: Event, x: seq<Event>, d: Event, y: seq<Event>)
    ensures [a] + ([b] + x + [d] + y) == [a, b] + x + [d] + y
  {
  }

  /** What a computation afresh reports: nothing counted but a review
      item exactly when its record needs review, carrying its review
      information. */
  predicate Sound(comp: Computed)
  {
    (Quiet(comp.events), Only(comp.events, Review))
    == (true, if comp.result.status == NEEDS_REVIEW then [ReviewItem(comp.result.reviewInfo)] else [])
  }

  /** Every computation afresh of a document is sound. */
  lemma ComputeSound(s: Settings, file: InputFile)
    ensures Sound(Compute(s, file))
  {
    var text := Extracted(s, file);
    ClassifyEventsQuiet(file.path.name, Ocr.IsOcrNeeded(file.doc), Strip(text) == [],
                        H.HarvestAll(s.harvest, text, file.path.name), ReviewFor(s, file));
  }

  /** Given a sound computation, a call reports its completion exactly
      once, with the status it returns; a review item exactly when that
      status is `Needs Review`; and no progress and no end of job. */
  lemma ProcessingReported(st: Store, ignoreCache: bool, comp: Computed)
    requires Sound(comp)
    ensures Reported(Processing(st, ignoreCache, comp)) == Expected(Processing(st, ignoreCache, comp).result)
  {
    if !ignoreCache && comp.key in st.cache && st.cache[comp.key].Record? {
      CachedReported(comp.name, st.cache[comp.key].data);
    } else {
      StoredReported(st, ignoreCache, comp);
    }
  }

  /** Every call of `process_single_pdf` reports its completion exactly
      once, with the status it returns; a review item exactly when that
      status is `Needs Review`; and no progress and no end of job. */
  lemma ProcessedReported(s: Settings, st: Store, file: InputFile, ignoreCache: bool)
    ensures Reported(Processed(s, st, file, ignoreCache)) == Expected(Processed(s, st, file, ignoreCache).result)
  {
    ComputeSound(s, file);
    ProcessingReported(st, ignoreCache, Compute(s, file));
  }

  /** Every call leaves the record it returns in the cache under the
      document's key and changes no other entry. A cache hit returns the
      stored record with both folders untouched; otherwise the record is
      the one computed afresh, and the review folder gains the document's
      text file exactly when that record needs review. */
  lemma ProcessingStore(st: Store, ignoreCache: bool, comp: Computed)
    ensures var o := Processing(st, ignoreCache, comp);
      var hit := !ignoreCache && comp.key in st.cache && st.cache[comp.key].Record?;
      && o.store.cache == st.cache[comp.key := Record(o.result)]
      && (hit ==> o.result == st.cache[comp.key].data && o.store.review == st.review)
      && (!hit ==> o.result == comp.result
                   && o.store.review == if o.result.status == NEEDS_REVIEW
                                        then st.review[comp.reviewFile := ReviewText(comp.name, comp.text)]
                                        else st.review)
  {
    if !ignoreCache && comp.key in st.cache && st.cache[comp.key].Record? {
      assert st.cache[comp.key := st.cache[comp.key]] == st.cache;
    }
  }

  /** Processing a document twice without bypassing the cache: the second
      call finds the first call's record and returns it, changing nothing,
      whatever a computation afresh would have given. */
  lemma SecondCallHits(st: Store, ignoreCache: bool, comp: Computed, comp2: Computed)
    requires comp2.key == comp.key
    ensures var o := Processing(st, ignoreCache, comp);
      var again := Processing(o.store, false, comp2);
      (again.result, again.store) == (o.result, o.store)
  {
    ProcessingStore(st, ignoreCache, comp);
  }

  // ---------------------------------------------------------------------------
  // A job

  /** Where the loop, started at iteration `i` of `n`, stops: at `i` when the
      cancel event is already set, else where the whole loop stops. */
  function Stop(c: Controls, i: nat, n: nat): nat
  {
    if CancelledAt(c, i) then i else Processes(c, n)
  }

  /** `progress(j + 1, n)` for each iteration `j` from `from` up to `to`. */
  function Progressions(from: nat, to: nat, n: nat): (r: seq<Event>)
    requires from <= to
    ensures |r| == to - from && forall j :: 0 <= j < |r| ==> r[j] == Progress(from + j + 1, n)
  {
    seq(to - from, j requires 0 <= j < to - from => Progress(from + j + 1, n))
  }

  /** `evs` report exactly the progress `progress` and never the end of
      the job. */
  predicate Reports(evs: seq<Event>, progress: seq<Event>)
  {
    (Only(evs, Advance), Only(evs, End)) == (progress, [])
  }

  lemma ReportsAppend(a: seq<Event>, b: seq<Event>, p: seq<Event>, q: seq<Event>)
    requires Reports(a, p) && Reports(b, q)
    ensures Reports(a + b, p + q)
  {
    OnlyAppend(a, b, Advance);
    OnlyAppend(a, b, End);
  }

  /** Events none of which is a progress report or an end of job report
      nothing. */
  lemma ReportsNothing(evs: seq<Event>)
    requires forall i :: 0 <= i < |evs| ==> !evs[i].Progress? && !evs[i].Finish?
    ensures Reports(evs, [])
  {
    OnlyNone(evs, Advance);
    OnlyNone(evs, End);
  }

  /** An iteration reports its progress once, and never the end of the job. */
  lemma IterationStartTrace(paused: set<nat>, i: nat, n: nat)
    ensures Reports(IterationStart(paused, i, n), [Progress(i + 1, n)])
  {
    var pause: seq<Event> := if i in paused then [Status("Paused", "Paused")] else [];
    ReportsNothing(pause);
    OnlyOne(Progress(i + 1, n));
    ReportsAppend(pause, [Progress(i + 1, n)], [], [Progress(i + 1, n)]);
    assert [] + [Progress(i + 1, n)] == [Progress(i + 1, n)];
  }

  /** `after` extends `before`, and the events it adds report exactly the
      progress `progress` and never the end of the job. */
  predicate Adds(before: seq<Event>, after: seq<Event>, progress: seq<Event>)
  {
    |before| <= |after| && (after[..|before|], Reports(after[|before|..], progress)) == (before, true)
  }

  lemma AddsBy(before: seq<Event>, added: seq<Event>, progress: seq<Event>)
    requires Reports(added, progress)
    ensures Adds(before, before + added, progress)
  {
    assert (before + added)[..|before|] == before;
    assert (before + added)[|before|..] == added;
  }

  lemma AddsCompose(a: seq<Event>, b: seq<Event>, e: seq<Event>, p: seq<Event>, q: seq<Event>)
    requires Adds(a, b, p) && Adds(b, e, q)
    ensures Adds(a, e, p + q)
  {
    assert e[..|a|] == e[..|b|][..|a|];
    assert e[|a|..] == b[|a|..] + e[|b|..];
    ReportsAppend(b[|a|..], e[|b|..], p, q);
  }

  /** One iteration adds its pause and progress reports and the events of
      processing its document. */
  lemma IterationAdds(b: Batch, files: seq<InputFile>, comps: seq<Computed>, ignoreCache: bool, paused: set<nat>, i: nat)
    requires i < |files| == |comps| && Sound(comps[i])
    ensures Adds(b.events, Iteration(b, files, comps, ignoreCache, paused, i).events, [Progress(i + 1, |files|)])
  {
    var start := IterationStart(paused, i, |files|);
    var evs := Processing(b.store, ignoreCache, comps[i]).events;
    ProcessingReported(b.store, ignoreCache, comps[i]);
    IterationStartTrace(paused, i, |files|);
    AddsQuiet(b.events, start, evs, [Progress(i + 1, |files|)]);
  }

  /** Adding reports `progress` followed by events that report nothing. */
  lemma AddsQuiet(before: seq<Event>, start: seq<Event>, evs: seq<Event>, progress: seq<Event>)
    requires Reports(start, progress) && Reports(evs, [])
    ensures Adds(before, before + start + evs, progress)
  {
    ReportsAppend(start, evs, progress, []);
    assert progress + [] == progress;
    AddsBy(before, start + evs, progress);
    assert before + start + evs == before + (start + evs);
  }

  /** The loop from iteration `i` on only adds events, reporting
      `progress(j + 1, n)` for each iteration `j` it runs, in order, and
      never the end of the job. */
  lemma {:induction false} LoopTrace(b: Batch, files: seq<InputFile>, comps: seq<Computed>, ignoreCache: bool, c: Controls, i: nat)
    requires i <= |files| == |comps| && AllSound(comps)
    ensures i <= Stop(c, i, |files|) <= |files|
    ensures Adds(b.events, Loop(b, files, comps, ignoreCache, c, i).events, Progressions(i, Stop(c, i, |files|), |files|))
    decreases |files| - i
  {
    var n := |files|;
    if i == n || CancelledAt(c, i) {
      ReportsNothing([]);
      AddsBy(b.events, [], []);
      assert b.events + [] == b.events;
    } else {
      var it := Iteration(b, files, comps, ignoreCache, c.paused, i);
      IterationAdds(b, files, comps, ignoreCache, c.paused, i);
      LoopTrace(it, files, comps, ignoreCache, c, i + 1);
      AddsCompose(b.events, it.events, Loop(it, files, comps, ignoreCache, c, i + 1).events,
                  [Progress(i + 1, n)], Progressions(i + 1, Stop(c, i + 1, n), n));
      StopStep(c, i, n);
      ProgressionsStep(i, Stop(c, i, n), n);
    }
  }

  /** An iteration that runs does not move where the loop stops. */
  lemma StopStep(c: Controls, i: nat, n: nat)
    requires i < n && !CancelledAt(c, i)
    ensures i < Stop(c, i, n) == Stop(c, i + 1, n) <= n
  {
  }

  lemma ProgressionsStep(i: nat, to: nat, n: nat)
    requires i < to
    ensures [Progress(i + 1, n)] + Progressions(i + 1, to, n) == Progressions(i, to, n)
  {
  }

  /** The cache keys of documents `from` up to `to`. */
  function CacheKeys(comps: seq<Computed>, from: nat, to: nat): (r: set<string>)
    ensures (forall j :: from <= j < to && j < |comps| ==> comps[j].key in r)
    decreases if from < to then to - from else 0
  {
    if from >= to || from >= |comps| then {} else {comps[from].key} + CacheKeys(comps, from + 1, to)
  }

  /** One iteration keeps the result keys distinct. */
  lemma IterationResults(b: Batch, files: seq<InputFile>, comps: seq<Computed>, ignoreCache: bool, paused: set<nat>, i: nat)
    requires i < |files| == |comps| && KeysUnique(b.results)
    ensures KeysUnique(Iteration(b, files, comps, ignoreCache, paused, i).results)
  {
    var o := Processing(b.store, ignoreCache, comps[i]);
    PutUnique(b.results, o.result.filename, o.result);
  }

  /** One iteration adds its document's key to the cache. */
  lemma IterationCache(b: Batch, files: seq<InputFile>, comps: seq<Computed>, ignoreCache: bool, paused: set<nat>, i: nat)
    requires i < |files| == |comps|
    ensures Iteration(b, files, comps, ignoreCache, paused, i).store.cache.Keys == b.store.cache.Keys + {comps[i].key}
  {
    ProcessingStore(b.store, ignoreCache, comps[i]);
  }

  /** The loop keeps the result keys distinct: one entry per file name,
      a later document with the name of an earlier one taking its entry. */
  lemma {:induction false} LoopResults(b: Batch, files: seq<InputFile>, comps: seq<Computed>, ignoreCache: bool, c: Controls, i: nat)
    requires i <= |files| == |comps| && KeysUnique(b.results)
    ensures KeysUnique(Loop(b, files, comps, ignoreCache, c, i).results)
    decreases |files| - i
  {
    if i < |files| && !CancelledAt(c, i) {
      IterationResults(b, files, comps, ignoreCache, c.paused, i);
      LoopResults(Iteration(b, files, comps, ignoreCache, c.paused, i), files, comps, ignoreCache, c, i + 1);
    }
  }

  /** The cache gains exactly the keys of the documents the loop
      processes. */
  lemma {:induction false} LoopCache(b: Batch, files: seq<InputFile>, comps: seq<Computed>, ignoreCache: bool, c: Controls, i: nat)
    requires i <= |files| == |comps|
    ensures Loop(b, files, comps, ignoreCache, c, i).store.cache.Keys == b.store.cache.Keys + CacheKeys(comps, i, Stop(c, i, |files|))
    decreases |files| - i
  {
    var n := |files|;
    if i == n || CancelledAt(c, i) {
      assert CacheKeys(comps, i, Stop(c, i, n)) == {};
    } else {
      var it := Iteration(b, files, comps, ignoreCache, c.paused, i);
      var e := Loop(it, files, comps, ignoreCache, c, i + 1);
      IterationCache(b, files, comps, ignoreCache, c.paused, i);
      LoopCache(it, files, comps, ignoreCache, c, i + 1);
      StopStep(c, i, n);
      KeysChain(b.store.cache.Keys, it.store.cache.Keys, e.store.cache.Keys, comps[i].key,
                CacheKeys(comps, i + 1, Stop(c, i, n)), CacheKeys(comps, i, Stop(c, i, n)));
    }
  }

  lemma KeysChain(before: set<string>, mid: set<string>, after: set<string>, k: string, rest: set<string>, all: set<string>)
    requires mid == before + {k} && after == mid + rest && all == {k} + rest
    ensures after == before + all
  {
  }

  /** `after` extends `before` by events that report exactly the progress
      `progress` and then the end of the job, as their last event. */
  predicate Ends(before: seq<Event>, after: seq<Event>, progress: seq<Event>)
  {
    |after| > 0 && (after[|after| - 1].Finish?, Adds(before, after[..|after| - 1], progress)) == (true, true)
  }

  lemma EndsCompose(a: seq<Event>, b: seq<Event>, e: seq<Event>, p: seq<Event>)
    requires Adds(a, b, p) && Ends(b, e, [])
    ensures Ends(a, e, p)
  {
    AddsCompose(a, b, e[..|e| - 1], p, []);
    assert p + [] == p;
  }

  /** A log message, a status update or the result path: an event that
      reports neither progress nor the end of the job. */
  predicate Plain(e: Event)
  {
    e.Log? || e.Status? || e.ResultPath?
  }

  /** Plain events `x`, then plain events ending with the end of the job
      (`y`), add no progress and end the job once, last. */
  lemma EndsAfter(before: seq<Event>, x: seq<Event>, y: seq<Event>)
    requires forall i :: 0 <= i < |x| ==> Plain(x[i])
    requires |y| > 0 && y[|y| - 1].Finish? && forall i :: 0 <= i < |y| - 1 ==> Plain(y[i])
    ensures Ends(before, before + x + y, [])
  {
    var tail := x + y[..|y| - 1];
    ReportsNothing(tail);
    AddsBy(before, tail, []);
    assert (before + x + y)[..|before + x + y| - 1] == before + tail;
  }

  /** After the loop the job puts exactly one end-of-job event on the
      queue, as its last event. */
  lemma ConcludedEnds(target: FilePath, cancelled: bool, w: State, update: Result<Workbook>, saveError: Option<string>)
    ensures Ends(w.events, Concluded(target, cancelled, w, update, saveError).events, [])
  {
    var saving := Status("Updating Excel...", "Saving");
    if cancelled {
      EndsAfter(w.events, [], [Finish("Cancelled")]);
      assert w.events + [] == w.events;
    } else if update.Error? {
      EndsAfter(w.events, [saving], Failure(update.msg));
    } else if saveError.Some? {
      EndsAfter(w.events, [saving], [Status("Applying formatting...", "Saving")] + Failure(saveError.value));
    } else {
      EndsAfter(w.events, [saving], [Status("Applying formatting...", "Saving"), ResultPath(target), Finish("Complete")]);
    }
  }

  /** That event is `Cancelled` when the cancel event is set, `Complete`
      when the workbook was updated and saved, and the error of the update
      or of the save otherwise; only a complete run changes a workbook, and
      then only the target. */
  lemma ConcludedLast(target: FilePath, cancelled: bool, w: State, update: Result<Workbook>, saveError: Option<string>)
    ensures var r := Concluded(target, cancelled, w, update, saveError);
      var last := r.events[|r.events| - 1];
      && (r.cache, r.review) == (w.cache, w.review)
      && (cancelled ==> last == Finish("Cancelled") && r.workbooks == w.workbooks)
      && (!cancelled && update.Error? ==> last == Finish("Error: " + update.msg) && r.workbooks == w.workbooks)
      && (!cancelled && update.Ok? && saveError.Some? ==>
            last == Finish("Error: " + saveError.value) && r.workbooks == w.workbooks)
      && (!cancelled && update.Ok? && saveError.None? ==>
            last == Finish("Complete") && r.workbooks == w.workbooks[target := update.value])
  {
  }

  /** Whether a job ends before its loop: a first run whose input workbook
      is locked or missing, or cannot be copied. */
  predicate EndsEarly(job: Job, c: Controls, w: State)
  {
    !job.isRerun && (c.locked || job.excel !in w.workbooks || c.copyError.Some?)
  }

  /** The end of the loop can be reached in one place only: where the
      whole loop stops. */
  lemma StopAtStart(c: Controls, n: nat)
    ensures Stop(c, 0, n) == Processes(c, n)
  {
  }

  /** A first run whose input workbook is locked, missing or not copied puts its
      error on the queue as its one end of job, with no progress. */
  lemma EarlyEnds(s: Settings, job: Job, c: Controls, w: State, b: Batch, update: Result<Workbook>)
    requires EndsEarly(job, c, w)
    ensures Ends(w.events, Around(s, job, c, w, b, update).events, [])
  {
    var msg := if c.locked then LOCKED else if job.excel !in w.workbooks then NoSuchFile(job.excel) else c.copyError.value;
    EndsAfter(w.events, [Log(INFO, "Processing job started.")], Failure(msg));
  }

  /** Otherwise the job reports the loop's progress and then concludes with
      its one end of job. */
  lemma LateEnds(s: Settings, job: Job, c: Controls, w: State, b: Batch, update: Result<Workbook>, p: seq<Event>)
    requires !EndsEarly(job, c, w) && Adds(Start(job, w).events, b.events, p)
    ensures Ends(w.events, Around(s, job, c, w, b, update).events, p)
  {
    ReportsNothing([Log(INFO, "Processing job started.")]);
    AddsBy(w.events, [Log(INFO, "Processing job started.")], []);
    AddsCompose(w.events, Start(job, w).events, b.events, [], p);
    assert [] + p == p;
    ConcludedEnds(Target(s, job, c), CancelledAt(c, |job.files|), State(b.store.cache, b.store.review, Books(s, job, c, w), b.events), update, c.saveError);
    EndsCompose(w.events, b.events, Around(s, job, c, w, b, update).events, p);
  }

  /** Around its loop, a job puts exactly one end-of-job event on the
      queue, as its last event, and reports the loop's progress, or none
      when it ends before the loop. */
  lemma AroundEnds(s: Settings, job: Job, c: Controls, w: State, b: Batch, update: Result<Workbook>, p: seq<Event>)
    requires Adds(Start(job, w).events, b.events, p)
    ensures Ends(w.events, Around(s, job, c, w, b, update).events, if EndsEarly(job, c, w) then [] else p)
  {
    if EndsEarly(job, c, w) {
      EarlyEnds(s, job, c, w, b, update);
    } else {
      LateEnds(s, job, c, w, b, update, p);
    }
  }

  /** Every computation in `comps` is sound. */
  predicate AllSound(comps: seq<Computed>)
  {
    forall j :: 0 <= j < |comps| ==> Sound(comps[j])
  }

  lemma ComputesSound(s: Settings, files: seq<InputFile>)
    ensures AllSound(Computes(s, files))
  {
    forall j | 0 <= j < |files|
      ensures Sound(Computes(s, files)[j])
    {
      ComputeSound(s, files[j]);
    }
  }

  /** A job over sound computations puts exactly one end-of-job event on
      the queue, as its last event; before it, the progress of each
      document it processes, in order, or none when it ends before the
      loop. */
  lemma JobTrace(s: Settings, job: Job, c: Controls, w: State, comps: seq<Computed>)
    requires |comps| == |job.files| && AllSound(comps)
    ensures var n := |job.files|;
      Ends(w.events, RunOver(s, job, c, w, comps).events, if EndsEarly(job, c, w) then [] else Progressions(0, Processes(c, n), n))
  {
    var n := |job.files|;
    var b := Loop(Start(job, w), job.files, comps, job.isRerun, c, 0);
    StopAtStart(c, n);
    LoopTrace(Start(job, w), job.files, comps, job.isRerun, c, 0);
    AroundEnds(s, job, c, w, b, Loaded(Books(s, job, c, w), Target(s, job, c), s.names, b.results), Progressions(0, Processes(c, n), n));
  }

  /** A job puts exactly one end-of-job event on the queue, as its last
      event; before it, it reports `progress(j + 1, n)` for each document
      `j` it processes, in order, or no progress at all when it ends before
      the loop. */
  lemma RunTrace(s: Settings, job: Job, c: Controls, w: State)
    ensures var n := |job.files|;
      Ends(w.events, Run(s, job, c, w).events, if EndsEarly(job, c, w) then [] else Progressions(0, Processes(c, n), n))
  {
    ComputesSound(s, job.files);
    JobTrace(s, job, c, w, Computes(s, job.files));
  }
}
