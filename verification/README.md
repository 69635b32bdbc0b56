# KYO QA ServiceNow Knowledge Tool — a verified model of the processing core

This project models, in Dafny, the decision logic of the KYO QA knowledge
tool. The tool reads service bulletins (PDF files) and harvests the printer
models and the author of each one. It caches every per-document result as a
JSON file, writes a text file for each document that needs a person to look
at it, and merges the results into a copy of an Excel report. A small editor
lets the user write custom regular expressions and save them to
`custom_patterns.py`.

The model has one module per concern:

- `Text` (`text.dfy`) holds the Python string operations the code relies on:
  `strip`, `in`, `replace`, `lower`, `join`, `rfind`, and a path's `stem` and
  `suffix`.
- `Records` (`records.dfy`) holds the per-document result dict and the
  insertion-ordered `results` dict of a job.
- `Harvesters` (`harvesters.dfy`) models data_harvesters.py: combined
  pattern lists, exclusion, standardisation, the sorted set of models, the
  `Author:` line, and the `"Not Found"` sentinel.
- `Ocr` (`ocr.dfy`) models ocr_utils.py: the 150-character OCR pre-check,
  the 50-character rule for trusting the text layer, the Tesseract fallback,
  and page-by-page OCR joined by a blank line.
- `Report` (`report.dfy`) models the worksheet update at the end of
  `run_processing_job`. It adds the status header, looks up the columns,
  merges each row from the first matching result, paints fills and sizes
  the columns. The `Worksheet` class does this in place, one loop per step.
- `Engine` (`engine.dfy`) models processing_engine.py. The `Workspace`
  class holds the cache folder, the review folder, the workbooks on disk and
  the progress queue. Its methods are `clear_review_folder`,
  `process_single_pdf` and `run_processing_job` with its loop, each proved
  against a specification function of the old state.
- `EngineLaws` (`engine_laws.dfy`) proves what those functions promise. It
  covers the three-way classification, exactly one completion event per
  document, the cache-hit path, the cache growing by exactly the processed
  keys, and one progress report per processed document. A job ends with
  exactly one finish event, last.
- `ReviewTool` (`review_tool.dfy`) models the non-GUI logic of
  kyo_review_tool.py:
  - the pattern suggested from a sample, with a proof that it reads back as
    the sample with its digit runs generalized;
  - the list edits of the pattern editor, as a class;
  - the text written to `custom_patterns.py`, built by nested loops.

Parameters stand for what the code asks of the outside world:

- the regular-expression engine behind `re.findall` (`HarvestConfig.findall`);
- what opening a PDF and OCR-ing its pages give (`Ocr.Document`);
- whether Tesseract was found (`tesseract`);
- whether the input workbook is locked, the timestamp, when the user
  cancels or pauses, and the error copying the input workbook or saving
  the report raises, if any (`Engine.Controls`);
- what importing `custom_patterns` gives (`custom`).

## Model

| member | source | states |
|---|---|---|
| Text.TrimLeftShape | data_harvesters.py:31 | `lstrip` removes a whitespace prefix and nothing else; the rest starts with a non-space |
| Text.TrimRightShape | data_harvesters.py:31 | `rstrip` removes a whitespace suffix and nothing else; the rest ends with a non-space |
| Text.StripShape | data_harvesters.py:31 | `strip` leaves a slice of its argument with whitespace removed only on either side, and neither end is whitespace |
| Text.StripKeeps | processing_engine.py:154 | a string without outer whitespace is its own strip |
| Text.StripEmptyIff | processing_engine.py:67 | `s.strip()` is empty exactly when `s` is only whitespace |
| Text.LastAbsent | processing_engine.py:154 | a string whose last character does not occur in a text does not occur in it |
| Text.ReplaceTail | processing_engine.py:154 | removing a suffix that occurs nowhere else gives back the rest |
| Text.ReplaceAbsent | data_harvesters.py:30 | `replace` of a non-empty string that does not occur changes nothing |
| Text.ReplaceSame | data_harvesters.py:30 | a rule that replaces a string by itself changes nothing |
| Text.Lower | data_harvesters.py:25 | `lower` keeps the length and lowers each character on its own |
| Text.JoinEmptyIff | data_harvesters.py:65 | a join with a non-empty separator is empty exactly for no items or one empty item |
| Text.RFind | processing_engine.py:25 | `rfind` gives the last position of the character, or -1 when it is absent |
| Text.StemSuffix | processing_engine.py:25 | a name is its stem followed by its suffix; the suffix is empty or a dot and more, with no dot after the first; a non-empty name has a non-empty stem |
| Records.Get | processing_engine.py:120 | `dict.get` is `None` exactly when no entry has the key; otherwise it is the value of an entry with that key |
| Records.Put | processing_engine.py:120 | `results[k] = v` grows the dict by at most one entry, and a new entry goes last |
| Records.PutGet | processing_engine.py:120 | after `results[k] = v`, a lookup of `k` gives `v` and a lookup of any other key is unchanged |
| Records.PutShape | processing_engine.py:120 | with distinct keys every entry keeps its place and the entry holding `k` takes `v`; the dict grows exactly when `k` was absent |
| Records.PutUnique | processing_engine.py:120 | storing keeps the keys distinct, so a later file with the same name replaces the earlier one |
| Records.GetUnique | processing_engine.py:120 | with distinct keys a lookup finds the one entry holding the key |
| Harvesters.Unlisted | data_harvesters.py:21 | the defaults not in the custom list: none of the custom patterns, every other default with its multiplicity, in default order |
| Harvesters.CombinedPatterns | data_harvesters.py:12-21 | the custom list first, in its order; then only defaults missing from it, in default order; nothing lost, nothing duplicated beyond the source lists |
| Harvesters.CustomPatterns | data_harvesters.py:14-20 | `getattr(custom_mod, name, [])`: the module's list under the name, or `[]` when the import failed or the module has no such list; `Harvesters.CombinedWithoutCustom` states the fallback |
| Harvesters.UnlistedByNothing | data_harvesters.py:21 | filtering by an empty custom list keeps all defaults |
| Harvesters.CombinedWithoutCustom | data_harvesters.py:14-21 | a missing or broken custom module, or one without the list, gives exactly the default list |
| Harvesters.IsExcluded | data_harvesters.py:23-25 | `is_excluded`; `Harvesters.ExcludedIff` characterises it in both directions |
| Harvesters.ExcludedIff | data_harvesters.py:23-25 | excluded exactly when some exclusion string, lower-cased, occurs in the lower-cased text; an empty list excludes nothing |
| Harvesters.ExclusionIgnoresCase | data_harvesters.py:25 | a string and its lower-cased form are excluded alike |
| Harvesters.ApplyRulesSplit | data_harvesters.py:29-30 | the rules run once each, in mapping order, each on the previous rule's output |
| Harvesters.CleanModelString | data_harvesters.py:27-31 | the loop over the rules computes the rules applied in order, then stripped; the result has no outer whitespace |
| Harvesters.LessIrreflexive | data_harvesters.py:48 | Python's string `<` is irreflexive |
| Harvesters.LessTransitive | data_harvesters.py:48 | Python's string `<` is transitive |
| Harvesters.LessTotal | data_harvesters.py:48 | any two different strings are ordered |
| Harvesters.LeastExists | data_harvesters.py:48 | a non-empty set of strings has a least member |
| Harvesters.LeastUnique | data_harvesters.py:48 | that least member is unique |
| Harvesters.SortedList | data_harvesters.py:48 | `sorted(list(s))` is strictly ascending and holds exactly the members of `s` |
| Harvesters.KeptStep | data_harvesters.py:40-44 | one more match adds its cleaned form unless it is excluded |
| Harvesters.FoundInStep | data_harvesters.py:39-44 | one more pattern adds what its matches contribute |
| Harvesters.FoundAllStep | data_harvesters.py:38-44 | one more content string adds what the patterns find in it |
| Harvesters.KeptIff | data_harvesters.py:40-44 | a model is kept exactly when it is the cleaned form of a non-excluded match |
| Harvesters.FoundInIff | data_harvesters.py:39-44 | a model is found in a content string exactly when some pattern yields it there |
| Harvesters.FoundAllIff | data_harvesters.py:38-44 | a model is found exactly when some pattern yields it in some content string |
| Harvesters.HarvestedIff | data_harvesters.py:33-44 | a harvested model is exactly the cleaned form of a non-excluded match of a combined pattern in the text or in the file name with `_` read as a space |
| Harvesters.HarvestModels | data_harvesters.py:33-48 | the nested loops return a strictly ascending list holding exactly the harvested set: its sorted list |
| Harvesters.FirstLabel | data_harvesters.py:54 | `re.search` of `^Author:` finds the first line start with the label, in any letter case, or none when there is none |
| Harvesters.SkipSpace | data_harvesters.py:54 | `\s*` consumes the longest whitespace run |
| Harvesters.LineEnd | data_harvesters.py:54 | `.*` stops at the first newline or the end of the text |
| Harvesters.HarvestAuthor | data_harvesters.py:51-60 | the author is empty or not unwanted, is one line with no outer whitespace, and is empty when no line starts with `Author:` |
| Harvesters.FirstLabelIsFirst | data_harvesters.py:54 | the search finds the first label of the text |
| Harvesters.AuthorFromFirstLabel | data_harvesters.py:54-60 | the first `Author:` line decides: the rest of that line after the whitespace, stripped, or empty when that name is unwanted |
| Harvesters.NotFoundIff | data_harvesters.py:65 | the models field is `"Not Found"` exactly for no models, one empty model, or the model `Not Found` itself |
| Harvesters.HarvestAllData | data_harvesters.py:63-68 | the record of the joined models and the author |
| Harvesters.HarvestAll | data_harvesters.py:63-68 | the record `harvest_all_data` returns: the joined sorted harvested set and the author; `Harvesters.HarvestAllData` proves the method computes it |
| Harvesters.HarvestedNothing | data_harvesters.py:63-68 | a document's models read `"Not Found"` exactly when the harvested set is at most the empty string, or exactly `Not Found` |
| Harvesters.SortedSingle | data_harvesters.py:48 | a set of one string sorts to that string alone |
| Ocr.CollectIff | ocr_utils.py:97-119 | collecting page results succeeds exactly when every page does, keeping them in page order |
| Ocr.TotalLengthOfJoin | ocr_utils.py:59 | summing page lengths measures the concatenated text |
| Ocr.IsOcrNeeded | ocr_utils.py:52-65 | `_is_ocr_needed`; `Ocr.OcrNeededIff` gives its cases |
| Ocr.OcrNeededIff | ocr_utils.py:52-65 | an error gives True; not a PDF or encrypted gives False; otherwise True exactly when the text layer has fewer than 150 characters |
| Ocr.OcrText | ocr_utils.py:90-127 | `extract_text_with_ocr` as a function of the pages; `Ocr.OcrTextWhole` and `Ocr.ExtractTextWithOcr` state what it is |
| Ocr.OcrTextWhole | ocr_utils.py:90-127 | no partial OCR text: a non-empty result needs Tesseract and every page read; then the outputs are joined in page order by a blank line |
| Ocr.ExtractTextWithOcr | ocr_utils.py:90-127 | the page loop returns the whole OCR text, or `""` without Tesseract or on any failure |
| Ocr.ExtractTextFromPdf | ocr_utils.py:67-87 | `extract_text_from_pdf`; `Ocr.ExtractionCases` and `Ocr.ExtractedWhole` state its cases |
| Ocr.ExtractionCases | ocr_utils.py:67-87 | an error gives `""`; a text layer with more than 50 characters once stripped is returned as is; else the OCR text, which is `""` without Tesseract |
| Ocr.ExtractedWhole | ocr_utils.py:67-87 | a non-empty result is the whole trusted text layer, or the OCR of every page when the layer was too short |
| Ocr.PreCheckDisagrees | ocr_utils.py:59-81 | a layer of 200 spaces passes the pre-check but extraction still goes to OCR |
| Report.IndexOf | processing_engine.py:133 | `headers.index(name)` is the first position of the name, and fails exactly when it is absent |
| Report.ColumnIndices | processing_engine.py:133 | the four columns are found exactly when all four headers exist, each at its header; otherwise it fails with the error for the first missing one |
| Report.WithStatusHeader | processing_engine.py:129-132 | a missing status header is added as a new last column, empty below; otherwise the sheet is unchanged |
| Report.MatchFrom | processing_engine.py:137-138 | the search from `k` finds a position at or after `k` |
| Report.MatchIndex | processing_engine.py:137-138 | the search finds a position within the results |
| Report.MatchFromFirst | processing_engine.py:137-142 | the search stops at the first result whose stem occurs in the description, or finds nothing when none does |
| Report.MatchFromFinds | processing_engine.py:137-142 | what the search finds is a match with no match before it |
| Report.MatchFromNone | processing_engine.py:137-142 | the search finds nothing exactly when no stem occurs |
| Report.MergeRow | processing_engine.py:135-142 | a merged row keeps its width |
| Report.MergeRowCells | processing_engine.py:136-142 | a matched row takes meta, author and status text from the first match, every other cell unchanged; an unmatched row is unchanged |
| Report.MergedCells | processing_engine.py:135-142 | the header row stays, every data row is merged |
| Report.FillColor | processing_engine.py:145-150 | `fills.get` has a colour exactly for Pass, Fail, Needs Review and OCR |
| Report.PaintRow | processing_engine.py:152-160 | painting keeps a row's width |
| Report.PaintedFills | processing_engine.py:152-160 | the header row keeps its fills, every data row is painted |
| Report.ReplaceInLabel | processing_engine.py:141 | removing ` (OCR)` from a status text, marked or not, gives back the status; the status holds no `(OCR)` |
| Report.SuffixHasMark | processing_engine.py:141 | the OCR suffix carries the `(OCR)` mark |
| Report.StatusStripped | processing_engine.py:154 | the three statuses have no outer whitespace |
| Report.LabelKey | processing_engine.py:141-154 | the fill key of a written status text is its status |
| Report.LabelMark | processing_engine.py:141-159 | a written status text holds `(OCR)` exactly when the pre-check flagged the document |
| Report.MergedRowPaint | processing_engine.py:152-160 | a merged row is filled in its status colour across, and its status cell in the OCR colour exactly when the document was flagged |
| Report.MaxLenIsLongest | processing_engine.py:163 | the column measure is the length of the longest non-empty value, or 0 |
| Report.Width | processing_engine.py:164 | widths lie between 2 and 61, 61 exactly for a longest value of 59 characters, and are at least 2 more than a value shorter than 60 |
| Report.WidthOrder | processing_engine.py:164 | width grows with the longest value, except that 59 characters give 61, wider than any longer value's 60 |
| Report.SizedColumns | processing_engine.py:162-164 | every column of the sheet gets a width, widths of other columns are kept, no others are added |
| Report.SizedByLongest | processing_engine.py:162-164 | each column gets the width of its longest value |
| Report.SizedKeepsOthers | processing_engine.py:162-164 | widths set for columns beyond the sheet are kept |
| Report.UpdatedSheet | processing_engine.py:129-164 | the worksheet update: status header, column lookup, merge, fills and widths, or the header error; the `Report.Updated*` lemmas state what it keeps and changes |
| Report.UpdatedSheetFails | processing_engine.py:129-133 | the update fails exactly when the description, meta or author header is missing, with the error for the first one; otherwise rows and shape are kept |
| Report.UpdatedRowColoured | processing_engine.py:135-160 | a row matched first by a Pass, Fail or Needs Review result gets its status text, its status colour across, and the OCR colour on its status cell exactly when flagged |
| Report.MergedPainted | processing_engine.py:135-160 | the same for the merge and paint steps on a sheet |
| Report.UpdatedWidths | processing_engine.py:162-164 | every column of the updated sheet is sized by its longest value, between 2 and 61 |
| Report.Worksheet.constructor | processing_engine.py:127-128 | the active sheet holds the loaded workbook |
| Report.Worksheet.Headers | processing_engine.py:129 | the header row is never empty |
| Report.Worksheet.AddStatusHeader | processing_engine.py:130-132 | the sheet becomes the sheet with the status header added when it was missing |
| Report.Worksheet.MergeResults | processing_engine.py:135-142 | the row loop leaves the merged cells, with fills and widths unchanged |
| Report.Worksheet.ApplyFills | processing_engine.py:152-160 | the formatting loop leaves the painted fills, with cells and widths unchanged |
| Report.Worksheet.SizeColumns | processing_engine.py:162-164 | the width loop leaves the sized widths, with cells and fills unchanged |
| Report.UpdateWorkbook | processing_engine.py:127-164 | the in-place update of the active sheet gives the updated sheet, or the error that ends the job |
| Engine.Decimal | processing_engine.py:25 | `str(size)` is a non-empty string of decimal digits |
| Engine.CacheName | processing_engine.py:23-27 | `get_cache_path`: stem, `_`, size or `unknown`, `.json`; `Engine.CacheKeyInjective` shows distinct documents get distinct names |
| Engine.DecimalRoundTrip | processing_engine.py:25 | the digits of a size read back as the size |
| Engine.SplitAtLast | processing_engine.py:25 | two names joined by a separator absent from their tails split apart again |
| Engine.DecimalNotUnknown | processing_engine.py:25-27 | no size prints as `unknown` |
| Engine.SizeTextInjective | processing_engine.py:23-27 | different sizes, or a size and a missing file, give different key tails |
| Engine.CacheKeyInjective | processing_engine.py:23-27 | two cache names are equal exactly when stems and sizes are equal |
| Engine.ProcessesStops | processing_engine.py:108-110 | the loop processes documents while no cancel is seen and stops at the first check that sees one |
| Engine.Cleared | processing_engine.py:15-21 | clearing removes exactly the `.txt` files and keeps every other file's content |
| Engine.Processing | processing_engine.py:30-87 | `process_single_pdf` given what a fresh computation yields: the cache hit or the recomputing branch; `EngineLaws.ProcessingStore` and `EngineLaws.ProcessingReported` state its effect |
| Engine.Stored | processing_engine.py:53-86 | the recomputing branch: corrupt-cache warning, review text file, cache write, completion event; `EngineLaws.StoredReported` states its events |
| Engine.Run | processing_engine.py:89-172 | `run_processing_job` over the documents' fresh computations; `EngineLaws.RunTrace` states what it reports |
| Engine.RunOver | processing_engine.py:89-172 | the job given its computations: the loop, then the job around it; `EngineLaws.JobTrace` states its trace |
| Engine.Around | processing_engine.py:96-104 | the early exits for a locked or missing input workbook or a failing copy, else the conclusion after the loop; `EngineLaws.AroundEnds` states its ending |
| Engine.Loaded | processing_engine.py:127-164 | loading the target workbook and updating its sheet, or the error that ends the job |
| Engine.Concluded | processing_engine.py:122-172 | `Cancelled`, or the save of the updated workbook, or the error of the update or of the save; `EngineLaws.ConcludedLast` states its cases |
| Engine.Classify | processing_engine.py:56-82 | the pre-check, extraction and classification give the fresh record, its events and the extracted text |
| Engine.Workspace.ClearReviewFolder | processing_engine.py:15-21 | the loop over the `.txt` files leaves the cleared review folder, everything else unchanged |
| Engine.Workspace.ProcessSinglePdf | processing_engine.py:30-87 | the call returns the record, leaves the folders and appends the events the specification function gives, workbooks unchanged |
| Engine.Workspace.LoadCached | processing_engine.py:39-52 | a cache hit returns the stored record, announced as loaded, folders unchanged |
| Engine.Workspace.Recompute | processing_engine.py:56-87 | a miss computes the record afresh and stores it as the specification function gives |
| Engine.Workspace.WriteRecord | processing_engine.py:72-86 | the writes give the folders and events of the recomputing branch |
| Engine.Workspace.RunProcessingJob | processing_engine.py:89-172 | the job leaves the state the specification function of the old state gives |
| Engine.Workspace.Conclude | processing_engine.py:122-172 | after the loop: cancel, or the workbook loaded, updated and saved, or the error of the update or of the save |
| Engine.Workspace.ProcessFiles | processing_engine.py:106-120 | the loop leaves the folders, results and events of the loop specification |
| Engine.Workspace.ProcessNext | processing_engine.py:108-120 | one iteration: pause and progress reports, then the document, its result stored under its name |
| EngineLaws.FreshClassification | processing_engine.py:61-82 | Fail exactly for blank text, with the failure text and no author; Needs Review exactly when text was found but no models; Pass otherwise; review info exactly for Needs Review; `ocr_used` is the pre-check |
| EngineLaws.ClassifyEventsQuiet | processing_engine.py:62-78 | the classification events hold no completion, progress or finish, and a review item exactly for Needs Review |
| EngineLaws.StoredReported | processing_engine.py:84-86 | the recomputing branch reports one completion with its status, after the computation's events |
| EngineLaws.CachedReported | processing_engine.py:46-51 | a cache hit reports the stored record as computing it would |
| EngineLaws.ComputeSound | processing_engine.py:56-82 | every fresh computation reports only a review item, and only when it needs review |
| EngineLaws.ProcessingReported | processing_engine.py:37-86 | a call reports exactly one completion with its status, a review item exactly for Needs Review, and no progress or finish |
| EngineLaws.ProcessedReported | processing_engine.py:30-87 | the same for every call of `process_single_pdf` |
| EngineLaws.ProcessingStore | processing_engine.py:39-86 | a call leaves its record in the cache under the document's key and changes no other entry; a cache hit returns the stored record and leaves the review folder alone; otherwise the record is the fresh one and the review folder gains the document's text file exactly when it needs review |
| EngineLaws.SecondCallHits | processing_engine.py:39-52 | a second call on the same key, cache not bypassed, returns the first call's record and changes nothing |
| EngineLaws.IterationStartTrace | processing_engine.py:111-115 | an iteration reports its progress once, after any pause status |
| EngineLaws.IterationAdds | processing_engine.py:108-120 | an iteration only appends events, reporting its progress and no finish |
| EngineLaws.LoopTrace | processing_engine.py:108-120 | the loop only appends events, reporting `progress(j + 1, n)` for each document it processes, in order, and no finish |
| EngineLaws.StopStep | processing_engine.py:109-110 | an iteration that runs does not move where the loop stops |
| EngineLaws.IterationResults | processing_engine.py:119-120 | an iteration keeps the result keys distinct |
| EngineLaws.IterationCache | processing_engine.py:116-120 | an iteration adds its document's key to the cache |
| EngineLaws.LoopResults | processing_engine.py:107-120 | the loop keeps one result per file name |
| EngineLaws.LoopCache | processing_engine.py:107-120 | the cache gains exactly the keys of the processed documents |
| EngineLaws.ConcludedEnds | processing_engine.py:122-172 | after the loop the job puts exactly one finish event on the queue, last, and no progress |
| EngineLaws.ConcludedLast | processing_engine.py:122-172 | that event is `Cancelled` (workbooks untouched), `Complete` (only the target saved), or the error of the update or of a failing save (workbooks untouched) |
| EngineLaws.StopAtStart | processing_engine.py:108-110 | the loop from the start stops where the whole loop stops |
| EngineLaws.EarlyEnds | processing_engine.py:96-104 | a first run with a locked or missing workbook, or a copy that fails, ends with its one error event and no progress |
| EngineLaws.LateEnds | processing_engine.py:105-172 | otherwise the loop's progress is followed by one finish event, last |
| EngineLaws.AroundEnds | processing_engine.py:89-172 | around the loop, the job ends with one finish event and reports the loop's progress, or none when it ends early |
| EngineLaws.JobTrace | processing_engine.py:89-172 | a job over sound computations ends with one finish event, after one progress report per processed document, in order |
| EngineLaws.RunTrace | processing_engine.py:89-172 | every job ends with exactly one finish event, last, after `progress(j + 1, n)` for each processed document, or no progress when it ends before the loop |
| ReviewTool.SkipDigits | kyo_review_tool.py:27 | dropping a digit run leaves a shorter text that starts with a non-digit |
| ReviewTool.GeneralizeNoDigits | kyo_review_tool.py:27 | the generalized text holds no digit |
| ReviewTool.EscapeDigits | kyo_review_tool.py:23-27 | escaping never touches digits, so digit runs are the same before and after escaping |
| ReviewTool.BodyReadsBack | kyo_review_tool.py:23-27 | the generalized, escaped text reads as the sample: each maximal digit run as `\d+`, every other character as itself, in order |
| ReviewTool.PiecesKeepOrder | kyo_review_tool.py:23 | the non-digit characters come back in their original order |
| ReviewTool.GenerateRegex | kyo_review_tool.py:14-30 | `generate_regex`; `ReviewTool.GenerateRegexShape` and `ReviewTool.BodyReadsBack` state what it produces |
| ReviewTool.GenerateRegexShape | kyo_review_tool.py:14-30 | a blank sample gives `""`; any other gives `\b`, a digit-free body that reads back as the stripped sample, and `\b` |
| ReviewTool.ReplacedAt | kyo_review_tool.py:167-169 | replacing entry `i` keeps the length and every other entry |
| ReviewTool.RemovedAt | kyo_review_tool.py:194 | deleting entry `i` keeps the entries before it and moves the later ones up by one |
| ReviewTool.RemoveAdded | kyo_review_tool.py:182-195 | removing what was just appended restores the list |
| ReviewTool.RemoveReplaced | kyo_review_tool.py:157-195 | removing a replaced entry gives the same list as removing the original |
| ReviewTool.PatternEditor.constructor | kyo_review_tool.py:108-120 | the editor keeps the name of the list it edits and opens with the stored list, or an empty one, nothing selected and an empty entry box |
| ReviewTool.PatternEditor.Suggest | kyo_review_tool.py:217-227 | a highlighted sample puts the suggested pattern in the entry box; a blank one only warns |
| ReviewTool.PatternEditor.Select | kyo_review_tool.py:171-180 | selecting copies the selected pattern to the entry box; no selection clears it |
| ReviewTool.PatternEditor.Update | kyo_review_tool.py:157-169 | a non-empty stripped entry replaces the selected pattern, or is appended with nothing selected; other entries unchanged; an empty entry only warns |
| ReviewTool.PatternEditor.Add | kyo_review_tool.py:182-188 | a non-empty stripped entry is appended and the box cleared; an empty one only warns |
| ReviewTool.PatternEditor.Remove | kyo_review_tool.py:190-195 | a confirmed removal deletes only the selected entry and clears the selection and box; otherwise nothing changes |
| ReviewTool.PatternEditor.Save | kyo_review_tool.py:121-155 | a confirmed save writes the file text for the edited list, under the name the window was opened for, and the other stored lists; otherwise nothing |
| ReviewTool.ListsToSave | kyo_review_tool.py:129-140 | the lists written, in order; `ReviewTool.ListsToSaveKeeps` states what it holds |
| ReviewTool.ListsToSaveKeeps | kyo_review_tool.py:129-140 | the edited list comes first under its own name; every other known list keeps its stored patterns; no name is written twice; an unimportable module leaves only the edited list |
| ReviewTool.CollectLists | kyo_review_tool.py:129-140 | the dict-building loop gives the lists to save, in order |
| ReviewTool.PatternFile | kyo_review_tool.py:142-149 | the file text written; `ReviewTool.BuildPatternFile` proves the loops build it and `ReviewTool.PatternLineReadsBack` which lines read back |
| ReviewTool.BuildPatternFile | kyo_review_tool.py:142-149 | the nested loops give the header, then per list `NAME = [`, one raw-literal line per pattern with `'` escaped, and `]` |
| ReviewTool.RawBodySafe | kyo_review_tool.py:147 | escaping changes nothing in a pattern without quotes |
| ReviewTool.RawReadsBack | kyo_review_tool.py:148 | a raw literal body without quotes and with paired backslashes reads back as itself |
| ReviewTool.PatternLineReadsBack | kyo_review_tool.py:147-148 | a saved line for such a pattern reads back as the pattern |
| ReviewTool.SavedQuoteChanges | kyo_review_tool.py:147-148 | a saved `'` reads back as `\'` |
| ReviewTool.SavedQuoteTwiceBreaks | kyo_review_tool.py:147-148 | saving `\'` again closes the literal after the doubled backslash and leaves a quote that opens a literal never closed |
| ReviewTool.SavedBackslashBreaks | kyo_review_tool.py:147-148 | a saved pattern ending in `\` leaves a literal that never closes |
| ReviewTool.QuoteRoundTrip | kyo_review_tool.py:147-148 | every pattern, written as an ordinary escaped literal, reads back as itself |
| ReviewTool.QuotedLineReadsBack | kyo_review_tool.py:147-148 | a line written that way reads back as the pattern, leaving `,` and the newline |

## Left out

- I/O is modelled by its outcomes, not as code. This covers PyMuPDF, Tesseract and OpenCV, openpyxl load and save, `shutil.copy`, JSON encoding and decoding, and file writes. Each becomes the value it gives; `shutil.copy` and `workbook.save` also take the error they may raise as a parameter (`Engine.Controls`), whose message is not derived. A write that fails inside `process_single_pdf` is not modelled; neither is a save failure in the review tool, which shows an error dialog.
- Threads, `queue.Queue` and the Tk main loop are not modelled. The queue is the sequence of events put on it.
- `time.sleep` pause polling becomes one status event per paused iteration. The cancel check happens only before that wait, as in the code.
- The regular-expression engine behind `re.findall` is a parameter. `^Author:\s*(.*)` is modelled by hand. `\d` is ASCII digits only (Unicode `Nd` digits are not covered). `str.lower` lowers ASCII letters only.
- `re.escape` uses the special-character set of Python 3.7 and later.
- Engine.Workspace.RunProcessingJob: the retry with `ignore_cache=True` (processing_engine.py:117-118) is not modelled. `process_single_pdf` always returns a dict, so that branch never runs.
- Engine.Workspace.ProcessSinglePdf: exceptions other than a corrupt cache file are not modelled. In the code they escape to the job's handler.
- The order of `glob('*.pdf')` is whatever list of documents the job is given.
- The worksheet is a rectangle of string-or-empty cells. A sheet that is not a rectangle counts as an unreadable workbook.
- `ocr_used` is what `_is_ocr_needed` returned (processing_engine.py:61,68,82), not whether OCR ran. A non-PDF or encrypted document is pre-checked as not needing OCR.
- A first run that is cancelled has already copied the workbook. A column whose longest value has 59 characters is set to 61 (see `Report.WidthOrder`).
- A harvest that yields only the empty string or only `Not Found` gives Needs Review (see `Harvesters.NotFoundIff`).
- `Engine.Computed` bundles what computing a document afresh yields: names, record, events and text. The loop specification takes these as given, and `Engine.ComputedFor` ties them to the documents.
- ReviewTool.PatternEditor: Tk's selection is a single optional index. An edit through delete and insert clears it. The remove button's enabled state is not modelled.
- ReviewTool.PatternEditor.Save: the confirmation dialog is a boolean. Closing the window is not modelled.
- `test_pattern` and `load_text_file` of the review window are not modelled. They run the regex engine and read files into a Tk widget.
- ReviewTool.ReadRaw and ReviewTool.ReadQuoted model only a single-quoted literal on one line, with the escapes `Quote` emits.
- Engine.CacheEntry: a cache file that parses and has `"status"` but lacks `"filename"`, `"models"`, `"author"` or `"ocr_used"` (one left by an earlier version of the tool) is not modelled. The code returns it (processing_engine.py:42-52) and the job then fails with a `KeyError` at line 120 or 139-141; the model only knows complete records.
- Engine.Loaded: an unreadable (corrupt) workbook gets the message of a missing file; openpyxl raises a different error there, and its text is not modelled.
- Engine.NoSuchFile: the path is quoted with plain single quotes; Python writes it with `repr`, which differs for names holding a quote or a backslash.
- Report.NotInList: the header name is quoted with plain single quotes, not with `repr`.
- Engine.PathText: `str(path)` joins with `/`; on Windows the separator is `\`.
- Engine.Cleared: an unlink that fails (processing_engine.py:18-21) is printed and the file kept; the model removes every `.txt` file. `glob("*.txt")` ignores letter case on Windows; the model matches `.txt` exactly.

## Findings

| source | as written | input that shows it | evidently intended | confidence | as-written member | corrected member |
|---|---|---|---|---|---|---|
| kyo_review_tool.py:147-148 | each `'` in a pattern becomes `\'` inside a raw literal `r'...'`; Python keeps both characters of `\'` in a raw string | the pattern `'` is saved as `r'\''`, which reads back as `\'`; saving that again writes `r'\\'',`, whose leftover quote opens a literal that never closes, so the second save breaks `custom_patterns.py` (`ReviewTool.SavedQuoteTwiceBreaks`) | a saved pattern reads back as itself | high (not executed) | ReviewTool.SavedQuoteChanges | ReviewTool.QuoteRoundTrip |
| kyo_review_tool.py:147-148 | a pattern ending in a backslash is written as `r'...\'`; the backslash escapes the closing quote, so the literal runs into the line end | the pattern `\` is saved as `r'\',`, a syntax error; `get_combined_patterns` then ignores every custom pattern | every pattern can be saved | high (not executed) | ReviewTool.SavedBackslashBreaks | ReviewTool.QuotedLineReadsBack |
