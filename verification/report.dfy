/**
 * The worksheet merge at the end of a job in processing_engine.py: the status
 * header is added when missing, the columns are found by their header names,
 * each data row takes the first result whose file stem occurs in its
 * description, rows are coloured by status, and columns are sized to their
 * longest value.
 *
 * The active sheet of a workbook is a rectangle of cell values and fills,
 * row 1 holding the headers; the widths set so far are kept by column number.
 * Cell values are strings or empty.
 */
module Report {
  import opened Text
  import opened Records

  /** A cell value: `None` or a string. */
  datatype Cell = Empty | Value(s: string)

  /** `str(cell.value)`. */
  function Str(c: Cell): string
  {
    match c
    case Empty => "None"
    case Value(s) => s
  }

  /** `if c.value`: a cell counts when it holds a non-empty string. */
  predicate Truthy(c: Cell)
  {
    c.Value? && c.s != []
  }

  /** A cell's fill: none, or a solid colour given by its RGB hex code. */
  datatype Fill = NoFill | Solid(color: string)

  const PASS := "Pass"
  const FAIL := "Fail"
  const NEEDS_REVIEW := "Needs Review"
  const OCR_KEY := "OCR"
  const PASS_COLOR := "C6EFCE"
  const FAIL_COLOR := "FFC7CE"
  const REVIEW_COLOR := "FFEB9C"
  const OCR_COLOR := "0A9BCD"
  /** What marks a status cell for the OCR colour. */
  const OCR_MARK := "(OCR)"
  /** The widest a column is set to, short columns aside. */
  const WIDTH_CAP := 60

  /** The active sheet as saved: values and fills of every cell, row by row,
      and the widths set, by column number from 1. */
  datatype Workbook = Workbook(cells: seq<seq<Cell>>, fills: seq<seq<Fill>>, widths: map<nat, nat>)

  /** At least one row and one column (a new sheet has cell A1), every row as
      wide as the header, and a fill for every cell. */
  predicate Shaped(cells: seq<seq<Cell>>, fills: seq<seq<Fill>>)
  {
    |cells| >= 1 && |cells[0]| >= 1 && |fills| == |cells|
    && forall i :: 0 <= i < |cells| ==> |cells[i]| == |cells[0]| && |fills[i]| == |cells[0]|
  }

  /** The configured header names of the four columns the merge uses. */
  datatype ColumnNames = ColumnNames(description: string, meta: string, author: string, status: string)

  /** Positions of those columns, counted from 0. */
  datatype Columns = Columns(desc: nat, meta: nat, author: nat, status: nat)

  predicate Within(cols: Columns, width: nat)
  {
    cols.desc < width && cols.meta < width && cols.author < width && cols.status < width
  }

  // ---------------------------------------------------------------------------
  // Headers

  /** `headers.index(name)`, or `None` where it raises. */
  function IndexOf(headers: seq<Cell>, name: string): (r: Option<nat>)
    ensures r.Some? ==> r.value < |headers| && headers[r.value] == Value(name)
                        && forall j :: 0 <= j < r.value ==> headers[j] != Value(name)
    ensures r.None? <==> Value(name) !in headers
  {
    IndexFrom(headers, name, 0)
  }

  function IndexFrom(headers: seq<Cell>, name: string, k: nat): (r: Option<nat>)
    requires k <= |headers|
    ensures r.Some? ==> k <= r.value < |headers| && headers[r.value] == Value(name)
                        && forall j :: k <= j < r.value ==> headers[j] != Value(name)
    ensures r.None? <==> forall j :: k <= j < |headers| ==> headers[j] != Value(name)
    decreases |headers| - k
  {
    if k == |headers| then None
    else if headers[k] == Value(name) then Some(k)
    else IndexFrom(headers, name, k + 1)
  }

  /** The message of the `ValueError` that `list.index` raises. */
  function NotInList(name: string): string
  {
    "'" + name + "' is not in list"
  }

  /** The `cols` dict: each named column's first position, looked up in the
      order description, meta, author, status; the first name missing from
      the headers ends the lookup with its error. */
  function ColumnIndices(headers: seq<Cell>, names: ColumnNames): (r: Result<Columns>)
    ensures r.Ok? <==> Value(names.description) in headers && Value(names.meta) in headers
                       && Value(names.author) in headers && Value(names.status) in headers
    ensures r.Ok? ==> Within(r.value, |headers|)
                      && headers[r.value.desc] == Value(names.description)
                      && headers[r.value.meta] == Value(names.meta)
                      && headers[r.value.author] == Value(names.author)
                      && headers[r.value.status] == Value(names.status)
    ensures r.Error? ==> r.msg == NotInList(
              if Value(names.description) !in headers then names.description
              else if Value(names.meta) !in headers then names.meta
              else if Value(names.author) !in headers then names.author
              else names.status)
  {
    match (IndexOf(headers, names.description), IndexOf(headers, names.meta),
           IndexOf(headers, names.author), IndexOf(headers, names.status))
    case (None, _, _, _) => Error(NotInList(names.description))
    case (Some(_), None, _, _) => Error(NotInList(names.meta))
    case (Some(_), Some(_), None, _) => Error(NotInList(names.author))
    case (Some(_), Some(_), Some(_), None) => Error(NotInList(names.status))
    case (Some(d), Some(m), Some(a), Some(s)) => Ok(Columns(d, m, a, s))
  }

  /** The sheet after `STATUS_COLUMN_NAME` is added when the header row lacks
      it: a new last column, headed by the name and empty below. */
  function WithStatusHeader(wb: Workbook, name: string): (r: Workbook)
    requires Shaped(wb.cells, wb.fills)
    ensures Shaped(r.cells, r.fills)
    ensures Value(name) in r.cells[0] && r.widths == wb.widths
    ensures Value(name) in wb.cells[0] ==> r == wb
    ensures Value(name) !in wb.cells[0] ==>
              |r.cells| == |wb.cells| && r.cells[0] == wb.cells[0] + [Value(name)]
              && (forall i :: 1 <= i < |wb.cells| ==> r.cells[i] == wb.cells[i] + [Empty])
              && (forall i :: 0 <= i < |wb.cells| ==> r.fills[i] == wb.fills[i] + [NoFill])
  {
    if Value(name) in wb.cells[0] then wb
    else
      var cells := seq(|wb.cells|, i requires 0 <= i < |wb.cells| =>
                        wb.cells[i] + [if i == 0 then Value(name) else Empty]);
      var fills := seq(|wb.fills|, i requires 0 <= i < |wb.fills| => wb.fills[i] + [NoFill]);
      Workbook(cells, fills, wb.widths)
  }

  // ---------------------------------------------------------------------------
  // Rows

  /** The file stem of the result at `k` occurs in the description `desc`. */
  predicate StemIn(desc: string, results: Results, k: nat)
    requires k < |results|
  {
    Contains(desc, Stem(results[k].0))
  }

  /** The position in `results` of the first result whose file stem occurs in
      the description `desc`, searching from `k`. */
  function MatchFrom(desc: string, results: Results, k: nat): (r: Option<nat>)
    requires k <= |results|
    ensures r.Some? ==> k <= r.value < |results|
    decreases |results| - k
  {
    if k == |results| then None
    else if StemIn(desc, results, k) then Some(k)
    else MatchFrom(desc, results, k + 1)
  }

  function MatchIndex(desc: string, results: Results): (r: Option<nat>)
    ensures r.Some? ==> r.value < |results|
  {
    MatchFrom(desc, results, 0)
  }

  /** The search stops at the first result whose stem occurs, and finds
      nothing when none does. */
  lemma {:induction false} MatchFromFirst(desc: string, results: Results, k: nat, i: nat)
    requires k <= i <= |results|
    requires forall j :: k <= j < i ==> !StemIn(desc, results, j)
    requires i < |results| ==> StemIn(desc, results, i)
    ensures MatchFrom(desc, results, k) == if i < |results| then Some(i) else None
    decreases i - k
  {
    if k < i {
      MatchFromFirst(desc, results, k + 1, i);
    }
  }

  /** Conversely, what the search finds is the first match. */
  lemma {:induction false} MatchFromFinds(desc: string, results: Results, k: nat)
    requires k <= |results|
    ensures var r := MatchFrom(desc, results, k);
      r.Some? ==> k <= r.value < |results| && StemIn(desc, results, r.value)
                  && forall j :: k <= j < r.value ==> !StemIn(desc, results, j)
    decreases |results| - k
  {
    if k < |results| && !StemIn(desc, results, k) {
      MatchFromFinds(desc, results, k + 1);
    }
  }

  /** The search finds nothing exactly when no stem occurs. */
  lemma {:induction false} MatchFromNone(desc: string, results: Results, k: nat)
    requires k <= |results|
    ensures MatchFrom(desc, results, k).None? <==> forall j :: k <= j < |results| ==> !StemIn(desc, results, j)
    decreases |results| - k
  {
    if k < |results| && !StemIn(desc, results, k) {
      MatchFromNone(desc, results, k + 1);
    }
  }

  /** A data row after the merge: when a result's stem occurs in its
      description, the first such result gives its meta, author and status
      cells; otherwise the row is as it was. */
  function MergeRow(row: seq<Cell>, cols: Columns, results: Results): (r: seq<Cell>)
    requires Within(cols, |row|)
    ensures |r| == |row|
  {
    match MatchIndex(Str(row[cols.desc]), results)
    case None => row
    case Some(k) =>
      var data := results[k].1;
      row[cols.meta := Value(data.models)][cols.author := Value(data.author)][cols.status := Value(StatusLabel(data))]
  }

  /** What a merged row holds: every column but meta, author and status as
      before; those three from the first matching result, in that order of
      writing, or untouched when no result matches. */
  lemma MergeRowCells(row: seq<Cell>, cols: Columns, results: Results, j: nat)
    requires Within(cols, |row|) && j < |row|
    ensures var r := MergeRow(row, cols, results);
      match MatchIndex(Str(row[cols.desc]), results)
      case None => r[j] == row[j]
      case Some(k) =>
        r[j] == (if j == cols.status then Value(StatusLabel(results[k].1))
                 else if j == cols.author then Value(results[k].1.author)
                 else if j == cols.meta then Value(results[k].1.models)
                 else row[j])
  {
  }

  function MergedCells(cells: seq<seq<Cell>>, cols: Columns, results: Results): (r: seq<seq<Cell>>)
    requires |cells| >= 1 && forall i :: 0 <= i < |cells| ==> Within(cols, |cells[i]|)
    ensures |r| == |cells| && r[0] == cells[0]
    ensures forall i :: 1 <= i < |cells| ==> r[i] == MergeRow(cells[i], cols, results)
  {
    seq(|cells|, i requires 0 <= i < |cells| => if i == 0 then cells[0] else MergeRow(cells[i], cols, results))
  }

  // ---------------------------------------------------------------------------
  // Fills

  /** `fills.get(key)`, as a colour. */
  function FillColor(key: string): (r: Option<string>)
    ensures r.Some? <==> key in {PASS, FAIL, NEEDS_REVIEW, OCR_KEY}
  {
    if key == PASS then Some(PASS_COLOR)
    else if key == FAIL then Some(FAIL_COLOR)
    else if key == NEEDS_REVIEW then Some(REVIEW_COLOR)
    else if key == OCR_KEY then Some(OCR_COLOR)
    else None
  }

  /** The status text without its OCR suffix, stripped. */
  function FillKey(status: string): string
  {
    Strip(Replace(status, OCR_SUFFIX, ""))
  }

  /** A row's fills after formatting: all of them in the colour of its fill
      key when it has one, then the status cell in the OCR colour when its
      text holds `(OCR)`. */
  function PaintRow(row: seq<Cell>, fills: seq<Fill>, status: nat): (r: seq<Fill>)
    requires status < |row| && |fills| == |row|
    ensures |r| == |fills|
  {
    var text := Str(row[status]);
    var whole := match FillColor(FillKey(text))
      case Some(c) => seq(|fills|, _ => Solid(c))
      case None => fills;
    if Contains(text, OCR_MARK) then whole[status := Solid(OCR_COLOR)] else whole
  }

  function PaintedFills(cells: seq<seq<Cell>>, fills: seq<seq<Fill>>, status: nat): (r: seq<seq<Fill>>)
    requires Shaped(cells, fills) && status < |cells[0]|
    ensures |r| == |fills| && r[0] == fills[0]
    ensures forall i :: 1 <= i < |fills| ==> r[i] == PaintRow(cells[i], fills[i], status)
  {
    seq(|fills|, i requires 0 <= i < |fills| => if i == 0 then fills[0] else PaintRow(cells[i], fills[i], status))
  }

  /** The status texts the merge writes carry no OCR mark of their own, so
      removing the suffix gives back the status. */
  lemma ReplaceInLabel(s: string)
    requires s in {PASS, FAIL, NEEDS_REVIEW}
    ensures Replace(s, OCR_SUFFIX, "") == s && Replace(s + OCR_SUFFIX, OCR_SUFFIX, "") == s
    ensures !Contains(s, OCR_MARK)
  {
    assert ')' !in s + OCR_SUFFIX[..|OCR_SUFFIX| - 1];
    LastAbsent(s + OCR_SUFFIX[..|OCR_SUFFIX| - 1], OCR_SUFFIX);
    ReplaceTail(s, OCR_SUFFIX);
    LastAbsent(s, OCR_MARK);
  }

  /** The suffix added for an OCR-flagged result carries the OCR mark. */
  lemma SuffixHasMark(s: string)
    ensures Contains(s + OCR_SUFFIX, OCR_MARK)
  {
    var text := s + OCR_SUFFIX;
    assert text[|s| + 1..|s| + 1 + |OCR_MARK|] == OCR_MARK;
    assert OccursAt(text, OCR_MARK, |s| + 1);
  }

  /** The statuses neither start nor end with whitespace. */
  lemma StatusStripped(s: string)
    requires s in {PASS, FAIL, NEEDS_REVIEW}
    ensures Strip(s) == s
  {
    if s == PASS {
      StripKeeps(PASS);
    } else if s == FAIL {
      StripKeeps(FAIL);
    } else {
      StripKeeps(NEEDS_REVIEW);
    }
  }

  /** The status text written for a Pass, Fail or Needs Review result has
      that status as its fill key, OCR suffix or not. */
  lemma LabelKey(data: ProcessingResult)
    requires data.status in {PASS, FAIL, NEEDS_REVIEW}
    ensures FillKey(StatusLabel(data)) == data.status
  {
    var s := data.status;
    ReplaceInLabel(s);
    StatusStripped(s);
    if data.ocrUsed {
      assert StatusLabel(data) == s + OCR_SUFFIX;
    } else {
      assert StatusLabel(data) == s;
    }
  }

  /** The status text written for a Pass, Fail or Needs Review result holds
      the OCR mark exactly when the pre-check flagged the document. */
  lemma LabelMark(data: ProcessingResult)
    requires data.status in {PASS, FAIL, NEEDS_REVIEW}
    ensures Contains(StatusLabel(data), OCR_MARK) <==> data.ocrUsed
  {
    if data.ocrUsed {
      SuffixHasMark(data.status);
      assert StatusLabel(data) == data.status + OCR_SUFFIX;
    } else {
      ReplaceInLabel(data.status);
      assert StatusLabel(data) == data.status;
    }
  }

  /** A row merged from a result whose status is Pass, Fail or Needs Review
      is coloured for that status across, OCR mark or not; its status cell is
      then repainted in the OCR colour exactly when the OCR pre-check flagged
      the document. */
  lemma MergedRowPaint(row: seq<Cell>, fills: seq<Fill>, cols: Columns, data: ProcessingResult, j: nat)
    requires cols.status < |row| && |fills| == |row| && j < |row|
    requires row[cols.status] == Value(StatusLabel(data)) && data.status in {PASS, FAIL, NEEDS_REVIEW}
    ensures PaintRow(row, fills, cols.status)[j]
         == if j == cols.status && data.ocrUsed then Solid(OCR_COLOR) else Solid(FillColor(data.status).value)
  {
    LabelKey(data);
    LabelMark(data);
  }

  // ---------------------------------------------------------------------------
  // Widths

  /** `max((len(str(c.value)) for c in col if c.value), default=0)` over
      column `j` of the first `n` rows. */
  function MaxLen(cells: seq<seq<Cell>>, n: nat, j: nat): nat
    requires n <= |cells| && forall i :: 0 <= i < |cells| ==> j < |cells[i]|
  {
    if n == 0 then 0
    else
      var rest := MaxLen(cells, n - 1, j);
      var last := cells[n - 1][j];
      if Truthy(last) && |last.s| > rest then |last.s| else rest
  }

  /** The measure is the length of the longest non-empty string in the
      column, or 0 when it has none. */
  lemma {:induction false} MaxLenIsLongest(cells: seq<seq<Cell>>, n: nat, j: nat)
    requires n <= |cells| && forall i :: 0 <= i < |cells| ==> j < |cells[i]|
    ensures forall i :: 0 <= i < n && Truthy(cells[i][j]) ==> |cells[i][j].s| <= MaxLen(cells, n, j)
    ensures MaxLen(cells, n, j) == 0
            || exists i :: 0 <= i < n && Truthy(cells[i][j]) && |cells[i][j].s| == MaxLen(cells, n, j)
  {
    if n > 0 {
      MaxLenIsLongest(cells, n - 1, j);
    }
  }

  /** `(max_len + 2) if max_len < 60 else 60`. */
  function Width(maxLen: nat): (w: nat)
    ensures 2 <= w <= WIDTH_CAP + 1
    ensures w == WIDTH_CAP + 1 <==> maxLen == WIDTH_CAP - 1
    ensures maxLen < WIDTH_CAP ==> w >= maxLen + 2
  {
    if maxLen < WIDTH_CAP then maxLen + 2 else WIDTH_CAP
  }

  /** Width is monotone in the longest value, except that a column whose
      longest value has 59 characters is set wider (61) than any longer one
      (60). */
  lemma WidthOrder(a: nat, b: nat)
    requires a <= b
    ensures Width(a) <= Width(b) || (a == WIDTH_CAP - 1 && Width(b) == WIDTH_CAP)
  {
  }

  /** The width the sizing loop gives column `j` (from 0). */
  function ColumnWidth(cells: seq<seq<Cell>>, j: nat): nat
    requires forall i :: 0 <= i < |cells| ==> j < |cells[i]|
  {
    Width(MaxLen(cells, |cells|, j))
  }

  /** The widths set for the columns 1 to `width` of a sheet. */
  function SizedWidths(cells: seq<seq<Cell>>, widths: map<nat, nat>, width: nat): map<nat, nat>
    requires forall i :: 0 <= i < |cells| ==> width <= |cells[i]|
  {
    if width == 0 then widths
    else SizedWidths(cells, widths, width - 1)[width := ColumnWidth(cells, width - 1)]
  }

  /** Sizing sets a width for every column of the sheet, numbered from 1,
      keeps those set for other columns, and adds no others. */
  lemma {:induction false} SizedColumns(cells: seq<seq<Cell>>, widths: map<nat, nat>, width: nat)
    requires forall i :: 0 <= i < |cells| ==> width <= |cells[i]|
    ensures forall c :: c in SizedWidths(cells, widths, width) <==> c in widths || 1 <= c <= width
  {
    if width > 0 {
      SizedColumns(cells, widths, width - 1);
    }
  }

  /** Each column of the sheet gets the width of its longest value. */
  lemma {:induction false} SizedByLongest(cells: seq<seq<Cell>>, widths: map<nat, nat>, width: nat)
    requires forall i :: 0 <= i < |cells| ==> width <= |cells[i]|
    ensures forall c :: 1 <= c <= width ==> (c in SizedWidths(cells, widths, width)
                        && SizedWidths(cells, widths, width)[c] == ColumnWidth(cells, c - 1))
  {
    if width > 0 {
      SizedByLongest(cells, widths, width - 1);
    }
  }

  /** Widths set for columns beyond the sheet are kept. */
  lemma {:induction false} SizedKeepsOthers(cells: seq<seq<Cell>>, widths: map<nat, nat>, width: nat)
    requires forall i :: 0 <= i < |cells| ==> width <= |cells[i]|
    ensures forall c :: c in widths && !(1 <= c <= width) ==> (c in SizedWidths(cells, widths, width)
                        && SizedWidths(cells, widths, width)[c] == widths[c])
  {
    if width > 0 {
      SizedKeepsOthers(cells, widths, width - 1);
    }
  }

  // ---------------------------------------------------------------------------
  // The whole update

  /** The sheet the job saves: the status header added when missing, the
      columns looked up, the data rows merged and painted, and every column
      sized; or the message of the error that ends the job. */
  function UpdatedSheet(wb: Workbook, names: ColumnNames, results: Results): Result<Workbook>
    requires Shaped(wb.cells, wb.fills)
  {
    var wide := WithStatusHeader(wb, names.status);
    match ColumnIndices(wide.cells[0], names)
    case Error(msg) => Error(msg)
    case Ok(cols) =>
      var cells := MergedCells(wide.cells, cols, results);
      Ok(Workbook(cells, PaintedFills(cells, wide.fills, cols.status), SizedWidths(cells, wide.widths, |cells[0]|)))
  }

  /** The update fails exactly when the description, meta or author header
      is missing (the status header never is), with the error for the first
      of them missing; otherwise the sheet keeps its shape and its rows. */
  lemma UpdatedSheetFails(wb: Workbook, names: ColumnNames, results: Results)
    requires Shaped(wb.cells, wb.fills)
    ensures var r := UpdatedSheet(wb, names, results);
      var h := wb.cells[0] + [Value(names.status)];
      (r.Error? <==> Value(names.description) !in h || Value(names.meta) !in h || Value(names.author) !in h)
      && (r.Error? ==> r.msg == NotInList(
            if Value(names.description) !in h then names.description
            else if Value(names.meta) !in h then names.meta
            else names.author))
      && (r.Ok? ==> Shaped(r.value.cells, r.value.fills) && |r.value.cells| == |wb.cells|)
  {
    var wide := WithStatusHeader(wb, names.status);
    var h := wb.cells[0] + [Value(names.status)];
    forall x
      ensures x in wide.cells[0] <==> x in h
    {
      if Value(names.status) in wb.cells[0] {
        assert x in h ==> x in wb.cells[0];
      }
    }
  }

  /** A data row whose description holds the stem of a Pass, Fail or Needs
      Review result, and of no result before it, ends up with that result's
      status text, coloured for that status across and, when the OCR
      pre-check flagged the document, with its status cell in the OCR
      colour. */
  lemma UpdatedRowColoured(wb: Workbook, names: ColumnNames, results: Results, i: nat, k: nat, j: nat)
    requires Shaped(wb.cells, wb.fills) && UpdatedSheet(wb, names, results).Ok?
    requires 1 <= i < |wb.cells| && k < |results| && j < |UpdatedSheet(wb, names, results).value.cells[i]|
    requires results[k].1.status in {PASS, FAIL, NEEDS_REVIEW}
    requires var wide := WithStatusHeader(wb, names.status);
      MatchIndex(Str(wide.cells[i][ColumnIndices(wide.cells[0], names).value.desc]), results) == Some(k)
    ensures var r := UpdatedSheet(wb, names, results).value;
      var cols := ColumnIndices(WithStatusHeader(wb, names.status).cells[0], names).value;
      var data := results[k].1;
      r.cells[i][cols.status] == Value(StatusLabel(data))
      && r.fills[i][j] == if j == cols.status && data.ocrUsed then Solid(OCR_COLOR) else Solid(FillColor(data.status).value)
  {
    var wide := WithStatusHeader(wb, names.status);
    var cols := ColumnIndices(wide.cells[0], names).value;
    MergedPainted(wide.cells, wide.fills, cols, results, i, k, j);
  }

  /** The same for the merge and the painting of a sheet. */
  lemma MergedPainted(cells: seq<seq<Cell>>, fills: seq<seq<Fill>>, cols: Columns, results: Results, i: nat, k: nat, j: nat)
    requires Shaped(cells, fills) && Within(cols, |cells[0]|)
    requires 1 <= i < |cells| && j < |cells[0]| && k < |results|
    requires results[k].1.status in {PASS, FAIL, NEEDS_REVIEW}
    requires MatchIndex(Str(cells[i][cols.desc]), results) == Some(k)
    ensures var m := MergedCells(cells, cols, results);
      var data := results[k].1;
      Shaped(m, fills)
      && m[i][cols.status] == Value(StatusLabel(data))
      && PaintedFills(m, fills, cols.status)[i][j]
         == if j == cols.status && data.ocrUsed then Solid(OCR_COLOR) else Solid(FillColor(data.status).value)
  {
    var m := MergedCells(cells, cols, results);
    var row := m[i];
    assert row == MergeRow(cells[i], cols, results);
    assert row[cols.status] == Value(StatusLabel(results[k].1));
    MergedRowPaint(row, fills[i], cols, results[k].1, j);
  }

  /** Every column of the updated sheet is set to between 2 and 61
      characters: 2 more than its longest value, 60 once that reaches 60. */
  lemma UpdatedWidths(wb: Workbook, names: ColumnNames, results: Results, c: nat)
    requires Shaped(wb.cells, wb.fills) && UpdatedSheet(wb, names, results).Ok?
    requires 1 <= c <= |UpdatedSheet(wb, names, results).value.cells[0]|
    ensures var r := UpdatedSheet(wb, names, results).value;
      c in r.widths && r.widths[c] == ColumnWidth(r.cells, c - 1) && 2 <= r.widths[c] <= WIDTH_CAP + 1
  {
    var wide := WithStatusHeader(wb, names.status);
    var cols := ColumnIndices(wide.cells[0], names).value;
    var cells := MergedCells(wide.cells, cols, results);
    SizedByLongest(cells, wide.widths, |cells[0]|);
  }

  // ---------------------------------------------------------------------------
  // The sheet, updated in place

  /** The active worksheet, as openpyxl holds it while the job edits it. */
  class Worksheet {
    var cells: seq<seq<Cell>>
    var fills: seq<seq<Fill>>
    var widths: map<nat, nat>

    ghost predicate Valid()
      reads this
    {
      Shaped(cells, fills)
    }

    function Contents(): Workbook
      reads this
    {
      Workbook(cells, fills, widths)
    }

    /** `workbook.active` of a loaded workbook. */
    constructor (wb: Workbook)
      requires Shaped(wb.cells, wb.fills)
      ensures Valid() && Contents() == wb
    {
      cells := wb.cells;
      fills := wb.fills;
      widths := wb.widths;
    }

    /** `[c.value for c in sheet[1]]`. */
    function Headers(): (h: seq<Cell>)
      requires Valid()
      reads this
      ensures |h| >= 1
    {
      cells[0]
    }

    /** Adds the status header as a new last column when it is missing. */
    method AddStatusHeader(name: string)
      requires Valid()
      modifies this
      ensures Valid() && Contents() == WithStatusHeader(old(Contents()), name)
    {
      if Value(name) !in cells[0] {
        var rows, colours := cells, fills;
        cells := seq(|rows|, i requires 0 <= i < |rows| => rows[i] + [if i == 0 then Value(name) else Empty]);
        fills := seq(|colours|, i requires 0 <= i < |colours| => colours[i] + [NoFill]);
      }
    }

    /** The row loop of the merge: each data row is matched against the
        results in order, and the first match fills its three cells. */
    method MergeResults(cols: Columns, results: Results)
      requires Valid() && Within(cols, |cells[0]|)
      modifies this
      ensures Valid() && fills == old(fills) && widths == old(widths)
      ensures cells == MergedCells(old(cells), cols, results)
    {
      for r := 1 to |cells|
        invariant Valid() && fills == old(fills) && widths == old(widths)
        invariant |cells| == |old(cells)| && cells[0] == old(cells)[0]
        invariant forall i :: 1 <= i < r ==> cells[i] == MergeRow(old(cells)[i], cols, results)
        invariant forall i :: r <= i < |cells| ==> cells[i] == old(cells)[i]
      {
        var desc := Str(cells[r][cols.desc]);
        var k := 0;
        while k < |results| && !StemIn(desc, results, k)
          invariant 0 <= k <= |results|
          invariant forall j :: 0 <= j < k ==> !StemIn(desc, results, j)
        {
          k := k + 1;
        }
        MatchFromFirst(desc, results, 0, k);
        if k < |results| {
          var data := results[k].1;
          var row := cells[r];
          row := row[cols.meta := Value(data.models)];
          row := row[cols.author := Value(data.author)];
          row := row[cols.status := Value(StatusLabel(data))];
          cells := cells[r := row];
        }
      }
    }

    /** The formatting loop: each data row painted by its status cell. */
    method ApplyFills(status: nat)
      requires Valid() && status < |cells[0]|
      modifies this
      ensures Valid() && cells == old(cells) && widths == old(widths)
      ensures fills == PaintedFills(old(cells), old(fills), status)
    {
      for r := 1 to |cells|
        invariant Valid() && cells == old(cells) && widths == old(widths)
        invariant |fills| == |old(fills)| && fills[0] == old(fills)[0]
        invariant forall i :: 1 <= i < r ==> fills[i] == PaintRow(cells[i], old(fills)[i], status)
        invariant forall i :: r <= i < |fills| ==> fills[i] == old(fills)[i]
      {
        var text := Str(cells[r][status]);
        var row := fills[r];
        var color := FillColor(FillKey(text));
        if color.Some? {
          for j := 0 to |row|
            invariant |row| == |fills[r]|
            invariant forall x :: 0 <= x < j ==> row[x] == Solid(color.value)
          {
            row := row[j := Solid(color.value)];
          }
          assert row == seq(|fills[r]|, _ => Solid(color.value));
        }
        if Contains(text, OCR_MARK) {
          row := row[status := Solid(OCR_COLOR)];
        }
        fills := fills[r := row];
      }
    }

    /** The width loop: every column, header included, sized by its longest
        non-empty value. */
    method SizeColumns()
      requires Valid()
      modifies this
      ensures Valid() && cells == old(cells) && fills == old(fills)
      ensures widths == SizedWidths(cells, old(widths), |cells[0]|)
    {
      var rows := cells;
      ghost var start := widths;
      assert forall i :: 0 <= i < |rows| ==> |rows[i]| == |rows[0]|;
      for c := 0 to |rows[0]|
        invariant cells == rows && fills == old(fills)
        invariant widths == SizedWidths(rows, start, c)
      {
        widths := widths[c + 1 := Width(MaxLen(rows, |rows|, c))];
      }
    }
  }

  /** The update of `run_processing_job` on a loaded workbook: the status
      header added, the columns found, the results merged, the rows
      coloured and the columns sized, all on its active sheet. */
  method UpdateWorkbook(wb: Workbook, names: ColumnNames, results: Results) returns (r: Result<Workbook>)
    requires Shaped(wb.cells, wb.fills)
    ensures r == UpdatedSheet(wb, names, results)
  {
    var sheet := new Worksheet(wb);
    sheet.AddStatusHeader(names.status);
    var headers := sheet.Headers();
    match ColumnIndices(headers, names)
    case Error(msg) =>
      return Error(msg);
    case Ok(cols) =>
      sheet.MergeResults(cols, results);
      sheet.ApplyFills(cols.status);
      sheet.SizeColumns();
      return Ok(sheet.Contents());
  }
}
