/**
 * The records processing_engine.py passes around: file locations, the
 * review record of a document that found no models, the per-file result
 * dict, and the `results` dict of a job, keyed by file name in insertion
 * order.
 */
module Records {
  import opened Text

  /** A file: the folder it is in and its name within that folder. */
  datatype FilePath = FilePath(dir: string, name: string)

  /** `review_info`: why a document needs a person to look at it, with the
      text dump written for them and the document itself. */
  datatype ReviewInfo = ReviewInfo(filename: string, reason: string, txtPath: FilePath, pdfPath: FilePath)

  /** The dict `process_single_pdf` returns and caches. */
  datatype ProcessingResult = ProcessingResult(
    filename: string,
    models: string,
    author: string,
    status: string,
    ocrUsed: bool,
    reviewInfo: Option<ReviewInfo>)

  /** What the status cell of an OCR-flagged document ends with. */
  const OCR_SUFFIX := " (OCR)"

  /** The text of the status cell: the status, marked when the OCR
      pre-check flagged the document. */
  function StatusLabel(r: ProcessingResult): string
  {
    r.status + (if r.ocrUsed then OCR_SUFFIX else "")
  }

  /** A Python dict from file names to results, as its items in insertion
      order. */
  type Results = seq<(string, ProcessingResult)>

  predicate KeysUnique(m: Results)
  {
    forall i, j :: 0 <= i < j < |m| ==> m[i].0 != m[j].0
  }

  /** `m.get(k)`. */
  function Get(m: Results, k: string): (r: Option<ProcessingResult>)
    ensures r.None? <==> forall i :: 0 <= i < |m| ==> m[i].0 != k
    ensures r.Some? ==> exists i :: 0 <= i < |m| && m[i] == (k, r.value)
  {
    if m == [] then None
    else if m[0].0 == k then Some(m[0].1)
    else Get(m[1..], k)
  }

  /** `m[k] = v`: a key already present keeps its place and takes the new
      value; a new key goes last. */
  function Put(m: Results, k: string, v: ProcessingResult): (r: Results)
    ensures |r| == |m| || |r| == |m| + 1
    ensures |r| == |m| + 1 ==> r[|m|] == (k, v)
  {
    if m == [] then [(k, v)]
    else if m[0].0 == k then [(k, v)] + m[1..]
    else [m[0]] + Put(m[1..], k, v)
  }

  /** Storing under a key is seen by a later lookup of that key and by no
      other. */
  lemma {:induction false} PutGet(m: Results, k: string, v: ProcessingResult, k2: string)
    ensures Get(Put(m, k, v), k2) == if k2 == k then Some(v) else Get(m, k2)
  {
    if m != [] && m[0].0 != k {
      PutGet(m[1..], k, v, k2);
      assert Put(m, k, v)[1..] == Put(m[1..], k, v);
    }
  }

  /** Storing under a key: with distinct keys every entry keeps its place,
      the one holding the key taking the new value; the dict grows, by the
      new entry, exactly when the key was not present. */
  lemma {:induction false} PutShape(m: Results, k: string, v: ProcessingResult)
    ensures KeysUnique(m) ==> forall i :: 0 <= i < |m| ==> Put(m, k, v)[i] == (if m[i].0 == k then (k, v) else m[i])
    ensures |Put(m, k, v)| == |m| + 1 <==> forall i :: 0 <= i < |m| ==> m[i].0 != k
  {
    if m != [] && m[0].0 != k {
      PutShape(m[1..], k, v);
      assert KeysUnique(m) ==> KeysUnique(m[1..]);
    }
  }

  /** Storing keeps the keys distinct. */
  lemma PutUnique(m: Results, k: string, v: ProcessingResult)
    requires KeysUnique(m)
    ensures KeysUnique(Put(m, k, v))
  {
    var r := Put(m, k, v);
    PutShape(m, k, v);
    forall i, j | 0 <= i < j < |r|
      ensures r[i].0 != r[j].0
    {
      if j == |m| {
        assert r[i].0 == m[i].0;
      }
    }
  }

  /** With distinct keys, a lookup finds the one entry holding the key. */
  lemma {:induction false} GetUnique(m: Results, k: string, i: nat)
    requires KeysUnique(m) && i < |m| && m[i].0 == k
    ensures Get(m, k) == Some(m[i].1)
  {
    if i > 0 {
      assert m[0].0 != k;
      GetUnique(m[1..], k, i - 1);
    }
  }
}
