/**
 * `test_classifier`: the resumable batch-scoring job. The input CSV is a
 * table of optional cells (`None` is a NaN cell); the predictions file is an
 * object whose content the job replaces after every chunk.
 */
module Batch {
  import opened Wrappers
  import opened Chars
  import opened Cleaning
  import opened Classifier
  import opened Csv
  import opened Seqs

  /** One row of the predictions file (the timestamp column is not modelled). */
  datatype Record = Record(originalText: string, cleanedText: string, category: string, score: real)

  /** What the predictions path holds before a run. */
  datatype Stored = Absent | Unreadable | Saved(rows: seq<Record>)

  const MaxStored: nat := 500

  /** The record the job writes for one input cell. */
  function RowRecord(cell: Option<string>, model: ToxicModel, nlp: Nlp): Record {
    match cell
    case None => Record("", "", "EMPTY", 0.0)
    case Some(s) =>
      if AllSpace(s) then Record(s, "", "EMPTY", 0.0)
      else CleanedRecord(s, CleanText(cell, nlp), ClassifyDm(model, cell, nlp))
  }

  /** The record of a non-blank cell once cleaned; the verdict is read only
    * when the cleaned text is not empty. */
  function CleanedRecord(s: string, cleaned: string, v: Verdict): (r: Record)
    ensures r.originalText == Truncate(s, MaxStored)
    ensures |r.cleanedText| <= MaxStored
    ensures |r.cleanedText| <= |cleaned| && r.cleanedText == cleaned[..|r.cleanedText|]
  {
    if cleaned == "" then Record(Truncate(s, MaxStored), "", "EMPTY", 0.0)
    else
      match v.score
      case Num(x) => Record(Truncate(s, MaxStored), Truncate(cleaned, MaxStored), v.category, x)
      case NotNumeric => Record(Truncate(s, MaxStored), "", "ERROR", 0.0)
  }

  /** The per-row rules: missing, blank and clean-to-nothing cells are EMPTY
    * with score 0.0 and are not classified; a score `float()` rejects makes
    * the row ERROR; stored texts of classified rows are cut to 500 characters. */
  lemma RowRecordRules(cell: Option<string>, model: ToxicModel, nlp: Nlp)
    ensures var r := RowRecord(cell, model, nlp);
      && |r.cleanedText| <= MaxStored
      && (cell.None? ==> r == Record("", "", "EMPTY", 0.0))
      && (cell.Some? && AllSpace(cell.value) ==> r == Record(cell.value, "", "EMPTY", 0.0))
      && (cell.Some? && !AllSpace(cell.value) ==> r.originalText == Truncate(cell.value, MaxStored))
      && (cell.Some? && CleanText(cell, nlp) == "" ==> r.category == "EMPTY" && r.score == 0.0 && r.cleanedText == "")
      && (cell.Some? && !AllSpace(cell.value) && CleanText(cell, nlp) != "" ==>
            var v := ClassifyDm(model, cell, nlp);
            && (v.score.NotNumeric? ==> r == Record(Truncate(cell.value, MaxStored), "", "ERROR", 0.0))
            && (v.score.Num? ==> r.category == v.category && r.score == v.score.value &&
                                 r.cleanedText == Truncate(CleanText(cell, nlp), MaxStored)))
  {
    match cell
    case None =>
    case Some(s) =>
      if !AllSpace(s) {
        var r := CleanedRecord(s, CleanText(cell, nlp), ClassifyDm(model, cell, nlp));
        assert RowRecord(cell, model, nlp) == r;
      }
  }

  /** Cells that are missing, blank or clean to nothing never reach the
    * classifier: the record is the same whatever the model. */
  lemma EmptyRowsSkipClassifier(cell: Option<string>, m1: ToxicModel, m2: ToxicModel, nlp: Nlp)
    requires cell.None? || AllSpace(cell.value) || CleanText(cell, nlp) == ""
    ensures RowRecord(cell, m1, nlp) == RowRecord(cell, m2, nlp)
  {
  }

  /** Exactly one record per cell, in input order. */
  function Records(cells: seq<Option<string>>, model: ToxicModel, nlp: Nlp): (r: seq<Record>)
    ensures |r| == |cells|
  {
    if cells == [] then [] else [RowRecord(cells[0], model, nlp)] + Records(cells[1..], model, nlp)
  }

  lemma {:induction false} RecordsAt(cells: seq<Option<string>>, model: ToxicModel, nlp: Nlp, i: nat)
    requires i < |cells|
    ensures Records(cells, model, nlp)[i] == RowRecord(cells[i], model, nlp)
  {
    if i > 0 {
      RecordsAt(cells[1..], model, nlp, i - 1);
    }
  }

  lemma {:induction false} RecordsAppend(a: seq<Option<string>>, b: seq<Option<string>>, model: ToxicModel, nlp: Nlp)
    ensures Records(a + b, model, nlp) == Records(a, model, nlp) + Records(b, model, nlp)
  {
    if a == [] {
      assert a + b == b;
    } else {
      assert (a + b)[1..] == a[1..] + b;
      RecordsAppend(a[1..], b, model, nlp);
    }
  }

  /** The rows a run resumes from: those of a readable file, else none. */
  function ResumeRows(stored: Stored): (rows: seq<Record>)
    ensures stored.Saved? ==> rows == stored.rows
    ensures !stored.Saved? ==> rows == []
  {
    match stored
    case Saved(rows) => rows
    case _ => []
  }

  /** The content a completed run leaves, from the rows it resumed from. */
  function Completed(base: seq<Record>, cells: seq<Option<string>>, model: ToxicModel, nlp: Nlp): (r: seq<Record>)
    ensures |base| >= |cells| ==> r == base
    ensures |base| < |cells| ==> |r| == |cells| && r[..|base|] == base
  {
    if |base| >= |cells| then base else base + Records(cells[|base|..], model, nlp)
  }

  /** Resuming from the checkpoint of an interrupted run over the same input
    * gives what an uninterrupted run gives. */
  lemma ResumeMatchesFreshRun(n: nat, cells: seq<Option<string>>, model: ToxicModel, nlp: Nlp)
    requires n <= |cells|
    ensures Completed(Records(cells[..n], model, nlp), cells, model, nlp) == Completed([], cells, model, nlp)
  {
    assert cells[..n] + cells[n..] == cells;
    RecordsAppend(cells[..n], cells[n..], model, nlp);
    assert cells[0..] == cells;
    assert [] + Records(cells, model, nlp) == Records(cells, model, nlp);
  }

  /** A run resumed from a completed run changes nothing. */
  lemma ResumeIsIdempotent(base: seq<Record>, cells: seq<Option<string>>, model: ToxicModel, nlp: Nlp)
    ensures Completed(Completed(base, cells, model, nlp), cells, model, nlp) == Completed(base, cells, model, nlp)
  {
  }

  /** A chunk window `[start, end)`. */
  datatype Window = Window(start: nat, end: nat)

  /** The windows `[b, min(b + size, total))` for `b` in `range(from, total, size)`. */
  function Windows(from: nat, total: nat, size: nat): (ws: seq<Window>)
    requires size > 0
    ensures forall w :: w in ws ==> from <= w.start < w.end <= total
    decreases total - from
  {
    if from >= total then []
    else [Window(from, if from + size < total then from + size else total)] + Windows(from + size, total, size)
  }

  /** The windows tile `[from, total)`: each non-empty and at most `size`
    * long, each starting where the previous ended, the first at `from`
    * and the last ending at `total`. */
  lemma {:induction false} WindowsTile(from: nat, total: nat, size: nat)
    requires size > 0
    ensures var ws := Windows(from, total, size);
      && (from >= total <==> ws == [])
      && (ws != [] ==> ws[0].start == from && ws[|ws| - 1].end == total)
      && (forall i :: 0 <= i < |ws| ==> ws[i].start < ws[i].end <= ws[i].start + size)
      && (forall i :: 0 <= i < |ws| - 1 ==> ws[i].end == ws[i + 1].start)
    decreases total - from
  {
    if from < total {
      var ws := Windows(from, total, size);
      var rest := Windows(from + size, total, size);
      WindowsTile(from + size, total, size);
      assert ws == [ws[0]] + rest;
      assert forall i :: 1 <= i < |ws| ==> ws[i] == rest[i - 1];
    }
  }

  /** The predictions file. `history` lists every content saved to it, oldest first. */
  class PredictionsFile {
    var content: Stored
    ghost var history: seq<seq<Record>>

    constructor (initial: Stored)
      ensures content == initial && history == []
    {
      content := initial;
      history := [];
    }

    /** `results_df.to_csv(output_path)`: the whole content is replaced. */
    method Save(rows: seq<Record>)
      modifies this
      ensures content == Saved(rows)
      ensures history == old(history) + [rows]
    {
      content := Saved(rows);
      history := history + [rows];
    }
  }

  /** The inner loop over one chunk's cells: one record per cell, in order. */
  method ScoreChunk(cells: seq<Option<string>>, model: ToxicModel, nlp: Nlp) returns (chunk: seq<Record>)
    ensures chunk == Records(cells, model, nlp)
  {
    chunk := [];
    var i := 0;
    while i < |cells|
      invariant 0 <= i <= |cells|
      invariant chunk == Records(cells[..i], model, nlp)
    {
      assert cells[..i + 1] == cells[..i] + [cells[i]];
      RecordsAppend(cells[..i], [cells[i]], model, nlp);
      chunk := chunk + [RowRecord(cells[i], model, nlp)];
      i := i + 1;
    }
    assert cells[..i] == cells;
  }

  /** The contents saved after each window: the resumed rows followed by
    * the records of every row up to the window's end. */
  function Snapshots(base: seq<Record>, cells: seq<Option<string>>, ws: seq<Window>, model: ToxicModel, nlp: Nlp): (ss: seq<seq<Record>>)
    requires forall w :: w in ws ==> |base| <= w.end <= |cells|
    ensures |ss| == |ws|
    ensures forall k :: 0 <= k < |ws| ==> ws[k] in ws && ss[k] == base + Records(cells[|base|..ws[k].end], model, nlp)
  {
    seq(|ws|, k requires 0 <= k < |ws| => assert ws[k] in ws; base + Records(cells[|base|..ws[k].end], model, nlp))
  }

  lemma SnapshotsAppend(base: seq<Record>, cells: seq<Option<string>>, ws: seq<Window>, w: Window, model: ToxicModel, nlp: Nlp)
    requires forall v :: v in ws ==> |base| <= v.end <= |cells|
    requires |base| <= w.end <= |cells|
    ensures Snapshots(base, cells, ws + [w], model, nlp) ==
              Snapshots(base, cells, ws, model, nlp) + [base + Records(cells[|base|..w.end], model, nlp)]
  {
  }

  /** Saving after one more window extends the saved history by that window's snapshot. */
  lemma {:induction false} SavedWindow(h0: seq<seq<Record>>, base: seq<Record>, cells: seq<Option<string>>, ws: seq<Window>,
                                       w: Window, model: ToxicModel, nlp: Nlp)
    requires forall v :: v in ws ==> |base| <= v.end <= |cells|
    requires |base| <= w.end <= |cells|
    ensures h0 + Snapshots(base, cells, ws + [w], model, nlp) ==
              (h0 + Snapshots(base, cells, ws, model, nlp)) + [base + Records(cells[|base|..w.end], model, nlp)]
  {
    SnapshotsAppend(base, cells, ws, w, model, nlp);
    AppendAssoc(h0, Snapshots(base, cells, ws, model, nlp), [base + Records(cells[|base|..w.end], model, nlp)]);
  }

  /** Taking the next window off the ones still to do. */
  lemma {:induction false} NextWindow(start: nat, b: nat, total: nat, size: nat, done: seq<Window>)
    requires size > 0 && start <= b < total
    requires Windows(start, total, size) == done + Windows(b, total, size)
    requires forall w :: w in done ==> start <= w.end <= total
    ensures var e := if b + size < total then b + size else total;
      && Windows(start, total, size) == (done + [Window(b, e)]) + Windows(b + size, total, size)
      && forall w :: w in done + [Window(b, e)] ==> start <= w.end <= total
  {
    var e := if b + size < total then b + size else total;
    assert Windows(b, total, size) == [Window(b, e)] + Windows(b + size, total, size);
    AppendAssoc(done, [Window(b, e)], Windows(b + size, total, size));
  }

  /** The chunk loop: from the first row not yet in `base`, one window at a
    * time, append the window's records and save the whole content. */
  method ScoreRemaining(cells: seq<Option<string>>, base: seq<Record>, batchSize: nat, out: PredictionsFile,
                        model: ToxicModel, nlp: Nlp)
    requires batchSize > 0
    modifies out
    ensures var ws := Windows(|base|, |cells|, batchSize);
      && out.history == old(out.history) + Snapshots(base, cells, ws, model, nlp)
      && (ws == [] ==> out.content == old(out.content))
      && (ws != [] ==> out.content == Saved(Completed(base, cells, model, nlp)))
  {
    var results := base;
    var start := |base|;
    var total := |cells|;
    ghost var h0 := out.history;
    ghost var done: seq<Window> := [];
    if start >= total {
      assert h0 + [] == h0;
      return;
    }
    var b := start;
    var reached := start;
    while b < total
      invariant start <= reached <= total
      invariant reached == if b < total then b else total
      invariant Windows(start, total, batchSize) == done + Windows(b, total, batchSize)
      invariant results == base + Records(cells[start..reached], model, nlp)
      invariant done != [] ==> out.content == Saved(results)
      invariant forall w :: w in done ==> start <= w.end <= total
      invariant out.history == h0 + Snapshots(base, cells, done, model, nlp)
      decreases total - b
    {
      var e := if b + batchSize < total then b + batchSize else total;
      NextWindow(start, b, total, batchSize, done);
      results := ScoreAndSave(cells, base, start, b, e, results, out, model, nlp);
      SavedWindow(h0, base, cells, done, Window(b, e), model, nlp);
      done := done + [Window(b, e)];
      b := b + batchSize;
      reached := e;
    }
    assert Windows(b, total, batchSize) == [];
    assert done == Windows(start, total, batchSize) != [];
    assert reached == total && cells[start..total] == cells[start..];
    assert results == Completed(base, cells, model, nlp);
  }

  /** One chunk: score the window's cells, append them, save the whole content. */
  method ScoreAndSave(cells: seq<Option<string>>, base: seq<Record>, start: nat, b: nat, e: nat,
                      results: seq<Record>, out: PredictionsFile, model: ToxicModel, nlp: Nlp)
    returns (extended: seq<Record>)
    requires start <= b <= e <= |cells|
    requires results == base + Records(cells[start..b], model, nlp)
    modifies out
    ensures extended == base + Records(cells[start..e], model, nlp)
    ensures out.content == Saved(extended)
    ensures out.history == old(out.history) + [extended]
  {
    var chunk := ScoreChunk(cells[b..e], model, nlp);
    ExtendRecords(cells, start, b, e, model, nlp);
    AppendAssoc(base, Records(cells[start..b], model, nlp), chunk);
    extended := results + chunk;
    out.Save(extended);
  }

  /** Appending a window's records extends the records of the rows before it. */
  lemma ExtendRecords(cells: seq<Option<string>>, start: nat, b: nat, e: nat, model: ToxicModel, nlp: Nlp)
    requires start <= b <= e <= |cells|
    ensures Records(cells[start..b], model, nlp) + Records(cells[b..e], model, nlp)
            == Records(cells[start..e], model, nlp)
  {
    assert cells[start..e] == cells[start..b] + cells[b..e];
    RecordsAppend(cells[start..b], cells[b..e], model, nlp);
  }

  /** `test_classifier(csv, output, batch_size, text_column)`. */
  method TestClassifier(input: CsvFile, textColumn: string, batchSize: nat, out: PredictionsFile,
                        model: ToxicModel, nlp: Nlp) returns (ok: bool)
    modifies out
    ensures ok <==> input.Parsed? && textColumn in input.columns && batchSize > 0
    ensures !ok ==> out.content == old(out.content) && out.history == old(out.history)
    ensures ok ==>
      var cells := input.columns[textColumn];
      var base := ResumeRows(old(out.content));
      var ws := Windows(|base|, |cells|, batchSize);
      && out.history == old(out.history) + Snapshots(base, cells, ws, model, nlp)
      && (ws == [] ==> out.content == old(out.content))
      && (ws != [] ==> out.content == Saved(Completed(base, cells, model, nlp)))
  {
    if input.NotFound? || input.Unparsable? || textColumn !in input.columns {
      return false;
    }
    var cells := input.columns[textColumn];
    var base := ResumeRows(out.content);
    if batchSize == 0 {
      // range() with a zero step raises before anything is written
      return false;
    }
    ScoreRemaining(cells, base, batchSize, out, model, nlp);
    return true;
  }
}
