/**
 * `preprocess_dataset`: drop rows whose text is missing, add the cleaned
 * text, drop rows whose cleaned text is empty, add both lengths. Rows are
 * identified by their pandas index, which filtering keeps; the other
 * columns of a row are carried along by that index.
 */
module Preprocessing {
  import opened Wrappers
  import opened Cleaning
  import opened Csv

  /** A row that survived `dropna`. */
  datatype TextRow = TextRow(index: nat, text: string)

  /** A row with its `cleaned_text` column. */
  datatype CleanedRow = CleanedRow(index: nat, text: string, cleaned: string)

  /** A row of the processed dataset. */
  datatype ProcessedRow = ProcessedRow(index: nat, text: string, cleaned: string, originalLength: nat, cleanedLength: nat)

  datatype Outcome = Failed | Processed(rows: seq<ProcessedRow>, missingDropped: nat)

  /** The number of missing cells. */
  function CountMissing(cells: seq<Option<string>>): (n: nat)
    ensures n <= |cells|
    ensures n == 0 <== forall i :: 0 <= i < |cells| ==> cells[i].Some?
  {
    if cells == [] then 0
    else CountMissing(cells[..|cells| - 1]) + (if cells[|cells| - 1].None? then 1 else 0)
  }

  predicate IndicesIncrease(indices: seq<nat>) {
    forall k, l :: 0 <= k < l < |indices| ==> indices[k] < indices[l]
  }

  function TextIndices(rows: seq<TextRow>): seq<nat> { seq(|rows|, k requires 0 <= k < |rows| => rows[k].index) }
  function CleanedIndices(rows: seq<CleanedRow>): seq<nat> { seq(|rows|, k requires 0 <= k < |rows| => rows[k].index) }

  /** `df.dropna(subset=[text_column])`: the indexed texts of the present cells. */
  function DropMissing(cells: seq<Option<string>>): (r: seq<TextRow>)
    ensures |r| == |cells| - CountMissing(cells)
    ensures forall k :: 0 <= k < |r| ==> r[k].index < |cells| && cells[r[k].index] == Some(r[k].text)
    ensures IndicesIncrease(TextIndices(r))
    ensures forall i :: 0 <= i < |cells| && cells[i].Some? ==> exists k :: 0 <= k < |r| && r[k].index == i
  {
    if cells == [] then []
    else
      var n := |cells| - 1;
      var front := DropMissing(cells[..n]);
      var r := front + (if cells[n].Some? then [TextRow(n, cells[n].value)] else []);
      DroppedFaithful(cells, cells[..n], front, r);
      DroppedIncrease(front, r, n);
      DroppedComplete(cells, cells[..n], front, r);
      r
  }

  lemma {:induction false} DroppedIncrease(front: seq<TextRow>, r: seq<TextRow>, n: nat)
    requires IndicesIncrease(TextIndices(front))
    requires forall k :: 0 <= k < |front| ==> front[k].index < n
    requires r == front || (|r| == |front| + 1 && r[..|front|] == front && r[|front|].index == n)
    ensures IndicesIncrease(TextIndices(r))
  {
    if r != front {
      forall k, l | 0 <= k < l < |r| ensures TextIndices(r)[k] < TextIndices(r)[l] {
        assert r[k] == front[k];
        if l < |front| {
          assert r[l] == front[l];
          assert TextIndices(front)[k] < TextIndices(front)[l];
        }
      }
    }
  }

  lemma {:induction false} DroppedFaithful(cells: seq<Option<string>>, prefix: seq<Option<string>>, front: seq<TextRow>, r: seq<TextRow>)
    requires cells != [] && prefix == cells[..|cells| - 1]
    requires forall k :: 0 <= k < |front| ==> front[k].index < |prefix| && prefix[front[k].index] == Some(front[k].text)
    requires cells[|cells| - 1].Some? ==> r == front + [TextRow(|cells| - 1, cells[|cells| - 1].value)]
    requires cells[|cells| - 1].None? ==> r == front
    ensures |r| == |front| + (if cells[|cells| - 1].Some? then 1 else 0)
    ensures forall k :: 0 <= k < |front| ==> r[k] == front[k]
    ensures forall k :: 0 <= k < |r| ==> r[k].index < |cells| && cells[r[k].index] == Some(r[k].text)
  {
    forall k | 0 <= k < |r| ensures r[k].index < |cells| && cells[r[k].index] == Some(r[k].text) {
      if k < |front| {
        assert r[k] == front[k];
        assert prefix[front[k].index] == cells[front[k].index];
      }
    }
  }

  lemma {:induction false} DroppedComplete(cells: seq<Option<string>>, prefix: seq<Option<string>>, front: seq<TextRow>, r: seq<TextRow>)
    requires cells != [] && prefix == cells[..|cells| - 1]
    requires forall i :: 0 <= i < |prefix| && prefix[i].Some? ==>
               exists k :: 0 <= k < |front| && front[k].index == i
    requires cells[|cells| - 1].Some? ==> r == front + [TextRow(|cells| - 1, cells[|cells| - 1].value)]
    requires cells[|cells| - 1].None? ==> r == front
    ensures forall i :: 0 <= i < |cells| && cells[i].Some? ==> exists k :: 0 <= k < |r| && r[k].index == i
  {
    var n := |cells| - 1;
    forall i | 0 <= i < |cells| && cells[i].Some? ensures exists k :: 0 <= k < |r| && r[k].index == i {
      if i == n {
        assert r[|front|].index == i;
      } else {
        assert prefix[i] == cells[i];
        var k :| 0 <= k < |front| && front[k].index == i;
        assert r[k] == front[k];
      }
    }
  }

  /** `df['cleaned_text'] = df[text_column].apply(clean_text)` */
  function AddCleaned(rows: seq<TextRow>, nlp: Nlp): (r: seq<CleanedRow>)
    ensures |r| == |rows|
    ensures forall k :: 0 <= k < |r| ==>
              r[k] == CleanedRow(rows[k].index, rows[k].text, CleanText(Some(rows[k].text), nlp))
  {
    seq(|rows|, k requires 0 <= k < |rows| => CleanedRow(rows[k].index, rows[k].text, CleanText(Some(rows[k].text), nlp)))
  }

  /** `df[df['cleaned_text'].str.len() > 0]` */
  function DropEmptyCleaned(rows: seq<CleanedRow>): (r: seq<CleanedRow>)
    ensures |r| <= |rows|
    ensures forall x :: x in r <==> x in rows && x.cleaned != ""
    ensures IndicesIncrease(CleanedIndices(rows)) ==> IndicesIncrease(CleanedIndices(r))
  {
    if rows == [] then []
    else
      var rest := DropEmptyCleaned(rows[1..]);
      var r := if rows[0].cleaned != "" then [rows[0]] + rest else rest;
      assert rows == [rows[0]] + rows[1..];
      KeptIncrease(rows, rest, r);
      r
  }

  lemma {:induction false} KeptIncrease(rows: seq<CleanedRow>, rest: seq<CleanedRow>, r: seq<CleanedRow>)
    requires rows != []
    requires forall x :: x in rest ==> x in rows[1..]
    requires IndicesIncrease(CleanedIndices(rows[1..])) ==> IndicesIncrease(CleanedIndices(rest))
    requires r == [rows[0]] + rest || r == rest
    ensures IndicesIncrease(CleanedIndices(rows)) ==> IndicesIncrease(CleanedIndices(r))
  {
    if IndicesIncrease(CleanedIndices(rows)) {
      forall k, l | 0 <= k < l < |rows| - 1 ensures CleanedIndices(rows[1..])[k] < CleanedIndices(rows[1..])[l] {
        assert CleanedIndices(rows)[k + 1] < CleanedIndices(rows)[l + 1];
      }
      if r != rest {
        forall k, l | 0 <= k < l < |r| ensures CleanedIndices(r)[k] < CleanedIndices(r)[l] {
          if k > 0 {
            assert CleanedIndices(rest)[k - 1] < CleanedIndices(rest)[l - 1];
          } else {
            assert r[l] == rest[l - 1] && r[l] in rows[1..];
            var j :| 0 <= j < |rows| - 1 && rows[1..][j] == r[l];
            assert CleanedIndices(rows)[0] < CleanedIndices(rows)[j + 1];
          }
        }
      }
    }
  }

  /** `original_length` and `cleaned_length` */
  function AddLengths(rows: seq<CleanedRow>): (r: seq<ProcessedRow>)
    ensures |r| == |rows|
    ensures forall k :: 0 <= k < |r| ==>
              r[k] == ProcessedRow(rows[k].index, rows[k].text, rows[k].cleaned, |rows[k].text|, |rows[k].cleaned|)
  {
    seq(|rows|, k requires 0 <= k < |rows| =>
      ProcessedRow(rows[k].index, rows[k].text, rows[k].cleaned, |rows[k].text|, |rows[k].cleaned|))
  }

  /** The row `i` survives: its text is present and does not clean to nothing. */
  predicate Survives(cells: seq<Option<string>>, i: nat, nlp: Nlp) {
    i < |cells| && cells[i].Some? && CleanText(cells[i], nlp) != ""
  }

  /** Every processed row is a surviving row of `cells`, with its cleaned text and lengths. */
  ghost predicate RowsFaithful(rows: seq<ProcessedRow>, cells: seq<Option<string>>, nlp: Nlp) {
    forall k :: 0 <= k < |rows| ==>
      && Survives(cells, rows[k].index, nlp)
      && cells[rows[k].index] == Some(rows[k].text)
      && rows[k].cleaned == CleanText(Some(rows[k].text), nlp)
      && rows[k].originalLength == |rows[k].text| && rows[k].cleanedLength == |rows[k].cleaned|
  }

  /** The processed rows keep the order of the input, each at most once. */
  ghost predicate RowsOrdered(rows: seq<ProcessedRow>) {
    forall k, l :: 0 <= k < l < |rows| ==> rows[k].index < rows[l].index
  }

  /** No surviving row is lost. */
  ghost predicate RowsComplete(rows: seq<ProcessedRow>, cells: seq<Option<string>>, nlp: Nlp) {
    forall i :: 0 <= i < |cells| && Survives(cells, i, nlp) ==> exists k :: 0 <= k < |rows| && rows[k].index == i
  }

  /** The processed rows hold exactly the surviving rows of `cells`, in index order, with their lengths. */
  ghost predicate ProcessedFrom(rows: seq<ProcessedRow>, cells: seq<Option<string>>, nlp: Nlp) {
    RowsFaithful(rows, cells, nlp) && RowsOrdered(rows) && RowsComplete(rows, cells, nlp)
  }

  /** The rows left after both filters, before the lengths are added. */
  function KeptRows(cells: seq<Option<string>>, nlp: Nlp): seq<CleanedRow> {
    DropEmptyCleaned(AddCleaned(DropMissing(cells), nlp))
  }

  /** The pandas chain applied to one column. */
  function ProcessColumn(cells: seq<Option<string>>, nlp: Nlp): seq<ProcessedRow> {
    AddLengths(KeptRows(cells, nlp))
  }

  lemma KeptRowsSurvive(cells: seq<Option<string>>, nlp: Nlp)
    ensures forall x :: x in KeptRows(cells, nlp) ==>
              Survives(cells, x.index, nlp) && cells[x.index] == Some(x.text) && x.cleaned == CleanText(Some(x.text), nlp)
  {
    var present := DropMissing(cells);
    var cleaned := AddCleaned(present, nlp);
    forall x | x in KeptRows(cells, nlp)
      ensures Survives(cells, x.index, nlp) && cells[x.index] == Some(x.text) && x.cleaned == CleanText(Some(x.text), nlp)
    {
      var j :| 0 <= j < |cleaned| && cleaned[j] == x;
    }
  }

  lemma SurvivorsAreKept(cells: seq<Option<string>>, nlp: Nlp)
    ensures forall i :: 0 <= i < |cells| && Survives(cells, i, nlp) ==>
              exists k :: 0 <= k < |KeptRows(cells, nlp)| && KeptRows(cells, nlp)[k].index == i
  {
    var present := DropMissing(cells);
    var cleaned := AddCleaned(present, nlp);
    var kept := KeptRows(cells, nlp);
    forall i | 0 <= i < |cells| && Survives(cells, i, nlp)
      ensures exists k :: 0 <= k < |kept| && kept[k].index == i
    {
      var j :| 0 <= j < |present| && present[j].index == i;
      assert cells[i] == Some(present[j].text);
      assert cleaned[j].cleaned == CleanText(cells[i], nlp);
      assert cleaned[j] in cleaned;
      assert cleaned[j] in kept;
      var k :| 0 <= k < |kept| && kept[k] == cleaned[j];
    }
  }

  lemma KeptRowsInOrder(cells: seq<Option<string>>, nlp: Nlp)
    ensures IndicesIncrease(CleanedIndices(KeptRows(cells, nlp)))
  {
    var present := DropMissing(cells);
    AddedKeepIndices(present, nlp);
    assert IndicesIncrease(CleanedIndices(AddCleaned(present, nlp)));
  }

  /** Adding the cleaned column leaves the row indices as they were. */
  lemma AddedKeepIndices(rows: seq<TextRow>, nlp: Nlp)
    ensures CleanedIndices(AddCleaned(rows, nlp)) == TextIndices(rows)
  {
    var added := AddCleaned(rows, nlp);
    forall k | 0 <= k < |rows| ensures CleanedIndices(added)[k] == TextIndices(rows)[k] {
      assert added[k].index == rows[k].index;
    }
  }

  lemma ProcessedRowsFaithful(cells: seq<Option<string>>, nlp: Nlp)
    ensures RowsFaithful(ProcessColumn(cells, nlp), cells, nlp)
  {
    var kept := KeptRows(cells, nlp);
    var rows := ProcessColumn(cells, nlp);
    KeptRowsSurvive(cells, nlp);
    forall k | 0 <= k < |rows|
      ensures Survives(cells, rows[k].index, nlp) && cells[rows[k].index] == Some(rows[k].text)
      ensures rows[k].cleaned == CleanText(Some(rows[k].text), nlp)
    {
      assert kept[k] in kept;
    }
  }

  lemma ProcessedRowsOrdered(cells: seq<Option<string>>, nlp: Nlp)
    ensures RowsOrdered(ProcessColumn(cells, nlp))
  {
    var kept := KeptRows(cells, nlp);
    var rows := ProcessColumn(cells, nlp);
    KeptRowsInOrder(cells, nlp);
    forall k, l | 0 <= k < l < |rows| ensures rows[k].index < rows[l].index {
      assert CleanedIndices(kept)[k] < CleanedIndices(kept)[l];
    }
  }

  lemma ProcessedRowsComplete(cells: seq<Option<string>>, nlp: Nlp)
    ensures RowsComplete(ProcessColumn(cells, nlp), cells, nlp)
  {
    var kept := KeptRows(cells, nlp);
    var rows := ProcessColumn(cells, nlp);
    SurvivorsAreKept(cells, nlp);
    forall i | 0 <= i < |cells| && Survives(cells, i, nlp) ensures exists k :: 0 <= k < |rows| && rows[k].index == i {
      var k :| 0 <= k < |kept| && kept[k].index == i;
      assert rows[k].index == i;
    }
  }

  /** The processed dataset holds exactly the surviving rows, in order, and never more rows than the input. */
  lemma ProcessColumnKeepsSurvivors(cells: seq<Option<string>>, nlp: Nlp)
    ensures ProcessedFrom(ProcessColumn(cells, nlp), cells, nlp)
    ensures |ProcessColumn(cells, nlp)| + CountMissing(cells) <= |cells|
  {
    ProcessedRowsFaithful(cells, nlp);
    ProcessedRowsOrdered(cells, nlp);
    ProcessedRowsComplete(cells, nlp);
  }

  /** `preprocess_dataset(csv_path, output_path, text_column)`: `false` for
    * a missing file, a missing column or a failed write of the output file
    * (`saveFails`), otherwise the rows that are saved. */
  function PreprocessDataset(input: CsvFile, textColumn: string, nlp: Nlp, saveFails: bool): (r: Outcome)
    ensures r.Failed? <==> !(input.Parsed? && textColumn in input.columns) || saveFails
    ensures r.Processed? ==>
      && r.missingDropped == CountMissing(input.columns[textColumn])
      && |r.rows| + r.missingDropped <= |input.columns[textColumn]|
      && ProcessedFrom(r.rows, input.columns[textColumn], nlp)
  {
    match input
    case NotFound => Failed
    case Unparsable => Failed
    case Parsed(columns) =>
      if textColumn !in columns then Failed
      else
        var cells := columns[textColumn];
        ProcessColumnKeepsSurvivors(cells, nlp);
        if saveFails then Failed
        else Processed(ProcessColumn(cells, nlp), |cells| - |DropMissing(cells)|)
  }
}
