/** A CSV file as `pandas.read_csv` sees it: columns of optional cells, `None` being NaN. */
module Csv {
  import opened Wrappers

  /** Every column holds the same number of cells. */
  predicate Rectangular(columns: map<string, seq<Option<string>>>) {
    forall a, b :: a in columns && b in columns ==> |columns[a]| == |columns[b]|
  }

  type Table = t: map<string, seq<Option<string>>> | Rectangular(t) witness map[]

  /** The input file: absent, rejected by `read_csv`, or a table. */
  datatype CsvFile = NotFound | Unparsable | Parsed(columns: Table)
}
