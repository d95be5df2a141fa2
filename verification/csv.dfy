/** The fields of a CSV export, before `csv.writer` quotes and joins them. */
module Csv {

  /** The byte-order mark written ahead of the first row, so that spreadsheet programs
      read the file as UTF-8. */
  const BOM: string := "\U{FEFF}"

  /** One field of a row: text, an integer, or a timestamp rendered as '%Y-%m-%d %H:%M'. */
  datatype Cell = Text(s: string) | Int(n: int) | Timestamp(t: nat)

  /** The document: what is written before the rows, then the rows (the header first). */
  datatype CsvDoc = CsvDoc(prefix: string, rows: seq<seq<Cell>>)

  function HeaderCells(names: seq<string>): (r: seq<Cell>)
    ensures |r| == |names|
    ensures forall i :: 0 <= i < |r| ==> r[i] == Text(names[i])
  {
    seq(|names|, i requires 0 <= i < |names| => Text(names[i]))
  }
}
