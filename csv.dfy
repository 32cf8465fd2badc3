/** The text of the "Export CSV" download: a header line of the first record's field
    names, then one line of field values per record, everything joined with plain
    commas and newlines and nothing quoted. */
module Csv {
  import opened Wrappers
  import opened Text
  import opened Records

  function Header(first: Record): string {
    Join(Keys(first), ",")
  }

  function Row(r: Record): string {
    Join(Values(r), ",")
  }

  function Rows(records: seq<Record>): (rows: seq<string>)
    ensures |rows| == |records|
  {
    seq(|records|, i requires 0 <= i < |records| => Row(records[i]))
  }

  /** The CSV text of the records, or None when there is nothing to export. */
  function Export(records: seq<Record>): (text: Option<string>)
    ensures text.None? <==> |records| == 0
  {
    if |records| == 0 then None
    else Some(Header(records[0]) + "\n" + Join(Rows(records), "\n"))
  }

  /** Reads CSV text back the way a plain reader does: lines at newlines, fields at commas. */
  function Parse(text: string): seq<seq<string>> {
    var lines := Split(text, '\n');
    seq(|lines|, i requires 0 <= i < |lines| => Split(lines[i], ','))
  }

  /** Nothing written to the file holds the character `c`: neither a field name of the
      first record (the header) nor any record's field value. */
  predicate Plain(records: seq<Record>, c: char)
    requires |records| > 0
  {
    Avoids(Keys(records[0]), c) &&
    forall i, j :: 0 <= i < |records| && 0 <= j < |records[i]| ==> c !in records[i][j].value
  }

  /** The table the export is meant to carry: the first record's field names, then each
      record's field values. */
  function Table(records: seq<Record>): seq<seq<string>>
    requires |records| > 0
  {
    [Keys(records[0])] + seq(|records|, i requires 0 <= i < |records| => Values(records[i]))
  }

  /** With no newline inside the header's names or any value, the export has one line for the header
      and one line per record, in record order. */
  lemma ExportLines(records: seq<Record>)
    requires |records| > 0 && Plain(records, '\n')
    ensures Split(Export(records).value, '\n') == [Header(records[0])] + Rows(records)
    ensures |Split(Export(records).value, '\n')| == |records| + 1
  {
    var lines := [Header(records[0])] + Rows(records);
    assert lines[1..] == Rows(records);
    assert Export(records).value == Join(lines, "\n");
    JoinAvoids(Keys(records[0]), ",", '\n');
    forall i | 0 <= i < |records| ensures '\n' !in Row(records[i]) {
      JoinAvoids(Values(records[i]), ",", '\n');
    }
    SplitJoin(lines, '\n');
  }

  /** With no comma or newline inside the header's names or any value and no record without fields,
      reading the export back gives the first record's field names followed by every
      record's values. */
  lemma ExportRoundTrip(records: seq<Record>)
    requires |records| > 0 && Plain(records, '\n') && Plain(records, ',')
    requires forall i :: 0 <= i < |records| ==> |records[i]| > 0
    ensures Parse(Export(records).value) == Table(records)
  {
    ExportLines(records);
    var lines := Split(Export(records).value, '\n');
    SplitJoin(Keys(records[0]), ',');
    forall i | 0 <= i < |records| ensures Split(Row(records[i]), ',') == Values(records[i]) {
      SplitJoin(Values(records[i]), ',');
    }
  }

  /** The known fragility of unquoted output: a comma inside a value becomes a column
      break, so a one-field record exports as a row of two fields under a header of one. */
  lemma CommaInValueShiftsColumns(key: string, left: string, right: string)
    requires ',' !in key && ',' !in left && ',' !in right
    requires '\n' !in key && '\n' !in left && '\n' !in right
    ensures Parse(Export([[Field(key, left + "," + right)]]).value) == [[key], [left, right]]
  {
    var value := left + "," + right;
    var r := [Field(key, value)];
    assert Keys(r) == [key] && Values(r) == [value];
    assert value == Join([left, right], ",");
    assert '\n' !in value;
    assert Export([r]).value == Join([key, value], "\n");
    SplitJoin([key, value], '\n');
    SplitJoin([key], ',');
    SplitJoin([left, right], ',');
  }
}
