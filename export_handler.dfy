/**
 * `ExportHandler`: renders the records a query returned as CSV text. `toJSON` is a single
 * call of the host's `JSON.stringify(logs, null, 2)` and is modelled at its call site.
 */
module ExportHandler {
  import opened JsValues
  import opened Text

  /** A record as the exporter sees it: an object's properties in key order. */
  type Row = seq<(string, JsValue)>

  /** `Object.keys(row)`. */
  function Keys(row: Row): (ks: seq<string>)
    ensures |ks| == |row|
    ensures forall i | 0 <= i < |row| :: ks[i] == row[i].0
  {
    seq(|row|, i requires 0 <= i < |row| => row[i].0)
  }

  /** One field of a row: an object-typed value is written as its JSON text, any other value
      as `join` writes it (undefined as nothing), with no quoting or escaping. */
  function Cell(stringify: JsValue -> string, v: JsValue): (c: string)
    ensures IsObject(v) ==> c == stringify(v)
    ensures v.Str? ==> c == v.s
    ensures v.Undefined? ==> c == ""
  {
    if IsObject(v) then stringify(v) else if v.Undefined? then "" else ToJsString(v)
  }

  /** `Object.values(row).map(v => typeof v === 'object' ? JSON.stringify(v) : v)`. */
  function Cells(stringify: JsValue -> string, row: Row): (cs: seq<string>)
    ensures |cs| == |row|
    ensures forall i | 0 <= i < |row| :: cs[i] == Cell(stringify, row[i].1)
  {
    seq(|row|, i requires 0 <= i < |row| => Cell(stringify, row[i].1))
  }

  function Header(row: Row): string {
    Join(Keys(row), ',')
  }

  function Line(stringify: JsValue -> string, row: Row): string {
    Join(Cells(stringify, row), ',')
  }

  function Lines(stringify: JsValue -> string, logs: seq<Row>): (ls: seq<string>)
    ensures |ls| == |logs|
    ensures forall i | 0 <= i < |logs| :: ls[i] == Line(stringify, logs[i])
  {
    seq(|logs|, i requires 0 <= i < |logs| => Line(stringify, logs[i]))
  }

  /** `ExportHandler.toCSV(logs)`: the keys of the first record as the header line, then one
      line per record; lines are joined by newlines, with none at the end. */
  function ToCSV(stringify: JsValue -> string, logs: seq<Row>): (r: string)
    ensures r == "" <==> |logs| == 0
  {
    if |logs| == 0 then ""
    else
      var all := [Header(logs[0])] + Lines(stringify, logs);
      assert '\n' in Join(all, '\n');
      Join(all, '\n')
  }

  /** When no key of the first record and no field contains a newline, the CSV text splits
      back into the header line followed by exactly one line per record, in input order,
      whatever keys the later records have. */
  lemma CsvLines(stringify: JsValue -> string, logs: seq<Row>)
    requires |logs| > 0
    requires forall i | 0 <= i < |logs[0]| :: '\n' !in logs[0][i].0
    requires forall r, i | 0 <= r < |logs| && 0 <= i < |logs[r]| :: '\n' !in Cell(stringify, logs[r][i].1)
    ensures Split(ToCSV(stringify, logs), '\n') == [Header(logs[0])] + Lines(stringify, logs)
    ensures |Split(ToCSV(stringify, logs), '\n')| == |logs| + 1
  {
    JoinAvoids(Keys(logs[0]), ',', '\n');
    var lines := Lines(stringify, logs);
    forall r | 0 <= r < |logs| ensures '\n' !in lines[r] {
      JoinAvoids(Cells(stringify, logs[r]), ',', '\n');
    }
    var all := [Header(logs[0])] + lines;
    SplitJoin(all, '\n');
  }

  /** The first line is the first record's keys joined by commas. */
  lemma CsvHeader(stringify: JsValue -> string, logs: seq<Row>)
    requires |logs| > 0
    requires forall i | 0 <= i < |logs[0]| :: '\n' !in logs[0][i].0
    ensures Split(ToCSV(stringify, logs), '\n')[0] == Join(Keys(logs[0]), ',')
  {
    JoinAvoids(Keys(logs[0]), ',', '\n');
    SplitJoinHead([Header(logs[0])] + Lines(stringify, logs), '\n');
  }

  /** When no field contains a comma, a line splits back into the record's fields, one per
      value, in key order. */
  lemma CsvFields(stringify: JsValue -> string, row: Row)
    requires |row| > 0
    requires forall i | 0 <= i < |row| :: ',' !in Cell(stringify, row[i].1)
    ensures Split(Line(stringify, row), ',') == Cells(stringify, row)
  {
    SplitJoin(Cells(stringify, row), ',');
  }

  /** Fields are not quoted: a message holding a comma reads back as two fields under a
      one-column header. */
  lemma CsvCommaNotQuoted(stringify: JsValue -> string)
    ensures var row: Row := [("message", Str("a,b"))];
      Split(Header(row), ',') == ["message"] && Split(Line(stringify, row), ',') == ["a", "b"]
  {
    var row: Row := [("message", Str("a,b"))];
    assert Keys(row) == ["message"];
    SplitNoSeparator("message", ',');
    assert Cells(stringify, row) == ["a,b"];
    CommaSplits();
  }

  lemma CommaSplits()
    ensures Split("a,b", ',') == ["a", "b"]
  {
    assert "a,b" == "a" + [','] + "b";
    SplitAfterPiece("a", "b", ',');
    SplitNoSeparator("b", ',');
  }
}
