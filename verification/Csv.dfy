/** The CSV body of a compaction table: internal/smartcrusher/compaction/formatter.go. */
module Csv {

  // Its reader follows section 2 of RFC 4180, with a bare line feed ending each record.

  import opened Common
  import opened Text
  import opened Compaction

  // ---- printing ----

  /** How values and nested tables print as JSON; any functions will do. */
  datatype Json = Json(value: Value -> string, nested: Compacted -> string)

  const QUOTE := ['"']
  const TWO_QUOTES := ['"', '"']

  predicate Special(c: char) { c == ',' || c == '"' || c == '\n' || c == '\r' }

  predicate NeedsCsvQuote(s: string) { exists i :: 0 <= i < |s| && Special(s[i]) }

  function CsvQuote(s: string): string { QUOTE + (ReplaceAll(s, QUOTE, TWO_QUOTES) + QUOTE) }

  function JsonScalarToCsv(v: Value, json: Json): string {
    match v
    case Null => ""
    case Bool(b) => if b then "true" else "false"
    case Number(t) => t
    case Str(s) => if NeedsCsvQuote(s) then CsvQuote(s) else s
    case _ => CsvQuote(json.value(v))
  }

  const MARKER_PREFIX := "<<ccr:"
  const MARKER_SUFFIX := ">>"

  function CsvFormatCell(cell: Cell, json: Json): string {
    match cell
    case Missing => ""
    case Scalar(v) => JsonScalarToCsv(v, json)
    case Nested(inner) => CsvQuote(json.nested(inner))
    case OpaqueRef(hash, size, kind) =>
      (MARKER_PREFIX + hash) + ([','] + (kind + ([','] + (Itoa(size) + MARKER_SUFFIX))))
  }

  function JoinCells(cells: seq<Cell>, json: Json): string {
    if cells == [] then ""
    else if |cells| == 1 then CsvFormatCell(cells[0], json)
    else CsvFormatCell(cells[0], json) + ([','] + JoinCells(cells[1..], json))
  }

  /** The rows, each ended by a line feed. */
  function Body(rows: seq<Row>, json: Json): string {
    if rows == [] then "" else JoinCells(rows[0].cells, json) + (['\n'] + Body(rows[1..], json))
  }

  lemma {:induction false} JoinSnoc(cells: seq<Cell>, cell: Cell, json: Json)
    ensures JoinCells(cells + [cell], json)
         == if cells == [] then CsvFormatCell(cell, json)
           else JoinCells(cells, json) + ([','] + CsvFormatCell(cell, json))
  {
    if |cells| == 1 {
      assert (cells + [cell])[1..] == [cell];
    } else if |cells| > 1 {
      JoinSnoc(cells[1..], cell, json);
      assert (cells + [cell])[1..] == cells[1..] + [cell];
      var head, more := CsvFormatCell(cells[0], json), [','] + CsvFormatCell(cell, json);
      SeqAssoc([','], JoinCells(cells[1..], json), more);
      SeqAssoc(head, [','] + JoinCells(cells[1..], json), more);
    }
  }

  lemma {:induction false} BodySnoc(rows: seq<Row>, row: Row, json: Json)
    ensures Body(rows + [row], json) == Body(rows, json) + (JoinCells(row.cells, json) + ['\n'])
  {
    if rows == [] {
      assert (rows + [row])[1..] == [];
    } else {
      BodySnoc(rows[1..], row, json);
      assert (rows + [row])[1..] == rows[1..] + [row];
      var line := JoinCells(row.cells, json) + ['\n'];
      SeqAssoc(['\n'], Body(rows[1..], json), line);
      SeqAssoc(JoinCells(rows[0].cells, json), ['\n'] + Body(rows[1..], json), line);
    }
  }

  method FormatRow(row: Row, json: Json) returns (line: string)
    ensures line == JoinCells(row.cells, json)
  {
    line := "";
    for i := 0 to |row.cells|
      invariant line == JoinCells(row.cells[..i], json)
    {
      JoinSnoc(row.cells[..i], row.cells[i], json);
      PrefixSnoc(row.cells, i);
      if i > 0 {
        line := line + ([','] + CsvFormatCell(row.cells[i], json));
      } else {
        line := CsvFormatCell(row.cells[i], json);
      }
    }
    assert row.cells[..|row.cells|] == row.cells;
  }

  /** The row loop of formatTable. */
  method FormatRows(rows: seq<Row>, json: Json) returns (b: string)
    ensures b == Body(rows, json)
  {
    b := "";
    for r := 0 to |rows|
      invariant b == Body(rows[..r], json)
    {
      var line := FormatRow(rows[r], json);
      BodySnoc(rows[..r], rows[r], json);
      PrefixSnoc(rows, r);
      b := b + (line + ['\n']);
    }
    assert rows[..|rows|] == rows;
  }

  // ---- reading ----

  datatype Ended = AtComma | AtNewline | AtEnd

  datatype Reading = Bad | Got(text: string, ended: Ended, rest: string)

  function Prepend(c: char, r: Reading): Reading { if r.Bad? then Bad else Got([c] + r.text, r.ended, r.rest) }

  /** What may follow a field. */
  function After(s: string): Reading {
    if s == [] then Got([], AtEnd, [])
    else if s[0] == ',' then Got([], AtComma, s[1..])
    else if s[0] == '\n' then Got([], AtNewline, s[1..])
    else Bad
  }

  /** Inside quotes: a doubled quote stands for one. */
  function ReadQuoted(s: string): (r: Reading)
    ensures r.Got? ==> |r.rest| < |s|
  {
    if s == [] then Bad
    else if s[0] != '"' then Prepend(s[0], ReadQuoted(s[1..]))
    else if |s| > 1 && s[1] == '"' then Prepend('"', ReadQuoted(s[2..]))
    else After(s[1..])
  }

  function ReadPlain(s: string): (r: Reading)
    ensures r.Got? ==> r.rest == [] || |r.rest| < |s|
    ensures r.Got? && !r.ended.AtEnd? ==> |r.rest| < |s|
  {
    if s == [] || s[0] == ',' || s[0] == '\n' then After(s)
    else if Special(s[0]) then Bad
    else Prepend(s[0], ReadPlain(s[1..]))
  }

  function ReadField(s: string): (r: Reading)
    ensures r.Got? && !r.ended.AtEnd? ==> |r.rest| < |s|
  {
    if s != [] && s[0] == '"' then ReadQuoted(s[1..]) else ReadPlain(s)
  }

  datatype Record = Record(fields: seq<string>, ended: Ended, rest: string)

  function ReadRecord(s: string): (r: Option<Record>)
    ensures r.Some? && r.value.ended.AtNewline? ==> |r.value.rest| < |s|
    decreases |s|
  {
    var f := ReadField(s);
    if f.Bad? then None
    else if f.ended.AtComma? then
      var more := ReadRecord(f.rest);
      if more.None? then None else Some(Record([f.text] + more.value.fields, more.value.ended, more.value.rest))
    else Some(Record([f.text], f.ended, f.rest))
  }

  function ReadBody(s: string): Option<seq<seq<string>>>
    decreases |s|
  {
    if s == [] then Some([])
    else
      var first := ReadRecord(s);
      if first.None? then None
      else if !first.value.ended.AtNewline? then Some([first.value.fields])
      else
        var more := ReadBody(first.value.rest);
        if more.None? then None else Some([first.value.fields] + more.value)
  }

  // ---- one field ----

  /** The text a cell stands for; the marker's own text for an opaque one. */
  function CellText(cell: Cell, json: Json): string {
    match cell
    case Missing => ""
    case Scalar(v) =>
      (match v
       case Null => ""
       case Bool(b) => if b then "true" else "false"
       case Number(t) => t
       case Str(s) => s
       case _ => json.value(v))
    case Nested(inner) => json.nested(inner)
    case OpaqueRef(_, _, _) => CsvFormatCell(cell, json)
  }

  predicate Plain(s: string) { forall i :: 0 <= i < |s| ==> !Special(s[i]) }

  /** Number literals, hashes and kind tags hold no comma, quote or line break. */
  predicate Printable(cell: Cell) {
    match cell
    case Scalar(v) => v.Number? ==> Plain(v.text)
    case OpaqueRef(hash, _, kind) => Plain(hash) && Plain(kind)
    case _ => true
  }

  /** What reading a printed cell gives: an opaque marker falls apart at its commas. */
  function ReadBack(cell: Cell, json: Json): (fields: seq<string>)
    ensures |fields| == if cell.OpaqueRef? then 3 else 1
  {
    match cell
    case OpaqueRef(hash, size, kind) => [MARKER_PREFIX + hash, kind, Itoa(size) + MARKER_SUFFIX]
    case _ => [CellText(cell, json)]
  }

  /** A field ends here. */
  predicate FieldEnd(rest: string) { rest != [] && (rest[0] == ',' || rest[0] == '\n') }

  lemma {:induction false} PlainReads(t: string, rest: string)
    requires Plain(t) && FieldEnd(rest)
    ensures ReadPlain(t + rest) == Got(t, After(rest).ended, rest[1..])
  {
    if t == [] {
      assert t + rest == rest;
    } else {
      assert (t + rest)[0] == t[0] && (t + rest)[1..] == t[1..] + rest;
      PlainReads(t[1..], rest);
      assert [t[0]] + t[1..] == t;
    }
  }

  lemma {:induction false} PlainFieldReads(t: string, rest: string)
    requires Plain(t) && FieldEnd(rest)
    ensures ReadField(t + rest) == Got(t, After(rest).ended, rest[1..])
  {
    PlainReads(t, rest);
    assert (t + rest)[0] == if t == [] then rest[0] else t[0];
  }

  lemma {:induction false} DoublingUnfolds(t: string)
    requires t != []
    ensures ReplaceAll(t, QUOTE, TWO_QUOTES)
         == (if t[0] == '"' then TWO_QUOTES else [t[0]]) + ReplaceAll(t[1..], QUOTE, TWO_QUOTES)
  {
    assert QUOTE <= t <==> t[0] == '"';
  }

  lemma {:induction false} DoubledIsNoShorter(t: string)
    ensures |ReplaceAll(t, QUOTE, TWO_QUOTES)| >= |t|
  {
    if t != [] {
      DoublingUnfolds(t);
      DoubledIsNoShorter(t[1..]);
    }
  }

  /** A text is printed as it is exactly when it holds no comma, quote or line break; any
      other stands in quotes, its own doubled. */
  lemma {:induction false} QuotedIff(t: string, json: Json)
    ensures var out := CsvFormatCell(Scalar(Str(t)), json);
            if ',' in t || '"' in t || '\n' in t || '\r' in t
            then out != t && out == ['"'] + (ReplaceAll(t, ['"'], ['"', '"']) + ['"'])
            else out == t
  {
    DoubledIsNoShorter(t);
    if c :| c in t && Special(c) {
      var i :| 0 <= i < |t| && t[i] == c;
      assert NeedsCsvQuote(t);
    }
    assert ',' in t ==> Special(',');
    assert '"' in t ==> Special('"');
    assert '\n' in t ==> Special('\n');
    assert '\r' in t ==> Special('\r');
  }

  lemma {:induction false} QuotedStep(c: char, more: string)
    ensures ReadQuoted((if c == '"' then TWO_QUOTES else [c]) + more) == Prepend(c, ReadQuoted(more))
  {
    assert (TWO_QUOTES + more)[2..] == more && ([c] + more)[1..] == more;
  }

  lemma {:induction false} QuotedReads(t: string, rest: string)
    requires FieldEnd(rest)
    ensures ReadQuoted(ReplaceAll(t, QUOTE, TWO_QUOTES) + (QUOTE + rest)) == Got(t, After(rest).ended, rest[1..])
  {
    if t == [] {
      var s := QUOTE + rest;
      assert [] + s == s && s[1..] == rest && s[1] == rest[0];
    } else {
      var head, tail := if t[0] == '"' then TWO_QUOTES else [t[0]], ReplaceAll(t[1..], QUOTE, TWO_QUOTES);
      DoublingUnfolds(t);
      SeqAssoc(head, tail, QUOTE + rest);
      QuotedStep(t[0], tail + (QUOTE + rest));
      QuotedReads(t[1..], rest);
      assert [t[0]] + t[1..] == t;
    }
  }

  lemma {:induction false} QuotedFieldReads(t: string, rest: string)
    requires FieldEnd(rest)
    ensures ReadField(CsvQuote(t) + rest) == Got(t, After(rest).ended, rest[1..])
  {
    var body := ReplaceAll(t, QUOTE, TWO_QUOTES);
    var s := CsvQuote(t) + rest;
    assert s == QUOTE + (body + (QUOTE + rest));
    assert s[1..] == body + (QUOTE + rest);
    QuotedReads(t, rest);
  }

  /** A printed cell that is not opaque reads back as its text. */
  lemma {:induction false} CellReads(cell: Cell, json: Json, rest: string)
    requires Printable(cell) && !cell.OpaqueRef? && FieldEnd(rest)
    ensures ReadField(CsvFormatCell(cell, json) + rest) == Got(CellText(cell, json), After(rest).ended, rest[1..])
  {
    match cell
    case Missing => PlainFieldReads("", rest);
    case Nested(inner) => QuotedFieldReads(json.nested(inner), rest);
    case Scalar(v) =>
      match v {
        case Null => PlainFieldReads("", rest);
        case Bool(b) => PlainFieldReads(if b then "true" else "false", rest);
        case Number(t) => PlainFieldReads(t, rest);
        case Str(s) =>
          if NeedsCsvQuote(s) {
            QuotedFieldReads(s, rest);
          } else {
            PlainFieldReads(s, rest);
          }
        case _ => QuotedFieldReads(json.value(v), rest);
      }
  }

  // ---- records ----

  lemma {:induction false} FieldThenRecord(s: string, text: string, rest: string, more: Record)
    requires ReadField(s) == Got(text, AtComma, rest) && ReadRecord(rest) == Some(more)
    ensures ReadRecord(s) == Some(Record([text] + more.fields, more.ended, more.rest))
  {
  }

  lemma {:induction false} PlainThenRecord(t: string, rest: string, more: Record)
    requires Plain(t) && ReadRecord(rest) == Some(more)
    ensures ReadRecord(t + ([','] + rest)) == Some(Record([t] + more.fields, more.ended, more.rest))
  {
    PlainFieldReads(t, [','] + rest);
    assert ([','] + rest)[1..] == rest;
    FieldThenRecord(t + ([','] + rest), t, rest, more);
  }

  lemma {:induction false} LastPlain(t: string, rest: string)
    requires Plain(t)
    ensures ReadRecord(t + (['\n'] + rest)) == Some(Record([t], AtNewline, rest))
  {
    PlainFieldReads(t, ['\n'] + rest);
    assert (['\n'] + rest)[1..] == rest;
  }

  lemma {:induction false} MarkerParts(hash: string, size: nat, kind: string)
    requires Plain(hash) && Plain(kind)
    ensures Plain(MARKER_PREFIX + hash) && Plain(Itoa(size) + MARKER_SUFFIX)
  {
    forall i | 0 <= i < |Itoa(size) + MARKER_SUFFIX| ensures !Special((Itoa(size) + MARKER_SUFFIX)[i]) {
      assert i < |Itoa(size)| ==> IsDigit(Itoa(size)[i]);
    }
  }

  /** A cell followed by a comma and a readable record. */
  lemma {:induction false} CellThenRecord(cell: Cell, json: Json, rest: string, more: Record)
    requires Printable(cell) && ReadRecord(rest) == Some(more)
    ensures ReadRecord(CsvFormatCell(cell, json) + ([','] + rest))
         == Some(Record(ReadBack(cell, json) + more.fields, more.ended, more.rest))
  {
    if cell.OpaqueRef? {
      var a, b, c := MARKER_PREFIX + cell.hash, cell.kind, Itoa(cell.size) + MARKER_SUFFIX;
      MarkerParts(cell.hash, cell.size, cell.kind);
      PlainThenRecord(c, rest, more);
      var r1 := Record([c] + more.fields, more.ended, more.rest);
      PlainThenRecord(b, c + ([','] + rest), r1);
      var r2 := Record([b] + r1.fields, more.ended, more.rest);
      PlainThenRecord(a, b + ([','] + (c + ([','] + rest))), r2);
      FivePiecesThen(a, b, c, [','] + rest);
      assert [a] + ([b] + ([c] + more.fields)) == [a, b, c] + more.fields;
    } else {
      CellReads(cell, json, [','] + rest);
      assert ([','] + rest)[1..] == rest;
      FieldThenRecord(CsvFormatCell(cell, json) + ([','] + rest), CellText(cell, json), rest, more);
    }
  }

  lemma {:induction false} FivePiecesThen(a: string, b: string, c: string, rest: string)
    ensures (a + ([','] + (b + ([','] + c)))) + rest == a + ([','] + (b + ([','] + (c + rest))))
  {
  }

  /** The last cell of a record. */
  lemma {:induction false} LastCell(cell: Cell, json: Json, rest: string)
    requires Printable(cell)
    ensures ReadRecord(CsvFormatCell(cell, json) + (['\n'] + rest))
         == Some(Record(ReadBack(cell, json), AtNewline, rest))
  {
    if cell.OpaqueRef? {
      var a, b, c := MARKER_PREFIX + cell.hash, cell.kind, Itoa(cell.size) + MARKER_SUFFIX;
      MarkerParts(cell.hash, cell.size, cell.kind);
      LastPlain(c, rest);
      PlainThenRecord(b, c + (['\n'] + rest), Record([c], AtNewline, rest));
      PlainThenRecord(a, b + ([','] + (c + (['\n'] + rest))), Record([b] + [c], AtNewline, rest));
      FivePiecesThen(a, b, c, ['\n'] + rest);
      assert [a] + ([b] + [c]) == [a, b, c];
    } else {
      CellReads(cell, json, ['\n'] + rest);
      assert (['\n'] + rest)[1..] == rest;
    }
  }

  function ReadBackAll(cells: seq<Cell>, json: Json): seq<string> {
    if cells == [] then [] else ReadBack(cells[0], json) + ReadBackAll(cells[1..], json)
  }

  predicate PrintableRow(cells: seq<Cell>) { forall i :: 0 <= i < |cells| ==> Printable(cells[i]) }

  lemma {:induction false} RowReads(cells: seq<Cell>, json: Json, rest: string)
    requires cells != [] && PrintableRow(cells)
    ensures ReadRecord(JoinCells(cells, json) + (['\n'] + rest))
         == Some(Record(ReadBackAll(cells, json), AtNewline, rest))
  {
    if |cells| == 1 {
      LastCell(cells[0], json, rest);
      var one := ReadBack(cells[0], json);
      assert cells[1..] == [] && one + [] == one;
      assert ReadBackAll(cells, json) == one + [];
    } else {
      RowReads(cells[1..], json, rest);
      var head, tail := CsvFormatCell(cells[0], json), JoinCells(cells[1..], json) + (['\n'] + rest);
      CellThenRecord(cells[0], json, tail, Record(ReadBackAll(cells[1..], json), AtNewline, rest));
      SeqAssoc([','], JoinCells(cells[1..], json), ['\n'] + rest);
      SeqAssoc(head, [','] + JoinCells(cells[1..], json), ['\n'] + rest);
    }
  }

  /** A row with no cells prints as a blank line, which reads as one empty field. */
  function RowBack(cells: seq<Cell>, json: Json): seq<string> {
    if cells == [] then [""] else ReadBackAll(cells, json)
  }

  function AllBack(rows: seq<Row>, json: Json): (r: seq<seq<string>>)
    ensures |r| == |rows| && forall k :: 0 <= k < |rows| ==> r[k] == RowBack(rows[k].cells, json)
  {
    if rows == [] then [] else [RowBack(rows[0].cells, json)] + AllBack(rows[1..], json)
  }

  predicate PrintableRows(rows: seq<Row>) { forall k :: 0 <= k < |rows| ==> PrintableRow(rows[k].cells) }

  /** What reading the printed body gives, for any rows. */
  lemma {:induction false} BodyReads(rows: seq<Row>, json: Json)
    requires PrintableRows(rows)
    ensures ReadBody(Body(rows, json)) == Some(AllBack(rows, json))
  {
    if rows != [] {
      var cells, rest := rows[0].cells, Body(rows[1..], json);
      BodyReads(rows[1..], json);
      if cells == [] {
        LastPlain("", rest);
      } else {
        RowReads(cells, json, rest);
      }
    }
  }

  // ---- exactly when the body round-trips ----

  function RowTexts(cells: seq<Cell>, json: Json): (r: seq<string>)
    ensures |r| == |cells|
  {
    seq(|cells|, i requires 0 <= i < |cells| => CellText(cells[i], json))
  }

  function AllTexts(rows: seq<Row>, json: Json): (r: seq<seq<string>>)
    ensures |r| == |rows| && forall k :: 0 <= k < |rows| ==> r[k] == RowTexts(rows[k].cells, json)
  {
    seq(|rows|, k requires 0 <= k < |rows| => RowTexts(rows[k].cells, json))
  }

  predicate NoOpaque(cells: seq<Cell>) { forall i :: 0 <= i < |cells| ==> !cells[i].OpaqueRef? }

  lemma {:induction false} BackCount(cells: seq<Cell>, json: Json)
    ensures |ReadBackAll(cells, json)| >= |cells|
    ensures |ReadBackAll(cells, json)| == |cells| <==> NoOpaque(cells)
    ensures NoOpaque(cells) ==> ReadBackAll(cells, json) == RowTexts(cells, json)
  {
    if cells != [] {
      BackCount(cells[1..], json);
      assert NoOpaque(cells) <==> !cells[0].OpaqueRef? && NoOpaque(cells[1..]) by {
        forall i | 1 <= i < |cells| ensures cells[i] == cells[1..][i - 1] {
        }
        if !cells[0].OpaqueRef? && NoOpaque(cells[1..]) {
          forall i | 0 <= i < |cells| ensures !cells[i].OpaqueRef? {
          }
        }
        if NoOpaque(cells) {
          forall i | 0 <= i < |cells[1..]| ensures !cells[1..][i].OpaqueRef? {
          }
        }
      }
      assert RowTexts(cells, json) == [CellText(cells[0], json)] + RowTexts(cells[1..], json);
    }
  }

  predicate RoundTrips(cells: seq<Cell>) { cells != [] && NoOpaque(cells) }

  lemma {:induction false} RowRoundTripIff(cells: seq<Cell>, json: Json)
    ensures RowBack(cells, json) == RowTexts(cells, json) <==> RoundTrips(cells)
  {
    BackCount(cells, json);
  }

  /** The reader recovers the same rows, the same number of fields and every field's
      text if and only if every row has a cell and none is opaque. */
  lemma {:induction false} BodyRoundTripIff(rows: seq<Row>, json: Json)
    requires PrintableRows(rows)
    ensures ReadBody(Body(rows, json)) == Some(AllTexts(rows, json)) <==>
            forall k :: 0 <= k < |rows| ==> RoundTrips(rows[k].cells)
  {
    BodyReads(rows, json);
    var a, b := AllBack(rows, json), AllTexts(rows, json);
    forall k | 0 <= k < |rows| ensures a[k] == b[k] <==> RoundTrips(rows[k].cells) {
      RowRoundTripIff(rows[k].cells, json);
    }
    if forall k :: 0 <= k < |rows| ==> RoundTrips(rows[k].cells) {
      assert a == b;
    }
    if a == b {
      forall k | 0 <= k < |rows| ensures RoundTrips(rows[k].cells) {
        assert a[k] == b[k];
      }
    }
  }
}
