/** The compaction table: internal/smartcrusher/compaction/compactor.go and ir.go.

    Flattening works in place on an array of rows and a growing list of fields. */
module Compaction {

  import opened Common

  // ---- values and cells ----

  datatype Value =
    | Null
    | Bool(b: bool)
    | Number(text: string)
    | Str(s: string)
    | Arr(items: seq<Value>)
    | Obj(entries: seq<Entry>)

  datatype Entry = Entry(key: string, value: Value)

  /** What the classifier says of a string. */
  datatype StrClass = Plain | Stringified(parsed: Value) | Opaque(kind: string)

  datatype Cell =
    | Missing
    | Scalar(value: Value)
    | Nested(inner: Compacted)
    | OpaqueRef(hash: string, size: nat, kind: string)

  datatype Field = Field(name: string, nullable: bool)

  datatype Row = Row(cells: seq<Cell>)

  datatype Compacted = Untouched(value: Value) | Table(fields: seq<Field>, rows: seq<Row>, originalCount: nat)

  datatype Config = Config(minItems: nat, maxFlattenInnerKeys: nat, classify: string -> StrClass,
                           hash: string -> string)

  /** A measure that counts string contents: what a string parses to is smaller. */
  ghost function Size(v: Value): nat {
    match v
    case Str(s) => 1 + |s|
    case Arr(items) => 1 + SizeAll(items)
    case Obj(entries) => 1 + SizeEntries(entries)
    case _ => 1
  }

  ghost function SizeAll(items: seq<Value>): nat { if items == [] then 0 else Size(items[0]) + SizeAll(items[1..]) }

  ghost function SizeEntries(es: seq<Entry>): nat {
    if es == [] then 0 else 1 + Size(es[0].value) + SizeEntries(es[1..])
  }

  /** A string that is classified as JSON parses to an object or an array no larger
      than its text. */
  ghost predicate Parses(cfg: Config) {
    forall s :: cfg.classify(s).Stringified? ==>
      var p := cfg.classify(s).parsed; (p.Arr? || p.Obj?) && Size(p) <= |s| && Valid(p)
  }

  ghost predicate UniqueKeys(es: seq<Entry>) { forall i, j :: 0 <= i < j < |es| ==> es[i].key != es[j].key }

  /** Objects are ordered maps: no key twice, at any depth. */
  ghost predicate Valid(v: Value) {
    match v
    case Arr(items) => ValidAll(items)
    case Obj(entries) => UniqueKeys(entries) && ValidEntries(entries)
    case _ => true
  }

  ghost predicate ValidAll(items: seq<Value>) { items != [] ==> Valid(items[0]) && ValidAll(items[1..]) }

  ghost predicate ValidEntries(es: seq<Entry>) { es != [] ==> Valid(es[0].value) && ValidEntries(es[1..]) }

  function Get(es: seq<Entry>, key: string): Option<Value> {
    if es == [] then None else if es[0].key == key then Some(es[0].value) else Get(es[1..], key)
  }

  function KeysOf(es: seq<Entry>): (r: seq<string>)
    ensures |r| == |es| && forall i :: 0 <= i < |es| ==> r[i] == es[i].key
  {
    if es == [] then [] else [es[0].key] + KeysOf(es[1..])
  }

  lemma {:induction false} GetIsSmaller(es: seq<Entry>, key: string)
    ensures Get(es, key).Some? ==> Size(Get(es, key).value) < SizeEntries(es)
    ensures Get(es, key).Some? <==> key in KeysOf(es)
    ensures ValidEntries(es) && Get(es, key).Some? ==> Valid(Get(es, key).value)
  {
    if es != [] {
      GetIsSmaller(es[1..], key);
    }
  }

  // ---- the columns ----

  predicate AllObjects(items: seq<Value>) { forall i :: 0 <= i < |items| ==> items[i].Obj? }

  /** In how many items the key occurs. */
  function Freq(items: seq<Value>, key: string): nat
    requires AllObjects(items)
  {
    if items == [] then 0
    else (if Get(items[0].entries, key).Some? then 1 else 0) + Freq(items[1..], key)
  }

  /** Lexicographic order of byte strings. */
  predicate LexLess(a: string, b: string) {
    b != [] && (a == [] || a[0] < b[0] || (a[0] == b[0] && LexLess(a[1..], b[1..])))
  }

  /** Higher frequency first, names ascending among equals. */
  predicate Before(items: seq<Value>, a: string, b: string)
    requires AllObjects(items)
  {
    Freq(items, a) > Freq(items, b) || (Freq(items, a) == Freq(items, b) && LexLess(a, b))
  }

  function InsertKey(items: seq<Value>, ks: seq<string>, key: string): seq<string>
    requires AllObjects(items)
  {
    if ks == [] then [key]
    else if ks[0] == key then ks
    else if Before(items, key, ks[0]) then [key] + ks
    else [ks[0]] + InsertKey(items, ks[1..], key)
  }

  function InsertKeys(items: seq<Value>, ks: seq<string>, more: seq<string>): seq<string>
    requires AllObjects(items)
    decreases |more|
  {
    if more == [] then ks else InsertKeys(items, InsertKey(items, ks, more[0]), more[1..])
  }

  /** The union of the first n items' keys, in column order. */
  function ColumnsTo(items: seq<Value>, n: nat): seq<string>
    requires AllObjects(items) && n <= |items|
  {
    if n == 0 then [] else InsertKeys(items, ColumnsTo(items, n - 1), KeysOf(items[n - 1].entries))
  }

  function Columns(items: seq<Value>): seq<string>
    requires AllObjects(items)
  {
    ColumnsTo(items, |items|)
  }

  // ---- cells and rows ----

  const NESTED_RECURSE_MIN_LEN: nat := 2

  predicate Recurses(v: Value) { v.Arr? && |v.items| >= NESTED_RECURSE_MIN_LEN && AllObjects(v.items) }

  // ---- flattening, column by column ----

  ghost predicate Rectangular(rows: seq<Row>, n: nat) { forall r :: 0 <= r < |rows| ==> |rows[r].cells| == n }

  /** What scanning a column for a shared key list has found. An empty key list
      counts as none found yet, since the source keeps it as a nil slice. */
  datatype Scan = Ragged | Keys(sawObject: bool, canonical: seq<string>)

  function ScanCell(scan: Scan, cell: Cell): Scan {
    if scan.Ragged? then Ragged
    else if cell.Missing? then scan
    else if !(cell.Scalar? && cell.value.Obj?) then Ragged
    else
      var keys := KeysOf(cell.value.entries);
      if scan.canonical == [] then Keys(true, keys)
      else if scan.canonical == keys then Keys(true, keys)
      else Ragged
  }

  ghost function ScanTo(column: seq<Cell>, n: nat): Scan
    requires n <= |column|
  {
    if n == 0 then Keys(false, []) else ScanCell(ScanTo(column, n - 1), column[n - 1])
  }

  /** The key list every object of a plain column shares, or none. */
  ghost function SharedKeys(name: string, column: seq<Cell>): seq<string> {
    var scan := ScanTo(column, |column|);
    if '.' in name || scan.Ragged? || !scan.sawObject then [] else scan.canonical
  }

  /** The inner keys a column flattens into, or none. */
  ghost function InnerKeys(name: string, column: seq<Cell>, cfg: Config): (keys: seq<string>) {
    if |SharedKeys(name, column)| > cfg.maxFlattenInnerKeys then [] else SharedKeys(name, column)
  }

  /** One dotted cell: the value under key k, if the cell holds an object with it. */
  function ExpandedCell(cell: Cell, k: string): Cell {
    if cell.Scalar? && cell.value.Obj? && Get(cell.value.entries, k).Some?
    then Scalar(Get(cell.value.entries, k).value) else Missing
  }

  function ExpandedCells(cell: Cell, keys: seq<string>): (r: seq<Cell>)
    ensures |r| == |keys| && forall j :: 0 <= j < |keys| ==> r[j] == ExpandedCell(cell, keys[j])
  {
    seq(|keys|, j requires 0 <= j < |keys| => ExpandedCell(cell, keys[j]))
  }

  ghost predicate LacksValue(cell: Cell) { cell.Missing? || cell == Scalar(Null) }

  ghost predicate SomeLacks(column: seq<Cell>) {
    column != [] && (LacksValue(column[|column| - 1]) || SomeLacks(column[..|column| - 1]))
  }

  lemma {:induction false} SomeLacksIff(column: seq<Cell>)
    ensures SomeLacks(column) <==> exists r :: 0 <= r < |column| && LacksValue(column[r])
  {
    if column != [] {
      var init := column[..|column| - 1];
      SomeLacksIff(init);
      if SomeLacks(init) {
        var r :| 0 <= r < |init| && LacksValue(init[r]);
        assert column[r] == init[r];
      }
    }
  }

  ghost function ExpandedColumn(column: seq<Cell>, k: string): (r: seq<Cell>)
    ensures |r| == |column|
  {
    seq(|column|, r requires 0 <= r < |column| => ExpandedCell(column[r], k))
  }

  ghost function DottedFields(name: string, column: seq<Cell>, keys: seq<string>): (r: seq<Field>)
    ensures |r| == |keys|
  {
    seq(|keys|, j requires 0 <= j < |keys| => Field(name + "." + keys[j], SomeLacks(ExpandedColumn(column, keys[j]))))
  }

  ghost function Column(rows: seq<Row>, col: nat): (r: seq<Cell>)
    requires forall r :: 0 <= r < |rows| ==> col < |rows[r].cells|
    ensures |r| == |rows|
  {
    seq(|rows|, r requires 0 <= r < |rows| => rows[r].cells[col])
  }

  /** For each column, the inner keys it flattens into. */
  ghost function Plan(fields: seq<Field>, rows: seq<Row>, cfg: Config): (plan: seq<seq<string>>)
    requires Rectangular(rows, |fields|)
    ensures |plan| == |fields|
    ensures forall c :: 0 <= c < |plan| ==> plan[c] == InnerKeys(fields[c].name, Column(rows, c), cfg)
  {
    seq(|fields|, c requires 0 <= c < |fields| => InnerKeys(fields[c].name, Column(rows, c), cfg))
  }

  /** How many columns the first n columns become. */
  ghost function FlatLength(plan: seq<seq<string>>, n: nat): nat
    requires n <= |plan|
  {
    if n == 0 then 0 else FlatLength(plan, n - 1) + (if plan[n - 1] == [] then 1 else |plan[n - 1]|)
  }

  ghost function FlatFields(fields: seq<Field>, rows: seq<Row>, plan: seq<seq<string>>, n: nat): (r: seq<Field>)
    requires n <= |fields| == |plan| && Rectangular(rows, |fields|)
    ensures |r| == FlatLength(plan, n)
  {
    if n == 0 then []
    else
      FlatFields(fields, rows, plan, n - 1)
        + (if plan[n - 1] == [] then [fields[n - 1]]
          else DottedFields(fields[n - 1].name, Column(rows, n - 1), plan[n - 1]))
  }

  ghost function FlatCells(cells: seq<Cell>, plan: seq<seq<string>>, n: nat): (r: seq<Cell>)
    requires n <= |cells| == |plan|
    ensures |r| == FlatLength(plan, n)
  {
    if n == 0 then []
    else FlatCells(cells, plan, n - 1)
           + (if plan[n - 1] == [] then [cells[n - 1]] else ExpandedCells(cells[n - 1], plan[n - 1]))
  }

  ghost function FlatRows(rows: seq<Row>, plan: seq<seq<string>>): (r: seq<Row>)
    requires Rectangular(rows, |plan|)
    ensures |r| == |rows| && forall k :: 0 <= k < |rows| ==> r[k] == Row(FlatCells(rows[k].cells, plan, |plan|))
  {
    seq(|rows|, k requires 0 <= k < |rows| => Row(FlatCells(rows[k].cells, plan, |plan|)))
  }

  ghost function Flattened(fields: seq<Field>, rows: seq<Row>, cfg: Config, count: nat): Compacted
    requires Rectangular(rows, |fields|)
  {
    var plan := Plan(fields, rows, cfg);
    Table(FlatFields(fields, rows, plan, |fields|), FlatRows(rows, plan), count)
  }

  // ---- the in-place pass ----

  method UniformObjectKeys(name: string, rows: array<Row>, col: nat) returns (keys: seq<string>)
    requires forall r :: 0 <= r < rows.Length ==> col < |rows[r].cells|
    ensures keys == SharedKeys(name, Column(rows[..], col))
  {
    if '.' in name {
      return [];
    }
    ghost var column := Column(rows[..], col);
    var canonical := [];
    var sawObject := false;
    for r := 0 to rows.Length
      invariant ScanTo(column, r) == Keys(sawObject, canonical)
    {
      var cell := rows[r].cells[col];
      assert column[r] == cell;
      if cell.Missing? {
        continue;
      }
      if !cell.Scalar? || !cell.value.Obj? {
        RaggedStays(column, r + 1);
        return [];
      }
      var ks := KeysOf(cell.value.entries);
      sawObject := true;
      if canonical == [] {
        canonical := ks;
      } else if canonical != ks {
        RaggedStays(column, r + 1);
        return [];
      }
    }
    keys := if !sawObject then [] else canonical;
  }

  lemma {:induction false} RaggedStays(column: seq<Cell>, n: nat)
    requires n <= |column| && ScanTo(column, n) == Ragged
    ensures ScanTo(column, |column|) == Ragged
    decreases |column| - n
  {
    if n < |column| {
      RaggedStays(column, n + 1);
    }
  }

  method InferNullable(rows: array<Row>, col: nat) returns (nullable: bool)
    requires forall r :: 0 <= r < rows.Length ==> col < |rows[r].cells|
    ensures nullable == SomeLacks(Column(rows[..], col))
  {
    ghost var column := Column(rows[..], col);
    nullable := false;
    for r := 0 to rows.Length
      invariant nullable == SomeLacks(column[..r])
    {
      var cell := rows[r].cells[col];
      assert cell == column[r] && column[..r + 1][..r] == column[..r];
      if cell.Missing? || (cell.Scalar? && cell.value.Null?) {
        nullable := true;
      }
    }
    assert column[..rows.Length] == column;
  }

  ghost function SplicedRows(rows: seq<Row>, i: nat, keys: seq<string>): (r: seq<Row>)
    requires forall k :: 0 <= k < |rows| ==> i < |rows[k].cells|
    ensures |r| == |rows|
    ensures forall k :: 0 <= k < |rows| ==>
      r[k] == Row(rows[k].cells[..i] + ExpandedCells(rows[k].cells[i], keys) + rows[k].cells[i + 1..])
  {
    seq(|rows|, k requires 0 <= k < |rows| =>
      Row(rows[k].cells[..i] + ExpandedCells(rows[k].cells[i], keys) + rows[k].cells[i + 1..]))
  }

  /** Replaces cell i of every row by its dotted cells. */
  method ExpandRows(rows: array<Row>, i: nat, keys: seq<string>)
    requires forall r :: 0 <= r < rows.Length ==> i < |rows[r].cells|
    modifies rows
    ensures rows[..] == SplicedRows(old(rows[..]), i, keys)
  {
    for r := 0 to rows.Length
      invariant rows[..r] == SplicedRows(old(rows[..]), i, keys)[..r]
      invariant forall k :: r <= k < rows.Length ==> rows[k] == old(rows[k])
    {
      var cells := rows[r].cells;
      rows[r] := Row(cells[..i] + ExpandedCells(cells[i], keys) + cells[i + 1..]);
    }
  }

  /** Types the dotted columns from their cells. */
  method RefineNullable(specs: seq<Field>, rows: array<Row>, i: nat, n: nat) returns (out: seq<Field>)
    requires i + n <= |specs| && forall r :: 0 <= r < rows.Length ==> i + n <= |rows[r].cells|
    ensures |out| == |specs| && out[..i] == specs[..i] && out[i + n..] == specs[i + n..]
    ensures forall j :: i <= j < i + n ==>
      out[j] == Field(specs[j].name, SomeLacks(Column(rows[..], j)))
  {
    out := specs;
    for j := i to i + n
      invariant |out| == |specs| && out[..i] == specs[..i] && out[j..] == specs[j..]
      invariant forall k :: i <= k < j ==>
        out[k] == Field(specs[k].name, SomeLacks(Column(rows[..], k)))
    {
      var nullable := InferNullable(rows, j);
      assert out[j] == out[j..][0] == specs[j..][0];
      assert out[j + 1..] == out[j..][1..] && specs[j + 1..] == specs[j..][1..];
      out := out[j := out[j].(nullable := nullable)];
    }
  }

  lemma {:induction false} ExpandedRowsColumn(rows: seq<Row>, i: nat, keys: seq<string>, j: nat)
    requires j < |keys| && forall r :: 0 <= r < |rows| ==> i < |rows[r].cells|
    ensures Column(SplicedRows(rows, i, keys), i + j) == ExpandedColumn(Column(rows, i), keys[j])
  {
  }

  lemma {:induction false} Middle<T>(s: seq<T>, a: seq<T>, mid: seq<T>, b: seq<T>)
    requires |s| == |a| + |mid| + |b| && s[..|a|] == a && s[|a| + |mid|..] == b
    requires forall j :: 0 <= j < |mid| ==> s[|a| + j] == mid[j]
    ensures s == a + mid + b
  {
  }

  lemma {:induction false} RefinedIs(spliced: seq<Field>, out: seq<Field>, now: seq<Row>, before: seq<Row>, i: nat,
                                     name: string, keys: seq<string>)
    requires i + |keys| <= |spliced| == |out| && (forall r :: 0 <= r < |before| ==> i < |before[r].cells|)
    requires now == SplicedRows(before, i, keys)
    requires out[..i] == spliced[..i] && out[i + |keys|..] == spliced[i + |keys|..]
    requires forall j :: i <= j < i + |keys| ==>
      spliced[j].name == name + "." + keys[j - i] && out[j] == Field(spliced[j].name, SomeLacks(Column(now, j)))
    ensures out == spliced[..i] + DottedFields(name, Column(before, i), keys) + spliced[i + |keys|..]
  {
    var dotted := DottedFields(name, Column(before, i), keys);
    forall j | 0 <= j < |keys| ensures out[i + j] == dotted[j] {
      ExpandedRowsColumn(before, i, keys, j);
    }
    Middle(out, spliced[..i], dotted, spliced[i + |keys|..]);
  }

  method ExpandColumn(specs: seq<Field>, rows: array<Row>, i: nat, keys: seq<string>) returns (out: seq<Field>)
    requires i < |specs| && Rectangular(rows[..], |specs|)
    modifies rows
    ensures out == specs[..i] + DottedFields(specs[i].name, Column(old(rows[..]), i), keys) + specs[i + 1..]
    ensures rows[..] == SplicedRows(old(rows[..]), i, keys)
  {
    var newSpecs := seq(|keys|, j requires 0 <= j < |keys| => Field(specs[i].name + "." + keys[j], false));
    var spliced := specs[..i] + newSpecs + specs[i + 1..];
    ghost var before := rows[..];
    ExpandRows(rows, i, keys);
    forall r | 0 <= r < rows.Length ensures i + |keys| <= |rows[r].cells| {
      assert rows[r] == rows[..][r];
    }
    out := RefineNullable(spliced, rows, i, |keys|);
    RefinedIs(spliced, out, rows[..], before, i, specs[i].name, keys);
    assert spliced[..i] == specs[..i] && spliced[i + |keys|..] == specs[i + 1..];
  }

  /** Rows whose first c columns are flattened. */
  ghost function RowsSoFar(rows0: seq<Row>, plan: seq<seq<string>>, c: nat): (r: seq<Row>)
    requires c <= |plan| && Rectangular(rows0, |plan|)
    ensures |r| == |rows0|
    ensures forall k :: 0 <= k < |r| ==> r[k] == Row(FlatCells(rows0[k].cells, plan, c) + rows0[k].cells[c..])
  {
    seq(|rows0|, k requires 0 <= k < |rows0| => Row(FlatCells(rows0[k].cells, plan, c) + rows0[k].cells[c..]))
  }

  ghost function FieldsSoFar(fields: seq<Field>, rows0: seq<Row>, plan: seq<seq<string>>, c: nat): (r: seq<Field>)
    requires c <= |fields| == |plan| && Rectangular(rows0, |fields|)
    ensures |r| == FlatLength(plan, c) + (|plan| - c)
  {
    FlatFields(fields, rows0, plan, c) + fields[c..]
  }

  lemma {:induction false} ColumnIsNext(fields: seq<Field>, rows0: seq<Row>, plan: seq<seq<string>>, c: nat)
    requires c < |fields| == |plan| && Rectangular(rows0, |fields|)
    ensures var i, specs, rows := FlatLength(plan, c), FieldsSoFar(fields, rows0, plan, c), RowsSoFar(rows0, plan, c);
            Rectangular(rows, |specs|) && specs[i] == fields[c] && Column(rows, i) == Column(rows0, c)
  {
    var i, rows := FlatLength(plan, c), RowsSoFar(rows0, plan, c);
    forall r | 0 <= r < |rows| ensures rows[r].cells[i] == rows0[r].cells[c] {
    }
  }

  lemma {:induction false} HeadMoves<T>(before: seq<T>, s: seq<T>, c: nat)
    requires c < |s|
    ensures before + s[c..] == (before + [s[c]]) + s[c + 1..]
  {
  }

  lemma {:induction false} KeepStep(fields: seq<Field>, rows0: seq<Row>, plan: seq<seq<string>>, c: nat)
    requires c < |fields| == |plan| && Rectangular(rows0, |fields|) && plan[c] == []
    ensures FieldsSoFar(fields, rows0, plan, c + 1) == FieldsSoFar(fields, rows0, plan, c)
    ensures RowsSoFar(rows0, plan, c + 1) == RowsSoFar(rows0, plan, c)
  {
    HeadMoves(FlatFields(fields, rows0, plan, c), fields, c);
    forall r | 0 <= r < |rows0| ensures RowsSoFar(rows0, plan, c + 1)[r] == RowsSoFar(rows0, plan, c)[r] {
      HeadMoves(FlatCells(rows0[r].cells, plan, c), rows0[r].cells, c);
    }
  }

  lemma {:induction false} HeadReplaced<T>(before: seq<T>, s: seq<T>, c: nat, mid: seq<T>)
    requires c < |s|
    ensures var whole := before + s[c..];
            whole[|before|] == s[c] && whole[..|before|] + mid + whole[|before| + 1..] == (before + mid) + s[c + 1..]
  {
  }

  lemma {:induction false} ExpandFieldsStep(fields: seq<Field>, rows0: seq<Row>, plan: seq<seq<string>>, c: nat)
    requires c < |fields| == |plan| && Rectangular(rows0, |fields|) && plan[c] != []
    ensures var i, specs := FlatLength(plan, c), FieldsSoFar(fields, rows0, plan, c);
            FieldsSoFar(fields, rows0, plan, c + 1)
              == specs[..i] + DottedFields(fields[c].name, Column(rows0, c), plan[c]) + specs[i + 1..]
  {
    HeadReplaced(FlatFields(fields, rows0, plan, c), fields, c,
                 DottedFields(fields[c].name, Column(rows0, c), plan[c]));
  }

  lemma {:induction false} ExpandRowsStep(rows0: seq<Row>, plan: seq<seq<string>>, c: nat)
    requires c < |plan| && Rectangular(rows0, |plan|) && plan[c] != []
    ensures var i, rows := FlatLength(plan, c), RowsSoFar(rows0, plan, c);
            && (forall k :: 0 <= k < |rows| ==> i < |rows[k].cells|)
            && RowsSoFar(rows0, plan, c + 1) == SplicedRows(rows, i, plan[c])
  {
    var i, rows := FlatLength(plan, c), RowsSoFar(rows0, plan, c);
    forall r | 0 <= r < |rows0| ensures RowsSoFar(rows0, plan, c + 1)[r] == SplicedRows(rows, i, plan[c])[r] {
      HeadReplaced(FlatCells(rows0[r].cells, plan, c), rows0[r].cells, c, ExpandedCells(rows0[r].cells[c], plan[c]));
    }
  }

  /** One round at column i: kept, or replaced by its dotted columns. */
  method FlattenStep(specs: seq<Field>, rows: array<Row>, i: nat, cfg: Config,
                     ghost fields: seq<Field>, ghost rows0: seq<Row>, ghost plan: seq<seq<string>>, ghost c: nat)
    returns (specs': seq<Field>, i': nat)
    requires c < |fields| == |plan| && Rectangular(rows0, |fields|) && plan == Plan(fields, rows0, cfg)
    requires i == FlatLength(plan, c) && specs == FieldsSoFar(fields, rows0, plan, c)
    requires rows[..] == RowsSoFar(rows0, plan, c)
    modifies rows
    ensures i' == FlatLength(plan, c + 1)
    ensures specs' == FieldsSoFar(fields, rows0, plan, c + 1) && rows[..] == RowsSoFar(rows0, plan, c + 1)
  {
    ColumnIsNext(fields, rows0, plan, c);
    var keys := KeysAt(specs, rows, i);
    if |keys| == 0 || |keys| > cfg.maxFlattenInnerKeys {
      KeepStep(fields, rows0, plan, c);
      return specs, i + 1;
    }
    ExpandFieldsStep(fields, rows0, plan, c);
    ExpandRowsStep(rows0, plan, c);
    specs' := ExpandColumn(specs, rows, i, keys);
    i' := i + |keys|;
  }

  /** The walk over the growing list: it ends because every round leaves one column
      fewer behind it. */
  method FlattenUniformNested(fields: seq<Field>, rows: array<Row>, cfg: Config) returns (specs: seq<Field>)
    requires Rectangular(rows[..], |fields|)
    modifies rows
    ensures specs == Flattened(fields, old(rows[..]), cfg, rows.Length).fields
    ensures rows[..] == Flattened(fields, old(rows[..]), cfg, rows.Length).rows
  {
    specs := fields;
    var i := 0;
    ghost var c := 0;
    ghost var rows0 := rows[..];
    ghost var plan := Plan(fields, rows0, cfg);
    NothingFlat(fields, rows0, plan);
    while i < |specs|
      invariant c <= |fields| && i == FlatLength(plan, c)
      invariant specs == FieldsSoFar(fields, rows0, plan, c) && rows[..] == RowsSoFar(rows0, plan, c)
      decreases |specs| - i
    {
      specs, i := FlattenStep(specs, rows, i, cfg, fields, rows0, plan, c);
      c := c + 1;
    }
    WalkIsDone(fields, rows0, cfg, c, i, specs, rows[..]);
  }

  /** When no column is left behind i, the table is flattened. */
  lemma {:induction false} WalkIsDone(fields: seq<Field>, rows0: seq<Row>, cfg: Config, c: nat, i: nat,
                                      specs: seq<Field>, rows: seq<Row>)
    requires Rectangular(rows0, |fields|) && c <= |fields|
    requires var plan := Plan(fields, rows0, cfg);
             && i == FlatLength(plan, c) && specs == FieldsSoFar(fields, rows0, plan, c)
             && rows == RowsSoFar(rows0, plan, c)
    requires i >= |specs|
    ensures var t := Flattened(fields, rows0, cfg, |rows0|); specs == t.fields && rows == t.rows
  {
    assert c == |fields|;
    AllFlat(fields, rows0, Plan(fields, rows0, cfg));
  }

  lemma {:induction false} NothingFlat(fields: seq<Field>, rows0: seq<Row>, plan: seq<seq<string>>)
    requires |fields| == |plan| && Rectangular(rows0, |plan|)
    ensures FieldsSoFar(fields, rows0, plan, 0) == fields && RowsSoFar(rows0, plan, 0) == rows0
  {
    forall r | 0 <= r < |rows0| ensures RowsSoFar(rows0, plan, 0)[r] == rows0[r] {
      assert [] + rows0[r].cells[0..] == rows0[r].cells;
    }
  }

  method KeysAt(specs: seq<Field>, rows: array<Row>, i: nat) returns (keys: seq<string>)
    requires i < |specs| && Rectangular(rows[..], |specs|)
    ensures keys == SharedKeys(specs[i].name, Column(rows[..], i))
  {
    forall r | 0 <= r < rows.Length ensures i < |rows[r].cells| {
      assert rows[r] == rows[..][r];
    }
    keys := UniformObjectKeys(specs[i].name, rows, i);
  }

  lemma {:induction false} AllFlat(fields: seq<Field>, rows0: seq<Row>, plan: seq<seq<string>>)
    requires |fields| == |plan| && Rectangular(rows0, |fields|)
    ensures FieldsSoFar(fields, rows0, plan, |fields|) == FlatFields(fields, rows0, plan, |fields|)
    ensures RowsSoFar(rows0, plan, |fields|) == FlatRows(rows0, plan)
  {
    var n := |fields|;
    assert fields[n..] == [];
    forall r | 0 <= r < |rows0| ensures RowsSoFar(rows0, plan, n)[r] == FlatRows(rows0, plan)[r] {
      assert rows0[r].cells[n..] == [];
    }
  }

  // ---- the whole ----

  /** The cell a value becomes; see CellFromValue for the method. */
  ghost function CellOf(v: Value, cfg: Config): (cell: Cell)
    requires Parses(cfg)
    ensures cell != Missing && (cell == Scalar(Null) <==> v == Null)
    ensures v.Obj? ==> cell == Scalar(v)
    ensures v.Bool? || v.Number? ==> cell == Scalar(v)
    decreases Size(v), 0, 0
  {
    match v
    case Arr(items) => if Recurses(v) then Nested(CompactOf(items, cfg)) else Scalar(v)
    case Str(s) =>
      var found := cfg.classify(s);
      (match found
       case Plain => Scalar(v)
       case Opaque(kind) => OpaqueRef(cfg.hash(s), |s|, kind)
       case Stringified(p) => if Recurses(p) then Nested(CompactOf(p.items, cfg)) else Scalar(p))
    case _ => Scalar(v)
  }

  ghost function RowOf(es: seq<Entry>, keys: seq<string>, cfg: Config): (cells: seq<Cell>)
    requires Parses(cfg)
    ensures |cells| == |keys|
    decreases SizeEntries(es), 1, |keys|
  {
    if keys == [] then []
    else
      GetIsSmaller(es, keys[|keys| - 1]);
      var v := Get(es, keys[|keys| - 1]);
      RowOf(es, keys[..|keys| - 1], cfg) + [if v.None? then Missing else CellOf(v.value, cfg)]
  }

  ghost function RowsOf(items: seq<Value>, keys: seq<string>, cfg: Config): (rows: seq<Row>)
    requires Parses(cfg) && AllObjects(items)
    ensures |rows| == |items| && Rectangular(rows, |keys|)
    decreases SizeAll(items), 1, |items|
  {
    if items == [] then []
    else
      assert Size(items[0]) == 1 + SizeEntries(items[0].entries);
      [Row(RowOf(items[0].entries, keys, cfg))] + RowsOf(items[1..], keys, cfg)
  }

  predicate HasExplicitNull(items: seq<Value>, key: string)
    requires AllObjects(items)
  {
    items != [] && (Get(items[0].entries, key) == Some(Null) || HasExplicitNull(items[1..], key))
  }

  function FieldsOf(items: seq<Value>, keys: seq<string>): (fields: seq<Field>)
    requires AllObjects(items)
    ensures |fields| == |keys|
  {
    seq(|keys|, c requires 0 <= c < |keys| =>
      Field(keys[c], Freq(items, keys[c]) < |items| || HasExplicitNull(items, keys[c])))
  }

  ghost function CompactOf(items: seq<Value>, cfg: Config): Compacted
    requires Parses(cfg)
    decreases SizeAll(items), 2, 0
  {
    if |items| < cfg.minItems || !AllObjects(items) then Untouched(Arr(items))
    else
      var keys := Columns(items);
      Flattened(FieldsOf(items, keys), RowsOf(items, keys, cfg), cfg, |items|)
  }

  lemma {:induction false} RowsOfAt(items: seq<Value>, keys: seq<string>, cfg: Config, r: nat)
    requires Parses(cfg) && AllObjects(items) && r < |items|
    ensures RowsOf(items, keys, cfg)[r] == Row(RowOf(items[r].entries, keys, cfg))
  {
    if r > 0 {
      RowsOfAt(items[1..], keys, cfg, r - 1);
    }
  }

  lemma {:induction false} ItemIsSmaller(items: seq<Value>, r: nat)
    requires AllObjects(items) && r < |items|
    ensures SizeEntries(items[r].entries) < SizeAll(items)
    ensures ValidAll(items) ==> UniqueKeys(items[r].entries) && ValidEntries(items[r].entries)
  {
    if r == 0 {
      assert Size(items[0]) == 1 + SizeEntries(items[0].entries);
      assert ValidAll(items) ==> Valid(items[0]);
    } else {
      ItemIsSmaller(items[1..], r - 1);
    }
  }

  method CellFromValue(v: Value, cfg: Config) returns (cell: Cell)
    requires Parses(cfg)
    ensures cell == CellOf(v, cfg)
    decreases Size(v), 0, 0
  {
    if v.Arr? && Recurses(v) {
      var inner := Compact(v.items, cfg);
      return Nested(inner);
    }
    if v.Str? {
      var found := cfg.classify(v.s);
      match found {
        case Plain => return Scalar(v);
        case Opaque(kind) => return OpaqueRef(cfg.hash(v.s), |v.s|, kind);
        case Stringified(p) =>
          if Recurses(p) {
            var inner := Compact(p.items, cfg);
            return Nested(inner);
          }
          return Scalar(p);
      }
    }
    return Scalar(v);
  }

  method BuildRow(es: seq<Entry>, keys: seq<string>, cfg: Config) returns (cells: seq<Cell>)
    requires Parses(cfg)
    ensures cells == RowOf(es, keys, cfg)
    decreases SizeEntries(es), 1, 0
  {
    cells := [];
    for i := 0 to |keys|
      invariant cells == RowOf(es, keys[..i], cfg)
    {
      assert keys[..i + 1][..i] == keys[..i];
      var v := Get(es, keys[i]);
      if v.None? {
        cells := cells + [Missing];
      } else {
        GetIsSmaller(es, keys[i]);
        var cell := CellFromValue(v.value, cfg);
        cells := cells + [cell];
      }
    }
    assert keys[..|keys|] == keys;
  }

  method BuildHomogeneousTable(items: seq<Value>, keys: seq<string>, cfg: Config) returns (c: Compacted)
    requires Parses(cfg) && AllObjects(items)
    ensures c == Flattened(FieldsOf(items, keys), RowsOf(items, keys, cfg), cfg, |items|)
    decreases SizeAll(items), 1, 0
  {
    var rows := new Row[|items|](_ => Row([]));
    for i := 0 to |items|
      invariant rows[..i] == RowsOf(items, keys, cfg)[..i]
    {
      ItemIsSmaller(items, i);
      RowsOfAt(items, keys, cfg, i);
      var cells := BuildRow(items[i].entries, keys, cfg);
      rows[i] := Row(cells);
    }
    assert rows[..] == rows[..|items|] == RowsOf(items, keys, cfg);
    var specs := FlattenUniformNested(FieldsOf(items, keys), rows, cfg);
    return Table(specs, rows[..], |items|);
  }

  /** Too short, or something not an object: left alone. */
  method Compact(items: seq<Value>, cfg: Config) returns (c: Compacted)
    requires Parses(cfg)
    ensures c == CompactOf(items, cfg)
    decreases SizeAll(items), 2, 0
  {
    if |items| < cfg.minItems || !AllObjects(items) {
      return Untouched(Arr(items));
    }
    c := BuildHomogeneousTable(items, Columns(items), cfg);
  }

  // ---- the column order ----

  lemma {:induction false} LexTotal(a: string, b: string)
    ensures a != b ==> LexLess(a, b) || LexLess(b, a)
    ensures !(LexLess(a, b) && LexLess(b, a)) && !LexLess(a, a)
  {
    if a != [] && b != [] {
      LexTotal(a[1..], b[1..]);
      assert a == [a[0]] + a[1..] && b == [b[0]] + b[1..];
      LexTotal(a[1..], a[1..]);
    } else if a != [] {
      LexTotal(a[1..], a[1..]);
    }
  }

  lemma {:induction false} LexTransitive(a: string, b: string, c: string)
    requires LexLess(a, b) && LexLess(b, c)
    ensures LexLess(a, c)
  {
    if a != [] && a[0] == b[0] && b[0] == c[0] {
      LexTransitive(a[1..], b[1..], c[1..]);
    }
  }

  ghost predicate InColumnOrder(items: seq<Value>, ks: seq<string>)
    requires AllObjects(items)
  {
    forall i, j :: 0 <= i < j < |ks| ==> Before(items, ks[i], ks[j])
  }

  lemma {:induction false} BeforeTransitive(items: seq<Value>, a: string, b: string, c: string)
    requires AllObjects(items) && Before(items, a, b) && Before(items, b, c)
    ensures Before(items, a, c)
  {
    if LexLess(a, b) && LexLess(b, c) {
      LexTransitive(a, b, c);
    }
  }

  lemma {:induction false} InsertKeepsOrder(items: seq<Value>, ks: seq<string>, key: string)
    requires AllObjects(items) && InColumnOrder(items, ks)
    ensures InColumnOrder(items, InsertKey(items, ks, key))
    ensures forall k :: k in InsertKey(items, ks, key) <==> k in ks || k == key
  {
    var r := InsertKey(items, ks, key);
    if ks == [] || ks[0] == key {
    } else if Before(items, key, ks[0]) {
      forall j | 1 <= j < |r| ensures Before(items, key, r[j]) {
        if j > 1 {
          BeforeTransitive(items, key, ks[0], ks[j - 1]);
        }
      }
    } else {
      LexTotal(key, ks[0]);
      var tail := InsertKey(items, ks[1..], key);
      InsertKeepsOrder(items, ks[1..], key);
      forall j | 0 <= j < |tail| ensures Before(items, ks[0], tail[j]) {
        assert tail[j] in tail;
        if tail[j] != key {
          var i :| 0 <= i < |ks[1..]| && ks[1..][i] == tail[j];
        }
      }
    }
  }

  lemma {:induction false} InsertAllKeepsOrder(items: seq<Value>, ks: seq<string>, more: seq<string>)
    requires AllObjects(items) && InColumnOrder(items, ks)
    ensures InColumnOrder(items, InsertKeys(items, ks, more))
    ensures forall k :: k in InsertKeys(items, ks, more) <==> k in ks || k in more
    decreases |more|
  {
    if more != [] {
      InsertKeepsOrder(items, ks, more[0]);
      InsertAllKeepsOrder(items, InsertKey(items, ks, more[0]), more[1..]);
    }
  }

  ghost predicate OccursIn(items: seq<Value>, n: nat, key: string)
    requires AllObjects(items) && n <= |items|
  {
    exists i :: 0 <= i < n && key in KeysOf(items[i].entries)
  }

  /** The columns are the keys of the items, each once, by descending frequency and
      ascending name. */
  lemma {:induction false} ColumnsAreOrdered(items: seq<Value>, n: nat)
    requires AllObjects(items) && n <= |items|
    ensures InColumnOrder(items, ColumnsTo(items, n))
    ensures forall k :: k in ColumnsTo(items, n) <==> OccursIn(items, n, k)
  {
    if n > 0 {
      ColumnsAreOrdered(items, n - 1);
      InsertAllKeepsOrder(items, ColumnsTo(items, n - 1), KeysOf(items[n - 1].entries));
      forall k ensures OccursIn(items, n, k) <==> OccursIn(items, n - 1, k) || k in KeysOf(items[n - 1].entries) {
      }
    }
  }

  lemma {:induction false} ColumnsAreUnique(items: seq<Value>)
    requires AllObjects(items)
    ensures Unique(Columns(items))
  {
    ColumnsAreOrdered(items, |items|);
    forall i, j | 0 <= i < j < |Columns(items)| ensures Columns(items)[i] != Columns(items)[j] {
      LexTotal(Columns(items)[i], Columns(items)[i]);
    }
  }

  // ---- what every table satisfies ----

  /** Through all flattening, every row keeps one cell per field. */
  lemma {:induction false} TablesAreRectangular(items: seq<Value>, cfg: Config)
    requires Parses(cfg) && CompactOf(items, cfg).Table?
    ensures var t := CompactOf(items, cfg);
            |t.rows| == |items| == t.originalCount && Rectangular(t.rows, |t.fields|)
  {
  }

  ghost predicate ItemLacks(item: Value, key: string)
    requires item.Obj?
  {
    Get(item.entries, key).None? || Get(item.entries, key) == Some(Null)
  }

  lemma {:induction false} NullableFromItems(items: seq<Value>, key: string)
    requires AllObjects(items)
    ensures Freq(items, key) <= |items|
    ensures Freq(items, key) < |items| || HasExplicitNull(items, key)
       ==> exists i :: 0 <= i < |items| && ItemLacks(items[i], key)
    ensures (exists i :: 0 <= i < |items| && ItemLacks(items[i], key))
       ==> Freq(items, key) < |items| || HasExplicitNull(items, key)
  {
    if items != [] {
      NullableFromItems(items[1..], key);
      if ItemLacks(items[0], key) {
      } else if Freq(items, key) < |items| || HasExplicitNull(items, key) {
        var i :| 0 <= i < |items[1..]| && ItemLacks(items[1..][i], key);
        assert items[i + 1] == items[1..][i];
      }
      forall i | 0 < i < |items| && ItemLacks(items[i], key) ensures ItemLacks(items[1..][i - 1], key) {
      }
    }
  }

  lemma {:induction false} RowOfAt(es: seq<Entry>, keys: seq<string>, cfg: Config, c: nat)
    requires Parses(cfg) && c < |keys|
    ensures var v := Get(es, keys[c]);
            RowOf(es, keys, cfg)[c] == if v.None? then Missing else CellOf(v.value, cfg)
  {
    if c < |keys| - 1 {
      RowOfAt(es, keys[..|keys| - 1], cfg, c);
    }
  }

  lemma {:induction false} BuiltLacks(items: seq<Value>, keys: seq<string>, cfg: Config, c: nat, r: nat)
    requires Parses(cfg) && AllObjects(items) && c < |keys| && r < |items|
    ensures LacksValue(RowsOf(items, keys, cfg)[r].cells[c]) <==> ItemLacks(items[r], keys[c])
  {
    RowsOfAt(items, keys, cfg, r);
    RowOfAt(items[r].entries, keys, cfg, c);
  }

  /** Before flattening, a column is nullable exactly when a row lacks a value there. */
  lemma {:induction false} BuiltNullable(items: seq<Value>, keys: seq<string>, cfg: Config, c: nat)
    requires Parses(cfg) && AllObjects(items) && c < |keys|
    ensures FieldsOf(items, keys)[c].nullable == SomeLacks(Column(RowsOf(items, keys, cfg), c))
  {
    var column := Column(RowsOf(items, keys, cfg), c);
    NullableFromItems(items, keys[c]);
    SomeLacksIff(column);
    if FieldsOf(items, keys)[c].nullable {
      var i :| 0 <= i < |items| && ItemLacks(items[i], keys[c]);
      BuiltLacks(items, keys, cfg, c, i);
      assert LacksValue(column[i]);
    }
    if SomeLacks(column) {
      var r :| 0 <= r < |column| && LacksValue(column[r]);
      BuiltLacks(items, keys, cfg, c, r);
    }
  }

  ghost predicate NullableIsExact(fields: seq<Field>, rows: seq<Row>)
    requires Rectangular(rows, |fields|)
  {
    forall c :: 0 <= c < |fields| ==> fields[c].nullable == SomeLacks(Column(rows, c))
  }

  /** Column d after flattening the first n columns. */
  ghost function FlatColumn(rows: seq<Row>, plan: seq<seq<string>>, n: nat, d: nat): (column: seq<Cell>)
    requires n <= |plan| && Rectangular(rows, |plan|) && d < FlatLength(plan, n)
    ensures |column| == |rows|
  {
    seq(|rows|, r requires 0 <= r < |rows| => FlatCells(rows[r].cells, plan, n)[d])
  }

  lemma {:induction false} FlatColumnIs(rows: seq<Row>, plan: seq<seq<string>>, n: nat, d: nat)
    requires 0 < n <= |plan| && Rectangular(rows, |plan|) && d < FlatLength(plan, n)
    ensures FlatColumn(rows, plan, n, d) ==
              if d < FlatLength(plan, n - 1) then FlatColumn(rows, plan, n - 1, d)
              else if plan[n - 1] == [] then Column(rows, n - 1)
              else ExpandedColumn(Column(rows, n - 1), plan[n - 1][d - FlatLength(plan, n - 1)])
  {
  }

  lemma {:induction false} FlatLacksIs(rows: seq<Row>, plan: seq<seq<string>>, n: nat, d: nat)
    requires 0 < n <= |plan| && Rectangular(rows, |plan|) && d < FlatLength(plan, n)
    ensures SomeLacks(FlatColumn(rows, plan, n, d)) ==
              if d < FlatLength(plan, n - 1) then SomeLacks(FlatColumn(rows, plan, n - 1, d))
              else if plan[n - 1] == [] then SomeLacks(Column(rows, n - 1))
              else SomeLacks(ExpandedColumn(Column(rows, n - 1), plan[n - 1][d - FlatLength(plan, n - 1)]))
  {
    FlatColumnIs(rows, plan, n, d);
  }

  /** Whether field d is nullable after flattening the first n columns. */
  lemma {:induction false} FlatFieldIs(fields: seq<Field>, rows: seq<Row>, plan: seq<seq<string>>, n: nat, d: nat)
    requires 0 < n <= |fields| == |plan| && Rectangular(rows, |fields|) && d < FlatLength(plan, n)
    ensures FlatFields(fields, rows, plan, n)[d].nullable ==
              if d < FlatLength(plan, n - 1) then FlatFields(fields, rows, plan, n - 1)[d].nullable
              else if plan[n - 1] == [] then fields[n - 1].nullable
              else SomeLacks(ExpandedColumn(Column(rows, n - 1), plan[n - 1][d - FlatLength(plan, n - 1)]))
  {
  }

  lemma {:induction false} FlatNullable(fields: seq<Field>, rows: seq<Row>, plan: seq<seq<string>>, n: nat, d: nat)
    requires n <= |fields| == |plan| && Rectangular(rows, |fields|) && NullableIsExact(fields, rows)
    requires d < FlatLength(plan, n)
    ensures FlatFields(fields, rows, plan, n)[d].nullable == SomeLacks(FlatColumn(rows, plan, n, d))
  {
    FlatLacksIs(rows, plan, n, d);
    FlatFieldIs(fields, rows, plan, n, d);
    if d < FlatLength(plan, n - 1) {
      FlatNullable(fields, rows, plan, n - 1, d);
    }
  }

  /** A field of a table is nullable exactly when some row has no value in it. */
  lemma {:induction false} NullableIff(items: seq<Value>, cfg: Config, d: nat)
    requires Parses(cfg) && CompactOf(items, cfg).Table? && d < |CompactOf(items, cfg).fields|
    ensures var t := CompactOf(items, cfg);
            Rectangular(t.rows, |t.fields|) && t.fields[d].nullable == SomeLacks(Column(t.rows, d))
  {
    var keys := Columns(items);
    var fields, rows := FieldsOf(items, keys), RowsOf(items, keys, cfg);
    var plan := Plan(fields, rows, cfg);
    forall c | 0 <= c < |fields| ensures fields[c].nullable == SomeLacks(Column(rows, c)) {
      BuiltNullable(items, keys, cfg, c);
    }
    FlatNullable(fields, rows, plan, |fields|, d);
    assert Column(FlatRows(rows, plan), d) == FlatColumn(rows, plan, |fields|, d);
  }
}
