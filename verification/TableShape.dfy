/** The shape of a compaction table, said of the items alone:
    internal/smartcrusher/compaction/compactor.go. */
module TableShape {

  import opened Common
  import opened Compaction
  import opened CompactionLossless

  // ---- the order of the columns ----

  /** The items from k on that hold the key. */
  ghost function HoldersFrom(items: seq<Value>, key: string, k: nat): set<int>
    requires AllObjects(items)
  {
    set i | k <= i < |items| && key in KeysOf(items[i].entries)
  }

  /** The items that hold the key. */
  ghost function Holders(items: seq<Value>, key: string): set<int>
    requires AllObjects(items)
  {
    HoldersFrom(items, key, 0)
  }

  lemma {:induction false} HoldersNext(items: seq<Value>, key: string, k: nat)
    requires AllObjects(items) && k < |items|
    ensures |HoldersFrom(items, key, k)|
         == |HoldersFrom(items, key, k + 1)| + if key in KeysOf(items[k].entries) then 1 else 0
  {
    var rest := HoldersFrom(items, key, k + 1);
    assert HoldersFrom(items, key, k) == rest + if key in KeysOf(items[k].entries) then {k as int} else {};
  }

  /** Freq counts the items that hold the key. */
  lemma {:induction false} FreqCounts(items: seq<Value>, key: string, k: nat)
    requires AllObjects(items) && k <= |items|
    ensures Freq(items[k..], key) == |HoldersFrom(items, key, k)|
    decreases |items| - k
  {
    if k == |items| {
      assert HoldersFrom(items, key, k) == {};
    } else {
      FreqCounts(items, key, k + 1);
      HoldersNext(items, key, k);
      GetIsSmaller(items[k].entries, key);
      assert items[k..][0] == items[k] && items[k..][1..] == items[k + 1..];
    }
  }

  /** a comes before b in a dictionary: they agree up to some place, where a ends or
      has the lower character. */
  ghost predicate Alphabetical(a: string, b: string) {
    exists n :: AgreeTo(a, b, n) && n < |b| && (n == |a| || a[n] < b[n])
  }

  ghost predicate AgreeTo(a: string, b: string, n: int) { 0 <= n <= |a| && n <= |b| && a[..n] == b[..n] }

  lemma {:induction false} AgreeAtFirst(a: string, b: string, n: int)
    requires AgreeTo(a, b, n)
    ensures n == 0 || (a != [] && b != [] && a[0] == b[0])
  {
    if n > 0 {
      assert a[0] == a[..n][0] && b[0] == b[..n][0];
    }
  }

  lemma {:induction false} LexIsAlphabetical(a: string, b: string)
    ensures LexLess(a, b) <==> Alphabetical(a, b)
  {
    if a == [] || b == [] || a[0] != b[0] {
      assert AgreeTo(a, b, 0);
      forall n | AgreeTo(a, b, n) ensures n == 0 {
        AgreeAtFirst(a, b, n);
      }
    } else {
      LexIsAlphabetical(a[1..], b[1..]);
      ShorterAgree(a, b);
    }
  }

  lemma {:induction false} ShorterAgree(a: string, b: string)
    requires a != [] && b != [] && a[0] == b[0]
    ensures Alphabetical(a, b) <==> Alphabetical(a[1..], b[1..])
  {
    if n :| AgreeTo(a, b, n) && n < |b| && (n == |a| || a[n] < b[n]) {
      assert n > 0;
      assert a[1..][..n - 1] == a[..n][1..] && b[1..][..n - 1] == b[..n][1..];
      assert AgreeTo(a[1..], b[1..], n - 1);
    }
    if n :| AgreeTo(a[1..], b[1..], n) && n < |b[1..]| && (n == |a[1..]| || a[1..][n] < b[1..][n]) {
      assert a[..n + 1] == [a[0]] + a[1..][..n] && b[..n + 1] == [b[0]] + b[1..][..n];
      assert AgreeTo(a, b, n + 1);
    }
  }

  /** The columns are the keys some item holds; of two, the one more items hold comes
      first, and of two equally frequent ones the alphabetically lower. */
  lemma {:induction false} ColumnsByFrequency(items: seq<Value>)
    requires AllObjects(items)
    ensures forall key :: key in Columns(items) <==> exists i :: i in Holders(items, key)
    ensures forall i, j :: 0 <= i < j < |Columns(items)| ==>
      var more, fewer := |Holders(items, Columns(items)[i])|, |Holders(items, Columns(items)[j])|;
      more > fewer || (more == fewer && Alphabetical(Columns(items)[i], Columns(items)[j]))
  {
    ColumnsAreOrdered(items, |items|);
    forall key ensures key in Columns(items) <==> exists i :: i in Holders(items, key) {
      if OccursIn(items, |items|, key) {
        var i :| 0 <= i < |items| && key in KeysOf(items[i].entries);
        assert i in Holders(items, key);
      }
    }
    forall i, j | 0 <= i < j < |Columns(items)|
      ensures var more, fewer := |Holders(items, Columns(items)[i])|, |Holders(items, Columns(items)[j])|;
              more > fewer || (more == fewer && Alphabetical(Columns(items)[i], Columns(items)[j]))
    {
      FreqCounts(items, Columns(items)[i], 0);
      FreqCounts(items, Columns(items)[j], 0);
      assert items[0..] == items;
      LexIsAlphabetical(Columns(items)[i], Columns(items)[j]);
      assert Before(items, Columns(items)[i], Columns(items)[j]);
    }
  }

  // ---- the kinds of cells ----

  /** v is an array of at least two items, all objects, or a string that parses to one. */
  ghost predicate HoldsTable(v: Value, cfg: Config, inner: seq<Value>) {
    && (v == Arr(inner) || (v.Str? && cfg.classify(v.s) == Stringified(Arr(inner))))
    && |inner| >= 2 && forall i :: 0 <= i < |inner| ==> inner[i].Obj?
  }

  /** A cell is a nested table exactly for such an array, and then the table of its
      items; a reference exactly for an opaque string; and otherwise the value itself,
      or what the string was parsed to. */
  lemma {:induction false} CellKinds(v: Value, cfg: Config)
    requires Parses(cfg)
    ensures CellOf(v, cfg).Nested? <==> exists inner :: HoldsTable(v, cfg, inner)
    ensures forall inner :: HoldsTable(v, cfg, inner) ==> CellOf(v, cfg) == Nested(CompactOf(inner, cfg))
    ensures CellOf(v, cfg).OpaqueRef? <==> v.Str? && cfg.classify(v.s).Opaque?
    ensures CellOf(v, cfg).OpaqueRef? ==>
            CellOf(v, cfg) == OpaqueRef(cfg.hash(v.s), |v.s|, cfg.classify(v.s).kind)
    ensures CellOf(v, cfg).Scalar? ==>
            CellOf(v, cfg).value == if v.Str? && cfg.classify(v.s).Stringified? then cfg.classify(v.s).parsed else v
  {
    var w := if v.Str? && cfg.classify(v.s).Stringified? then cfg.classify(v.s).parsed else v;
    if CellOf(v, cfg).Nested? {
      assert HoldsTable(v, cfg, w.items);
    }
  }

  // ---- which columns are flattened ----

  ghost predicate HasKeys(cell: Cell, keys: seq<string>) {
    cell.Scalar? && cell.value.Obj? && KeysOf(cell.value.entries) == keys
  }

  /** From row f on every object has exactly these keys in this order, and before it
      there are only empty ones. */
  ghost predicate UniformFrom(column: seq<Cell>, keys: seq<string>, f: nat) {
    && f < |column| && HasKeys(column[f], keys)
    && (forall r :: 0 <= r < f ==> column[r].Missing? || HasKeys(column[r], []))
    && (forall r :: f < r < |column| ==> column[r].Missing? || HasKeys(column[r], keys))
  }

  lemma {:induction false} ScanOfUniform(column: seq<Cell>, keys: seq<string>, f: nat, n: nat)
    requires UniformFrom(column, keys, f) && keys != [] && n <= |column|
    ensures if n <= f then ScanTo(column, n).Keys? && ScanTo(column, n).canonical == []
            else ScanTo(column, n) == Keys(true, keys)
  {
    if n > 0 {
      ScanOfUniform(column, keys, f, n - 1);
    }
  }

  lemma {:induction false} UniformOfScan(column: seq<Cell>, n: nat) returns (f: nat)
    requires n <= |column| && ScanTo(column, n).Keys?
    ensures var keys := ScanTo(column, n).canonical;
            if keys == [] then forall r :: 0 <= r < n ==> column[r].Missing? || HasKeys(column[r], [])
            else f < n && UniformFrom(column[..n], keys, f)
  {
    f := 0;
    if n > 0 {
      f := UniformOfScan(column, n - 1);
      var before := ScanTo(column, n - 1);
      if before.canonical == [] && ScanTo(column, n).canonical != [] {
        f := n - 1;
      }
    }
  }

  /** A column is flattened by these inner keys if and only if its name has no dot,
      they are not too many, and every object in it has exactly them, in order, once
      leading empty objects are passed over. */
  lemma {:induction false} FlattensIff(name: string, column: seq<Cell>, cfg: Config, keys: seq<string>)
    requires keys != []
    ensures InnerKeys(name, column, cfg) == keys
       <==> '.' !in name && |keys| <= cfg.maxFlattenInnerKeys && exists f :: UniformFrom(column, keys, f)
  {
    if f :| UniformFrom(column, keys, f) {
      ScanOfUniform(column, keys, f, |column|);
    }
    if InnerKeys(name, column, cfg) == keys {
      var f := UniformOfScan(column, |column|);
      assert column[..|column|] == column;
    }
  }

  // ---- where everything stands ----

  ghost predicate PlainColumn(t: Compacted, name: string, column: seq<Cell>, at: nat)
    requires t.Table? && Rectangular(t.rows, |t.fields|) && at < |t.fields| && |column| == |t.rows|
  {
    t.fields[at].name == name && forall r :: 0 <= r < |t.rows| ==> t.rows[r].cells[at] == column[r]
  }

  /** The value an object cell holds under the key. */
  ghost predicate HoldsUnder(cell: Cell, key: string, v: Value) {
    cell.Scalar? && cell.value.Obj? && Get(cell.value.entries, key) == Some(v)
  }

  /** The dotted cell is what the object cell holds under the key, or missing. */
  ghost predicate DottedCell(dotted: Cell, cell: Cell, key: string) {
    if exists v :: HoldsUnder(cell, key, v) then dotted.Scalar? && HoldsUnder(cell, key, dotted.value)
    else dotted.Missing?
  }

  ghost predicate DottedColumn(t: Compacted, name: string, key: string, column: seq<Cell>, at: nat)
    requires t.Table? && Rectangular(t.rows, |t.fields|) && at < |t.fields| && |column| == |t.rows|
  {
    && t.fields[at].name == name + "." + key
    && forall r :: 0 <= r < |t.rows| ==> DottedCell(t.rows[r].cells[at], column[r], key)
  }

  /** The fields from at up to next are what the key's column became. */
  ghost predicate Stands(t: Compacted, key: string, column: seq<Cell>, inner: seq<string>, at: nat, next: nat)
    requires t.Table? && Rectangular(t.rows, |t.fields|) && |column| == |t.rows|
  {
    && at <= next <= |t.fields|
    && if inner == [] then next == at + 1 && PlainColumn(t, key, column, at)
       else next == at + |inner| && forall j :: 0 <= j < |inner| ==> DottedColumn(t, key, inner[j], column, at + j)
  }

  lemma {:induction false} LengthsGrow(plan: seq<seq<string>>, c: nat, n: nat)
    requires c < n <= |plan|
    ensures FlatLength(plan, c + 1) <= FlatLength(plan, n)
  {
    if c + 1 < n {
      LengthsGrow(plan, c, n - 1);
    }
  }

  /** sums[c] is the first c parts in a row. */
  ghost predicate AreSums<T>(sums: seq<seq<T>>, parts: seq<seq<T>>) {
    |sums| == |parts| + 1 && forall c :: 0 <= c < |parts| ==> sums[c + 1] == sums[c] + parts[c]
  }

  lemma {:induction false} SumsGrow<T>(sums: seq<seq<T>>, parts: seq<seq<T>>, m: nat, n: nat)
    requires AreSums(sums, parts) && m <= n <= |parts|
    ensures sums[m] <= sums[n]
  {
    if m < n {
      SumsGrow(sums, parts, m, n - 1);
    }
  }

  lemma {:induction false} PartAt<T>(sums: seq<seq<T>>, parts: seq<seq<T>>, c: nat, j: nat)
    requires AreSums(sums, parts) && c < |parts| && j < |parts[c]|
    ensures |sums[c]| + j < |sums[|parts|]| && sums[|parts|][|sums[c]| + j] == parts[c][j]
  {
    SumsGrow(sums, parts, c + 1, |parts|);
    assert sums[c + 1][|sums[c]| + j] == parts[c][j];
  }

  /** The names a column's name becomes. */
  ghost function NamesFor(names: seq<string>, plan: seq<seq<string>>, c: nat): (r: seq<string>)
    requires c < |names| == |plan|
    ensures |r| == if plan[c] == [] then 1 else |plan[c]|
    ensures forall j :: 0 <= j < |r| ==> r[j] == if plan[c] == [] then names[c] else names[c] + "." + plan[c][j]
  {
    if plan[c] == [] then [names[c]] else DottedNames(names[c], plan[c])
  }

  lemma {:induction false} NamesNext(names: seq<string>, plan: seq<seq<string>>, c: nat)
    requires c < |names| == |plan|
    ensures FlatNames(names, plan, c + 1) == FlatNames(names, plan, c) + NamesFor(names, plan, c)
  {
  }

  lemma {:induction false} NameAt(names: seq<string>, plan: seq<seq<string>>, c: nat, j: nat)
    requires c < |names| == |plan| && j < |NamesFor(names, plan, c)|
    ensures FlatLength(plan, c) + j < FlatLength(plan, |plan|)
    ensures FlatNames(names, plan, |plan|)[FlatLength(plan, c) + j] == NamesFor(names, plan, c)[j]
  {
    var parts := seq(|plan|, i requires 0 <= i < |plan| => NamesFor(names, plan, i));
    var sums := seq(|plan| + 1, i requires 0 <= i <= |plan| => FlatNames(names, plan, i));
    forall i | 0 <= i < |plan| ensures sums[i + 1] == sums[i] + parts[i] {
      NamesNext(names, plan, i);
    }
    assert AreSums(sums, parts);
    assert sums[c] == FlatNames(names, plan, c) && sums[|plan|] == FlatNames(names, plan, |plan|);
    assert parts[c] == NamesFor(names, plan, c);
    PartAt(sums, parts, c, j);
  }

  lemma {:induction false} FieldAt(fields: seq<Field>, rows: seq<Row>, plan: seq<seq<string>>, c: nat, j: nat)
    requires c < |fields| == |plan| && Rectangular(rows, |fields|) && j < if plan[c] == [] then 1 else |plan[c]|
    ensures FlatLength(plan, c) + j < FlatLength(plan, |plan|)
    ensures FlatFields(fields, rows, plan, |plan|)[FlatLength(plan, c) + j].name
         == if plan[c] == [] then fields[c].name else fields[c].name + "." + plan[c][j]
  {
    var names := FieldNames(fields);
    NameAt(names, plan, c, j);
    FlatNamesAre(fields, rows, plan, |plan|);
    assert FieldNames(FlatFields(fields, rows, plan, |plan|))[FlatLength(plan, c) + j]
        == FlatFields(fields, rows, plan, |plan|)[FlatLength(plan, c) + j].name;
  }

  /** The cells a cell becomes. */
  ghost function CellsFor(cells: seq<Cell>, plan: seq<seq<string>>, c: nat): (r: seq<Cell>)
    requires c < |cells| == |plan|
    ensures |r| == if plan[c] == [] then 1 else |plan[c]|
    ensures forall j :: 0 <= j < |r| ==> r[j] == if plan[c] == [] then cells[c] else ExpandedCell(cells[c], plan[c][j])
  {
    if plan[c] == [] then [cells[c]] else ExpandedCells(cells[c], plan[c])
  }

  lemma {:induction false} CellsNext(cells: seq<Cell>, plan: seq<seq<string>>, c: nat)
    requires c < |cells| == |plan|
    ensures FlatCells(cells, plan, c + 1) == FlatCells(cells, plan, c) + CellsFor(cells, plan, c)
  {
  }

  lemma {:induction false} CellAt(cells: seq<Cell>, plan: seq<seq<string>>, c: nat, j: nat)
    requires c < |cells| == |plan| && j < |CellsFor(cells, plan, c)|
    ensures FlatLength(plan, c) + j < FlatLength(plan, |plan|)
    ensures FlatCells(cells, plan, |plan|)[FlatLength(plan, c) + j] == CellsFor(cells, plan, c)[j]
  {
    var parts := seq(|plan|, i requires 0 <= i < |plan| => CellsFor(cells, plan, i));
    var sums := seq(|plan| + 1, i requires 0 <= i <= |plan| => FlatCells(cells, plan, i));
    forall i | 0 <= i < |plan| ensures sums[i + 1] == sums[i] + parts[i] {
      CellsNext(cells, plan, i);
    }
    assert AreSums(sums, parts);
    assert sums[c] == FlatCells(cells, plan, c) && sums[|plan|] == FlatCells(cells, plan, |plan|);
    assert parts[c] == CellsFor(cells, plan, c);
    PartAt(sums, parts, c, j);
  }

  ghost function Flat(fields: seq<Field>, rows: seq<Row>, plan: seq<seq<string>>, count: nat): (t: Compacted)
    requires |fields| == |plan| && Rectangular(rows, |fields|)
    ensures t.Table? && |t.rows| == |rows| && |t.fields| == FlatLength(plan, |plan|) && Rectangular(t.rows, |t.fields|)
  {
    Table(FlatFields(fields, rows, plan, |fields|), FlatRows(rows, plan), count)
  }

  lemma {:induction false} PlainStands(fields: seq<Field>, rows: seq<Row>, plan: seq<seq<string>>, count: nat, c: nat)
    requires c < |fields| == |plan| && Rectangular(rows, |fields|) && plan[c] == []
    ensures var t := Flat(fields, rows, plan, count);
            FlatLength(plan, c) < |t.fields| && PlainColumn(t, fields[c].name, Column(rows, c), FlatLength(plan, c))
  {
    FieldAt(fields, rows, plan, c, 0);
    forall r | 0 <= r < |rows|
      ensures FlatCells(rows[r].cells, plan, |plan|)[FlatLength(plan, c)] == rows[r].cells[c]
    {
      CellAt(rows[r].cells, plan, c, 0);
    }
  }

  lemma {:induction false} RowDotted(cells: seq<Cell>, plan: seq<seq<string>>, c: nat, j: nat)
    requires c < |cells| == |plan| && j < |plan[c]|
    ensures FlatLength(plan, c) + j < FlatLength(plan, |plan|)
    ensures DottedCell(FlatCells(cells, plan, |plan|)[FlatLength(plan, c) + j], cells[c], plan[c][j])
  {
    CellAt(cells, plan, c, j);
    ExpandedIs(cells[c], plan[c][j]);
  }

  lemma {:induction false} DottedStands(fields: seq<Field>, rows: seq<Row>, plan: seq<seq<string>>, count: nat, c: nat,
                                        j: nat)
    requires c < |fields| == |plan| && Rectangular(rows, |fields|) && j < |plan[c]|
    ensures var t := Flat(fields, rows, plan, count);
            && FlatLength(plan, c) + j < |t.fields|
            && DottedColumn(t, fields[c].name, plan[c][j], Column(rows, c), FlatLength(plan, c) + j)
  {
    FieldAt(fields, rows, plan, c, j);
    forall r | 0 <= r < |rows|
      ensures DottedCell(FlatCells(rows[r].cells, plan, |plan|)[FlatLength(plan, c) + j], rows[r].cells[c], plan[c][j])
    {
      RowDotted(rows[r].cells, plan, c, j);
    }
  }

  lemma {:induction false} ExpandedIs(cell: Cell, key: string)
    ensures DottedCell(ExpandedCell(cell, key), cell, key)
  {
    if cell.Scalar? && cell.value.Obj? && Get(cell.value.entries, key).Some? {
      assert HoldsUnder(cell, key, Get(cell.value.entries, key).value);
    }
  }

  /** What column c of the unflattened table becomes. */
  lemma {:induction false} ColumnStands(fields: seq<Field>, rows: seq<Row>, plan: seq<seq<string>>, count: nat, c: nat)
    requires c < |fields| == |plan| && Rectangular(rows, |fields|)
    ensures Stands(Flat(fields, rows, plan, count), fields[c].name, Column(rows, c), plan[c], FlatLength(plan, c),
                   FlatLength(plan, c + 1))
  {
    LengthsGrow(plan, c, |plan|);
    if plan[c] == [] {
      PlainStands(fields, rows, plan, count, c);
    } else {
      forall j | 0 <= j < |plan[c]|
        ensures DottedColumn(Flat(fields, rows, plan, count), fields[c].name, plan[c][j], Column(rows, c),
                             FlatLength(plan, c) + j)
      {
        DottedStands(fields, rows, plan, count, c, j);
      }
    }
  }

  /** The inner keys the key's column is flattened by, or none. */
  ghost function InnerOf(items: seq<Value>, key: string, cfg: Config): seq<string>
    requires Parses(cfg) && AllObjects(items)
  {
    InnerKeys(key, CellsAt(items, key, cfg), cfg)
  }

  lemma {:induction false} CompactIsFlat(items: seq<Value>, cfg: Config)
    requires Parses(cfg) && CompactOf(items, cfg).Table?
    ensures var keys := Columns(items);
            CompactOf(items, cfg)
              == Flat(FieldsOf(items, keys), RowsOf(items, keys, cfg), PlanOf(items, keys, cfg), |items|)
  {
    PlanIs(items, Columns(items), cfg);
  }

  lemma {:induction false} KeyStands(items: seq<Value>, cfg: Config, c: nat)
    requires Parses(cfg) && CompactOf(items, cfg).Table? && c < |Columns(items)|
    ensures var t, keys := CompactOf(items, cfg), Columns(items);
            var plan := PlanOf(items, keys, cfg);
            && |t.rows| == |items| && Rectangular(t.rows, |t.fields|)
            && Stands(t, keys[c], CellsAt(items, keys[c], cfg), plan[c], FlatLength(plan, c), FlatLength(plan, c + 1))
  {
    var keys := Columns(items);
    CompactIsFlat(items, cfg);
    ColumnIsCellsAt(items, keys, cfg, c);
    ColumnStands(FieldsOf(items, keys), RowsOf(items, keys, cfg), PlanOf(items, keys, cfg), |items|, c);
  }

  /** Column c of the items stands at its fields. */
  ghost predicate KeyIsAt(items: seq<Value>, cfg: Config, at: seq<nat>, c: nat)
    requires Parses(cfg) && CompactOf(items, cfg).Table? && c < |Columns(items)| && c + 1 < |at|
  {
    var t, key := CompactOf(items, cfg), Columns(items)[c];
    && |t.rows| == |items| && Rectangular(t.rows, |t.fields|)
    && Stands(t, key, CellsAt(items, key, cfg), InnerOf(items, key, cfg), at[c], at[c + 1])
  }

  ghost function Offsets(plan: seq<seq<string>>): (at: seq<nat>)
    ensures |at| == |plan| + 1 && at[0] == 0 && at[|plan|] == FlatLength(plan, |plan|)
    ensures forall c :: 0 <= c <= |plan| ==> at[c] == FlatLength(plan, c)
  {
    seq(|plan| + 1, c requires 0 <= c <= |plan| => FlatLength(plan, c))
  }

  lemma {:induction false} KeyIsAtOffset(items: seq<Value>, cfg: Config, at: seq<nat>, c: nat)
    requires Parses(cfg) && CompactOf(items, cfg).Table? && c < |Columns(items)|
    requires at == Offsets(PlanOf(items, Columns(items), cfg))
    ensures KeyIsAt(items, cfg, at, c)
  {
    KeyStands(items, cfg, c);
  }

  /** The table is its columns in order, each as it is or replaced in place by one field
      for each inner key; every row has the item's values there. */
  lemma {:induction false} TableIs(items: seq<Value>, cfg: Config) returns (at: seq<nat>)
    requires Parses(cfg) && CompactOf(items, cfg).Table?
    ensures |at| == |Columns(items)| + 1 && at[0] == 0 && at[|at| - 1] == |CompactOf(items, cfg).fields|
    ensures forall c :: 0 <= c < |Columns(items)| ==> KeyIsAt(items, cfg, at, c)
  {
    at := Offsets(PlanOf(items, Columns(items), cfg));
    CompactIsFlat(items, cfg);
    forall c | 0 <= c < |Columns(items)| ensures KeyIsAt(items, cfg, at, c) {
      KeyIsAtOffset(items, cfg, at, c);
    }
  }

  lemma {:induction false} CountsUp(at: seq<nat>, c: nat)
    requires c < |at| && at[0] == 0 && forall i :: 0 <= i < |at| - 1 ==> at[i + 1] == at[i] + 1
    ensures at[c] == c
  {
    if c > 0 {
      CountsUp(at, c - 1);
    }
  }

  lemma {:induction false} PlainIsAt(items: seq<Value>, cfg: Config, at: seq<nat>, c: nat)
    requires Parses(cfg) && CompactOf(items, cfg).Table? && c < |Columns(items)| && c + 1 < |at|
    requires KeyIsAt(items, cfg, at, c) && InnerOf(items, Columns(items)[c], cfg) == []
    ensures at[c + 1] == at[c] + 1 && at[c] < |CompactOf(items, cfg).fields|
    ensures CompactOf(items, cfg).fields[at[c]].name == Columns(items)[c]
  {
  }

  /** Where nothing is flattened the fields are the columns, most frequent first. */
  lemma {:induction false} PlainFields(items: seq<Value>, cfg: Config)
    requires Parses(cfg) && CompactOf(items, cfg).Table?
    requires forall c :: 0 <= c < |Columns(items)| ==> InnerOf(items, Columns(items)[c], cfg) == []
    ensures FieldNames(CompactOf(items, cfg).fields) == Columns(items)
  {
    var at := TableIs(items, cfg);
    forall c | 0 <= c < |Columns(items)|
      ensures at[c + 1] == at[c] + 1 && at[c] < |CompactOf(items, cfg).fields|
      ensures CompactOf(items, cfg).fields[at[c]].name == Columns(items)[c]
    {
      PlainIsAt(items, cfg, at, c);
    }
    forall c: nat | c < |at| ensures at[c] == c {
      CountsUp(at, c);
    }
  }

  /** An array is left alone exactly when it is short or holds something else than
      objects. */
  lemma {:induction false} UntouchedIff(items: seq<Value>, cfg: Config)
    requires Parses(cfg)
    ensures CompactOf(items, cfg) == Untouched(Arr(items))
       <==> |items| < cfg.minItems || exists i :: 0 <= i < |items| && !items[i].Obj?
  {
  }
}
