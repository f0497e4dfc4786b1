/** What a reader can rebuild from a compaction table.

    The reader regroups dotted columns and nested tables. The main result says
    exactly when that gives back the array that went in. */
module CompactionLossless {

  import opened Common
  import opened Compaction

  // ---- values without key order ----

  datatype Norm =
    | NNull
    | NBool(b: bool)
    | NNumber(text: string)
    | NStr(s: string)
    | NArr(items: seq<Norm>)
    | NObj(fields: map<string, Norm>)
    | NMarker(hash: string, size: nat, kind: string)

  ghost function Normal(v: Value): Norm {
    match v
    case Null => NNull
    case Bool(b) => NBool(b)
    case Number(t) => NNumber(t)
    case Str(s) => NStr(s)
    case Arr(items) => NArr(NormalAll(items))
    case Obj(es) => NObj(NormalEntries(es))
  }

  ghost function NormalAll(items: seq<Value>): (r: seq<Norm>)
    ensures |r| == |items| && forall i :: 0 <= i < |items| ==> r[i] == Normal(items[i])
  {
    if items == [] then [] else [Normal(items[0])] + NormalAll(items[1..])
  }

  ghost function NormalEntries(es: seq<Entry>): map<string, Norm> {
    if es == [] then map[] else NormalEntries(es[1..])[es[0].key := Normal(es[0].value)]
  }

  lemma {:induction false} NormalAt(es: seq<Entry>, k: string)
    ensures k in NormalEntries(es) <==> Get(es, k).Some?
    ensures Get(es, k).Some? ==> NormalEntries(es)[k] == Normal(Get(es, k).value)
  {
    if es != [] {
      NormalAt(es[1..], k);
    }
  }

  // ---- reading a table ----

  function DotAt(name: string): (n: nat)
    requires '.' in name
    ensures n < |name| && name[n] == '.' && '.' !in name[..n]
  {
    if name[0] == '.' then 0 else 1 + DotAt(name[1..])
  }

  function Parent(name: string): string
    requires '.' in name
  {
    name[..DotAt(name)]
  }

  function Inner(name: string): string
    requires '.' in name
  {
    name[DotAt(name) + 1..]
  }

  lemma {:induction false} DottedName(p: string, k: string)
    requires '.' !in p
    ensures '.' in p + "." + k && Parent(p + "." + k) == p && Inner(p + "." + k) == k
  {
    var name := p + "." + k;
    assert name[|p|] == '.';
    DotAtIs(p, k);
    assert name[..|p|] == p && name[|p| + 1..] == k;
  }

  lemma {:induction false} DotAtIs(p: string, k: string)
    requires '.' !in p
    ensures '.' in p + "." + k && DotAt(p + "." + k) == |p|
  {
    var name := p + "." + k;
    assert name[|p|] == '.';
    if p != [] {
      DotAtIs(p[1..], k);
      assert name[1..] == p[1..] + "." + k;
    }
  }

  /** One more column: a dotted one joins its parent's object. */
  ghost function AddColumn(m: map<string, Norm>, name: string, value: Option<Norm>): map<string, Norm> {
    if value.None? then m
    else if '.' !in name then m[name := value.value]
    else
      var p := Parent(name);
      var inner := if p in m && m[p].NObj? then m[p].fields else map[];
      m[p := NObj(inner[Inner(name) := value.value])]
  }

  ghost function DecodeCell(cell: Cell): Option<Norm>
    decreases cell
  {
    match cell
    case Missing => None
    case Scalar(v) => Some(Normal(v))
    case Nested(inner) => Some(Decode(inner))
    case OpaqueRef(hash, size, kind) => Some(NMarker(hash, size, kind))
  }

  ghost function DecodeRow(names: seq<string>, cells: seq<Cell>): map<string, Norm>
    decreases cells
  {
    if |names| != |cells| || names == [] then map[]
    else
      var n := |names| - 1;
      AddColumn(DecodeRow(names[..n], cells[..n]), names[n], DecodeCell(cells[n]))
  }

  ghost function DecodeRows(names: seq<string>, rows: seq<Row>): (r: seq<Norm>)
    ensures |r| == |rows|
    decreases rows
  {
    if rows == [] then [] else [NObj(DecodeRow(names, rows[0].cells))] + DecodeRows(names, rows[1..])
  }

  function FieldNames(fields: seq<Field>): (r: seq<string>)
    ensures |r| == |fields| && forall i :: 0 <= i < |fields| ==> r[i] == fields[i].name
  {
    seq(|fields|, i requires 0 <= i < |fields| => fields[i].name)
  }

  ghost function Decode(c: Compacted): Norm
    decreases c
  {
    match c
    case Untouched(v) => Normal(v)
    case Table(fields, rows, _) => NArr(DecodeRows(FieldNames(fields), rows))
  }

  /** No decoded key holds a dot. */
  lemma {:induction false} DecodedKeysPlain(names: seq<string>, cells: seq<Cell>, k: string)
    requires k in DecodeRow(names, cells)
    ensures '.' !in k
  {
    var n := |names| - 1;
    if k in DecodeRow(names[..n], cells[..n]) {
      DecodedKeysPlain(names[..n], cells[..n], k);
    }
  }

  // ---- a row, column by column ----

  /** What a column contributes to a row: a flattened one loses an empty object. */
  ghost function ColumnValue(cell: Cell, keys: seq<string>): Option<Norm> {
    if keys == [] then DecodeCell(cell)
    else if cell.Scalar? && cell.value.Obj? && cell.value.entries != [] then Some(Normal(cell.value))
    else None
  }

  ghost function PlainDecode(names: seq<string>, cells: seq<Cell>, plan: seq<seq<string>>, n: nat): map<string, Norm>
    requires n <= |names| == |cells| == |plan|
  {
    if n == 0 then map[]
    else
      var m, v := PlainDecode(names, cells, plan, n - 1), ColumnValue(cells[n - 1], plan[n - 1]);
      if v.None? then m else m[names[n - 1] := v.value]
  }

  /** A column's cell as the scan that flattened it guarantees. */
  ghost predicate Fits(cell: Cell, keys: seq<string>) {
    keys != [] ==>
      cell.Missing? || (cell.Scalar? && cell.value.Obj? && UniqueKeys(cell.value.entries)
                        && (cell.value.entries == [] || KeysOf(cell.value.entries) == keys))
  }

  lemma {:induction false} SnocDecodes(names: seq<string>, cells: seq<Cell>, name: string, cell: Cell)
    requires |names| == |cells|
    ensures DecodeRow(names + [name], cells + [cell]) == AddColumn(DecodeRow(names, cells), name, DecodeCell(cell))
  {
    assert (names + [name])[..|names|] == names && (cells + [cell])[..|cells|] == cells;
  }

  function DottedNames(p: string, keys: seq<string>): (r: seq<string>)
    ensures |r| == |keys| && forall j :: 0 <= j < |keys| ==> r[j] == p + "." + keys[j]
  {
    seq(|keys|, j requires 0 <= j < |keys| => p + "." + keys[j])
  }

  lemma {:induction false} GetAt(es: seq<Entry>, j: nat)
    requires UniqueKeys(es) && j < |es|
    ensures Get(es, es[j].key) == Some(es[j].value)
  {
    if j > 0 {
      GetAt(es[1..], j - 1);
    }
  }

  lemma {:induction false} GetPrefix(es: seq<Entry>, j: nat, k: string)
    requires UniqueKeys(es) && j < |es|
    ensures Get(es[..j + 1], k) == if k == es[j].key then Some(es[j].value) else Get(es[..j], k)
  {
    if j == 0 {
      assert es[..1][1..] == [];
    } else {
      GetPrefix(es[1..], j - 1, k);
      assert es[..j + 1][1..] == es[1..][..j] && es[..j][1..] == es[1..][..j - 1];
    }
  }

  lemma {:induction false} NormalPrefix(es: seq<Entry>, j: nat)
    requires UniqueKeys(es) && j < |es|
    ensures NormalEntries(es[..j + 1]) == NormalEntries(es[..j])[es[j].key := Normal(es[j].value)]
  {
    var a, b := NormalEntries(es[..j + 1]), NormalEntries(es[..j])[es[j].key := Normal(es[j].value)];
    forall k ensures k in a <==> k in b
             ensures k in a ==> a[k] == b[k]
    {
      GetPrefix(es, j, k);
      NormalAt(es[..j + 1], k);
      NormalAt(es[..j], k);
    }
  }

  lemma {:induction false} OneMoreDecodes(names: seq<string>, cells: seq<Cell>, ns: seq<string>, cs: seq<Cell>, j: nat)
    requires |names| == |cells| && 0 < j <= |ns| == |cs|
    ensures DecodeRow(names + ns[..j], cells + cs[..j])
         == AddColumn(DecodeRow(names + ns[..j - 1], cells + cs[..j - 1]), ns[j - 1], DecodeCell(cs[j - 1]))
  {
    SnocDecodes(names + ns[..j - 1], cells + cs[..j - 1], ns[j - 1], cs[j - 1]);
    TakeOneMore(names, ns, j);
    TakeOneMore(cells, cs, j);
  }

  /** m with the first j entries of an object added as dotted columns. */
  ghost function WithEntries(m: map<string, Norm>, p: string, es: seq<Entry>, j: nat): map<string, Norm>
    requires j <= |es|
  {
    if j == 0 then m
    else AddColumn(WithEntries(m, p, es, j - 1), p + "." + es[j - 1].key, Some(Normal(es[j - 1].value)))
  }

  lemma {:induction false} FirstUnder(m: map<string, Norm>, p: string, k: string, v: Norm)
    requires '.' !in p && p !in m
    ensures AddColumn(m, p + "." + k, Some(v)) == m[p := NObj(map[k := v])]
  {
    DottedName(p, k);
  }

  lemma {:induction false} NextUnder(m: map<string, Norm>, p: string, inner: map<string, Norm>, k: string, v: Norm)
    requires '.' !in p
    ensures AddColumn(m[p := NObj(inner)], p + "." + k, Some(v)) == m[p := NObj(inner[k := v])]
  {
    DottedName(p, k);
    assert m[p := NObj(inner)][p := NObj(inner[k := v])] == m[p := NObj(inner[k := v])];
  }

  /** Which files them under p as one object. */
  lemma {:induction false} EntriesRegroup(m: map<string, Norm>, p: string, es: seq<Entry>, j: nat)
    requires '.' !in p && p !in m && UniqueKeys(es) && 0 < j <= |es|
    ensures WithEntries(m, p, es, j) == m[p := NObj(NormalEntries(es[..j]))]
  {
    var k, v := es[j - 1].key, Normal(es[j - 1].value);
    NormalPrefix(es, j - 1);
    if j > 1 {
      EntriesRegroup(m, p, es, j - 1);
      NextUnder(m, p, NormalEntries(es[..j - 1]), k, v);
    } else {
      FirstUnder(m, p, k, v);
      assert es[..0] == [];
    }
  }

  /** The row so far, and the first j dotted columns of an object under p. */
  ghost function WithDotted(names: seq<string>, cells: seq<Cell>, p: string, es: seq<Entry>, j: nat): map<string, Norm>
    requires |names| == |cells| && j <= |es|
  {
    DecodeRow(names + DottedNames(p, KeysOf(es))[..j], cells + ExpandedCells(Scalar(Obj(es)), KeysOf(es))[..j])
  }

  lemma {:induction false} NothingDotted(names: seq<string>, cells: seq<Cell>, p: string, es: seq<Entry>)
    requires |names| == |cells|
    ensures WithDotted(names, cells, p, es, 0) == DecodeRow(names, cells)
  {
    assert names + DottedNames(p, KeysOf(es))[..0] == names;
    assert cells + ExpandedCells(Scalar(Obj(es)), KeysOf(es))[..0] == cells;
  }

  /** The first j dotted columns of a present object add its first j entries. */
  lemma {:induction false} DottedPresent(names: seq<string>, cells: seq<Cell>, p: string, es: seq<Entry>, j: nat)
    requires |names| == |cells| && UniqueKeys(es) && j <= |es|
    ensures WithDotted(names, cells, p, es, j) == WithEntries(DecodeRow(names, cells), p, es, j)
  {
    if j == 0 {
      NothingDotted(names, cells, p, es);
    } else {
      DottedPresent(names, cells, p, es, j - 1);
      DottedStep(names, cells, p, es, j, WithEntries(DecodeRow(names, cells), p, es, j - 1));
    }
  }

  lemma {:induction false} DottedStep(names: seq<string>, cells: seq<Cell>, p: string, es: seq<Entry>, j: nat,
                                      before: map<string, Norm>)
    requires |names| == |cells| && UniqueKeys(es) && 0 < j <= |es| && WithDotted(names, cells, p, es, j - 1) == before
    ensures WithDotted(names, cells, p, es, j)
         == AddColumn(before, p + "." + es[j - 1].key, Some(Normal(es[j - 1].value)))
  {
    var ns, cs := DottedNames(p, KeysOf(es)), ExpandedCells(Scalar(Obj(es)), KeysOf(es));
    GetAt(es, j - 1);
    assert ns[j - 1] == p + "." + es[j - 1].key && cs[j - 1] == Scalar(es[j - 1].value);
    OneMoreDecodes(names, cells, ns, cs, j);
  }

  /** An absent or empty object's dotted cells are all missing and add nothing. */
  lemma {:induction false} DottedAbsent(names: seq<string>, cells: seq<Cell>, p: string, cell: Cell,
                                        keys: seq<string>, j: nat)
    requires |names| == |cells| && j <= |keys| && (cell.Missing? || cell == Scalar(Obj([])))
    ensures DecodeRow(names + DottedNames(p, keys)[..j], cells + ExpandedCells(cell, keys)[..j])
         == DecodeRow(names, cells)
  {
    var ns, cs := DottedNames(p, keys), ExpandedCells(cell, keys);
    if j == 0 {
      assert names + ns[..0] == names && cells + cs[..0] == cells;
    } else {
      DottedAbsent(names, cells, p, cell, keys, j - 1);
      OneMoreDecodes(names, cells, ns, cs, j);
    }
  }

  ghost predicate DotFree(names: seq<string>) { forall i :: 0 <= i < |names| ==> '.' !in names[i] }

  /** The names the first n columns become. */
  ghost function FlatNames(names: seq<string>, plan: seq<seq<string>>, n: nat): (r: seq<string>)
    requires n <= |names| == |plan|
    ensures |r| == FlatLength(plan, n)
  {
    if n == 0 then []
    else
      FlatNames(names, plan, n - 1)
        + (if plan[n - 1] == [] then [names[n - 1]] else DottedNames(names[n - 1], plan[n - 1]))
  }

  lemma {:induction false} FieldNamesJoin(a: seq<Field>, b: seq<Field>)
    ensures FieldNames(a + b) == FieldNames(a) + FieldNames(b)
  {
  }

  lemma {:induction false} FlatNamesAre(fields: seq<Field>, rows: seq<Row>, plan: seq<seq<string>>, n: nat)
    requires n <= |fields| == |plan| && Rectangular(rows, |fields|)
    ensures FieldNames(FlatFields(fields, rows, plan, n)) == FlatNames(FieldNames(fields), plan, n)
  {
    if n > 0 {
      FlatNamesAre(fields, rows, plan, n - 1);
      var dotted := DottedFields(fields[n - 1].name, Column(rows, n - 1), plan[n - 1]);
      FieldNamesJoin(FlatFields(fields, rows, plan, n - 1), if plan[n - 1] == [] then [fields[n - 1]] else dotted);
      assert FieldNames(dotted) == DottedNames(fields[n - 1].name, plan[n - 1]);
      assert FieldNames([fields[n - 1]]) == [fields[n - 1].name];
    }
  }

  lemma {:induction false} PlainKeys(names: seq<string>, cells: seq<Cell>, plan: seq<seq<string>>, n: nat, k: string)
    requires n <= |names| == |cells| == |plan|
    ensures k in PlainDecode(names, cells, plan, n) ==> k in names[..n]
  {
    if n > 0 {
      PlainKeys(names, cells, plan, n - 1, k);
      assert names[..n] == names[..n - 1] + [names[n - 1]];
    }
  }

  lemma {:induction false} PresentDecodes(ns: seq<string>, cs: seq<Cell>, p: string, es: seq<Entry>)
    requires |ns| == |cs| && es != [] && UniqueKeys(es) && '.' !in p && p !in DecodeRow(ns, cs)
    ensures DecodeRow(ns + DottedNames(p, KeysOf(es)), cs + ExpandedCells(Scalar(Obj(es)), KeysOf(es)))
         == DecodeRow(ns, cs)[p := Normal(Obj(es))]
  {
    var names, cells := DottedNames(p, KeysOf(es)), ExpandedCells(Scalar(Obj(es)), KeysOf(es));
    DottedPresent(ns, cs, p, es, |es|);
    EntriesRegroup(DecodeRow(ns, cs), p, es, |es|);
    assert names[..|es|] == names && cells[..|es|] == cells && es[..|es|] == es;
  }

  lemma {:induction false} AbsentDecodes(ns: seq<string>, cs: seq<Cell>, p: string, cell: Cell, keys: seq<string>)
    requires |ns| == |cs| && (cell.Missing? || cell == Scalar(Obj([])))
    ensures DecodeRow(ns + DottedNames(p, keys), cs + ExpandedCells(cell, keys)) == DecodeRow(ns, cs)
  {
    var names, cells := DottedNames(p, keys), ExpandedCells(cell, keys);
    DottedAbsent(ns, cs, p, cell, keys, |keys|);
    assert names[..|keys|] == names && cells[..|keys|] == cells;
  }

  lemma {:induction false} FlatColumnDecodes(ns: seq<string>, cs: seq<Cell>, p: string, cell: Cell, keys: seq<string>)
    requires |ns| == |cs| && keys != [] && Fits(cell, keys) && '.' !in p && p !in DecodeRow(ns, cs)
    ensures var m, v := DecodeRow(ns, cs), ColumnValue(cell, keys);
            DecodeRow(ns + DottedNames(p, keys), cs + ExpandedCells(cell, keys)) ==
              if v.None? then m else m[p := v.value]
  {
    if cell.Missing? || cell.value.entries == [] {
      AbsentDecodes(ns, cs, p, cell, keys);
    } else {
      PresentDecodes(ns, cs, p, cell.value.entries);
    }
  }

  lemma {:induction false} NewName(names: seq<string>, n: nat)
    requires 0 < n <= |names| && DotFree(names) && Unique(names)
    ensures '.' !in names[n - 1] && names[n - 1] !in names[..n - 1]
  {
  }

  ghost predicate AllFit(cells: seq<Cell>, plan: seq<seq<string>>, n: nat)
    requires n <= |cells| == |plan|
  {
    n > 0 ==> Fits(cells[n - 1], plan[n - 1]) && AllFit(cells, plan, n - 1)
  }

  lemma {:induction false} NextColumnDecodes(ns: seq<string>, cs: seq<Cell>, name: string, cell: Cell,
                                             keys: seq<string>)
    requires |ns| == |cs| && Fits(cell, keys) && '.' !in name && name !in DecodeRow(ns, cs)
    ensures var m, v := DecodeRow(ns, cs), ColumnValue(cell, keys);
            DecodeRow(ns + (if keys == [] then [name] else DottedNames(name, keys)),
                      cs + (if keys == [] then [cell] else ExpandedCells(cell, keys)))
              == if v.None? then m else m[name := v.value]
  {
    if keys == [] {
      SnocDecodes(ns, cs, name, cell);
    } else {
      FlatColumnDecodes(ns, cs, name, cell, keys);
    }
  }

  lemma {:induction false} FlatStep(names: seq<string>, cells: seq<Cell>, plan: seq<seq<string>>, n: nat)
    requires 0 < n <= |names| == |cells| == |plan| && DotFree(names) && Unique(names) && AllFit(cells, plan, n)
    requires DecodeRow(FlatNames(names, plan, n - 1), FlatCells(cells, plan, n - 1))
             == PlainDecode(names, cells, plan, n - 1)
    ensures DecodeRow(FlatNames(names, plan, n), FlatCells(cells, plan, n)) == PlainDecode(names, cells, plan, n)
  {
    NewName(names, n);
    PlainKeys(names, cells, plan, n - 1, names[n - 1]);
    NextColumnDecodes(FlatNames(names, plan, n - 1), FlatCells(cells, plan, n - 1), names[n - 1], cells[n - 1],
                      plan[n - 1]);
  }

  /** Reading a flattened row, for names without dots, is reading it column by column. */
  lemma {:induction false} FlatDecodes(names: seq<string>, cells: seq<Cell>, plan: seq<seq<string>>, n: nat)
    requires n <= |names| == |cells| == |plan| && DotFree(names) && Unique(names) && AllFit(cells, plan, n)
    ensures DecodeRow(FlatNames(names, plan, n), FlatCells(cells, plan, n)) == PlainDecode(names, cells, plan, n)
  {
    if n > 0 {
      FlatDecodes(names, cells, plan, n - 1);
      FlatStep(names, cells, plan, n);
    }
  }

  lemma {:induction false} PlainAt(names: seq<string>, cells: seq<Cell>, plan: seq<seq<string>>, n: nat, c: nat)
    requires c < n <= |names| == |cells| == |plan| && Unique(names)
    ensures var m, v := PlainDecode(names, cells, plan, n), ColumnValue(cells[c], plan[c]);
            (names[c] in m <==> v.Some?) && (v.Some? ==> m[names[c]] == v.value)
  {
    if c < n - 1 {
      PlainAt(names, cells, plan, n - 1, c);
    } else {
      PlainKeys(names, cells, plan, n - 1, names[c]);
    }
  }

  // ---- what the scan guarantees ----

  lemma {:induction false} ScanShape(column: seq<Cell>, n: nat, r: nat)
    requires r < n <= |column| && ScanTo(column, n).Keys?
    ensures column[r].Missing? || (column[r].Scalar? && column[r].value.Obj?
              && (column[r].value.entries == [] || KeysOf(column[r].value.entries) == ScanTo(column, n).canonical))
  {
    if r < n - 1 {
      ScanShape(column, n - 1, r);
    }
  }

  lemma {:induction false} InnerKeysShape(name: string, column: seq<Cell>, cfg: Config, r: nat)
    requires r < |column| && InnerKeys(name, column, cfg) != []
    ensures column[r].Missing? || (column[r].Scalar? && column[r].value.Obj?
              && (column[r].value.entries == [] || KeysOf(column[r].value.entries) == InnerKeys(name, column, cfg)))
  {
    ScanShape(column, |column|, r);
  }

  // ---- exactly what is restored ----

  /** What a value's cell reads back as. */
  ghost function CellNorm(v: Value, cfg: Config): Norm
    requires Parses(cfg)
  {
    DecodeCell(CellOf(v, cfg)).value
  }

  /** The cells of the key over all items. */
  ghost function CellsAt(items: seq<Value>, key: string, cfg: Config): (r: seq<Cell>)
    requires Parses(cfg) && AllObjects(items)
    ensures |r| == |items|
  {
    seq(|items|, i requires 0 <= i < |items| =>
      var v := Get(items[i].entries, key); if v.None? then Missing else CellOf(v.value, cfg))
  }

  /** A key is flattened, and some item holds an empty object under it. */
  ghost predicate SwallowsEmpty(items: seq<Value>, key: string, cfg: Config)
    requires Parses(cfg) && AllObjects(items)
  {
    InnerKeys(key, CellsAt(items, key, cfg), cfg) != []
    && exists i :: 0 <= i < |items| && Get(items[i].entries, key) == Some(Obj([]))
  }

  ghost predicate NoDottedKeys(items: seq<Value>)
    requires AllObjects(items)
  {
    forall i :: 0 <= i < |items| ==> DotFree(KeysOf(items[i].entries))
  }

  /** The value is not a string the classifier diverts, and an array that becomes a
      nested table is itself restorable. */
  ghost predicate Faithful(v: Value, cfg: Config)
    requires Parses(cfg)
    decreases Size(v), 0, 0
  {
    match v
    case Str(s) => cfg.classify(s).Plain?
    case Arr(items) => Recurses(v) ==> Restorable(items, cfg)
    case _ => true
  }

  ghost predicate EntriesFaithful(es: seq<Entry>, cfg: Config)
    requires Parses(cfg)
    decreases SizeEntries(es), 1, 0
  {
    es != [] ==> Faithful(es[0].value, cfg) && EntriesFaithful(es[1..], cfg)
  }

  ghost predicate ItemsFaithful(items: seq<Value>, cfg: Config)
    requires Parses(cfg) && AllObjects(items)
    decreases SizeAll(items), 1, 0
  {
    items != [] ==>
      (assert Size(items[0]) == 1 + SizeEntries(items[0].entries); EntriesFaithful(items[0].entries, cfg))
      && ItemsFaithful(items[1..], cfg)
  }

  /** The array is left alone, or no item has a dotted key or a value its cell cannot
      give back, and no flattened key swallows an empty object. */
  ghost predicate Restorable(items: seq<Value>, cfg: Config)
    requires Parses(cfg)
    decreases SizeAll(items), 2, 0
  {
    || |items| < cfg.minItems || !AllObjects(items)
    || (NoDottedKeys(items) && ItemsFaithful(items, cfg) && forall key :: !SwallowsEmpty(items, key, cfg))
  }

  // ---- one table ----

  lemma {:induction false} ColumnIsCellsAt(items: seq<Value>, keys: seq<string>, cfg: Config, c: nat)
    requires Parses(cfg) && AllObjects(items) && c < |keys|
    ensures Column(RowsOf(items, keys, cfg), c) == CellsAt(items, keys[c], cfg)
  {
    forall r | 0 <= r < |items| ensures RowsOf(items, keys, cfg)[r].cells[c] == CellsAt(items, keys[c], cfg)[r] {
      RowsOfAt(items, keys, cfg, r);
      RowOfAt(items[r].entries, keys, cfg, c);
    }
  }

  /** For each column, the inner keys it flattens into. */
  ghost function PlanOf(items: seq<Value>, keys: seq<string>, cfg: Config): (plan: seq<seq<string>>)
    requires Parses(cfg) && AllObjects(items)
    ensures |plan| == |keys|
    ensures forall c :: 0 <= c < |keys| ==> plan[c] == InnerKeys(keys[c], CellsAt(items, keys[c], cfg), cfg)
  {
    seq(|keys|, c requires 0 <= c < |keys| => InnerKeys(keys[c], CellsAt(items, keys[c], cfg), cfg))
  }

  lemma {:induction false} PlanIs(items: seq<Value>, keys: seq<string>, cfg: Config)
    requires Parses(cfg) && AllObjects(items)
    ensures Plan(FieldsOf(items, keys), RowsOf(items, keys, cfg), cfg) == PlanOf(items, keys, cfg)
  {
    forall c | 0 <= c < |keys|
      ensures Plan(FieldsOf(items, keys), RowsOf(items, keys, cfg), cfg)[c] == PlanOf(items, keys, cfg)[c]
    {
      ColumnIsCellsAt(items, keys, cfg, c);
    }
  }

  lemma {:induction false} CellIsValid(v: Value, cfg: Config)
    requires Parses(cfg) && Valid(v)
    ensures CellOf(v, cfg).Scalar? ==> Valid(CellOf(v, cfg).value)
  {
  }

  lemma {:induction false} CellFits(items: seq<Value>, keys: seq<string>, cfg: Config, r: nat, c: nat)
    requires Parses(cfg) && AllObjects(items) && ValidAll(items) && r < |items| && c < |keys|
    ensures Fits(CellsAt(items, keys[c], cfg)[r], PlanOf(items, keys, cfg)[c])
  {
    if PlanOf(items, keys, cfg)[c] != [] {
      InnerKeysShape(keys[c], CellsAt(items, keys[c], cfg), cfg, r);
      ItemIsSmaller(items, r);
      GetIsSmaller(items[r].entries, keys[c]);
      var v := Get(items[r].entries, keys[c]);
      if v.Some? {
        CellIsValid(v.value, cfg);
      }
    }
  }

  lemma {:induction false} RowFits(items: seq<Value>, keys: seq<string>, cfg: Config, r: nat, n: nat)
    requires Parses(cfg) && AllObjects(items) && ValidAll(items) && r < |items| && n <= |keys|
    ensures AllFit(RowOf(items[r].entries, keys, cfg), PlanOf(items, keys, cfg), n)
  {
    if n > 0 {
      RowFits(items, keys, cfg, r, n - 1);
      RowOfAt(items[r].entries, keys, cfg, n - 1);
      CellFits(items, keys, cfg, r, n - 1);
    }
  }

  lemma {:induction false} KeysAreDotFree(items: seq<Value>)
    requires AllObjects(items) && NoDottedKeys(items)
    ensures DotFree(Columns(items))
  {
    ColumnsAreOrdered(items, |items|);
    forall c | 0 <= c < |Columns(items)| ensures '.' !in Columns(items)[c] {
      assert OccursIn(items, |items|, Columns(items)[c]);
    }
  }

  /** Row r of the table, as a reader sees it. */
  ghost function ReadRow(items: seq<Value>, cfg: Config, r: nat): map<string, Norm>
    requires Parses(cfg) && CompactOf(items, cfg).Table? && r < |CompactOf(items, cfg).rows|
  {
    DecodeRow(FieldNames(CompactOf(items, cfg).fields), CompactOf(items, cfg).rows[r].cells)
  }

  lemma {:induction false} ReadRowIs(items: seq<Value>, cfg: Config, r: nat)
    requires Parses(cfg) && CompactOf(items, cfg).Table? && r < |items| && ValidAll(items) && NoDottedKeys(items)
    ensures var keys := Columns(items);
            ReadRow(items, cfg, r)
              == PlainDecode(keys, RowOf(items[r].entries, keys, cfg), PlanOf(items, keys, cfg), |keys|)
  {
    var keys := Columns(items);
    var fields, rows, plan := FieldsOf(items, keys), RowsOf(items, keys, cfg), PlanOf(items, keys, cfg);
    PlanIs(items, keys, cfg);
    RowsOfAt(items, keys, cfg, r);
    KeysAreDotFree(items);
    ColumnsAreUnique(items);
    FlatNamesAre(fields, rows, plan, |fields|);
    assert FieldNames(fields) == keys;
    var cells := RowOf(items[r].entries, keys, cfg);
    RowFits(items, keys, cfg, r, |keys|);
    FlatDecodes(keys, cells, plan, |keys|);
  }

  /** The item's value under the column's key, if it has one, survives. */
  ghost predicate Survives(es: seq<Entry>, key: string, inner: seq<string>, cfg: Config)
    requires Parses(cfg)
  {
    Get(es, key).Some? ==> Faithful(Get(es, key).value, cfg) && !(inner != [] && Get(es, key).value == Obj([]))
  }

  /** A value's cell reads back as the value exactly when the value is faithful. */
  ghost predicate Judged(es: seq<Entry>, key: string, cfg: Config)
    requires Parses(cfg)
  {
    Get(es, key).Some? ==>
      (CellNorm(Get(es, key).value, cfg) == Normal(Get(es, key).value) <==> Faithful(Get(es, key).value, cfg))
  }

  lemma {:induction false} ColumnSurvives(es: seq<Entry>, key: string, inner: seq<string>, cfg: Config)
    requires Parses(cfg) && Judged(es, key, cfg) && Get(es, key).Some?
    requires Fits(CellOf(Get(es, key).value, cfg), inner)
    ensures ColumnValue(CellOf(Get(es, key).value, cfg), inner) == Some(Normal(Get(es, key).value))
       <==> Survives(es, key, inner, cfg)
  {
    var v := Get(es, key).value;
    if inner != [] && v.Str? {
      assert !cfg.classify(v.s).Plain?;
    }
  }

  lemma {:induction false} KeyIsColumn(items: seq<Value>, r: nat, key: string) returns (c: nat)
    requires AllObjects(items) && r < |items| && Get(items[r].entries, key).Some?
    ensures c < |Columns(items)| && Columns(items)[c] == key
  {
    GetIsSmaller(items[r].entries, key);
    ColumnsAreOrdered(items, |items|);
    assert OccursIn(items, |items|, key);
    c :| 0 <= c < |Columns(items)| && Columns(items)[c] == key;
  }

  ghost predicate RowSurvives(items: seq<Value>, cfg: Config, r: nat)
    requires Parses(cfg) && AllObjects(items) && r < |items|
  {
    var keys := Columns(items);
    forall c :: 0 <= c < |keys| ==> Survives(items[r].entries, keys[c], PlanOf(items, keys, cfg)[c], cfg)
  }

  ghost predicate RowJudged(items: seq<Value>, cfg: Config, r: nat)
    requires Parses(cfg) && AllObjects(items) && r < |items|
  {
    forall c :: 0 <= c < |Columns(items)| ==> Judged(items[r].entries, Columns(items)[c], cfg)
  }

  ghost predicate Agrees(m: map<string, Norm>, n: map<string, Norm>, k: string) {
    (k in m <==> k in n) && (k in m ==> m[k] == n[k])
  }

  /** Column c of row r: present in what is read exactly as in the item, or lost. */
  lemma {:induction false} ReadColumn(items: seq<Value>, cfg: Config, r: nat, c: nat)
    requires Parses(cfg) && CompactOf(items, cfg).Table? && r < |items| && ValidAll(items) && NoDottedKeys(items)
    requires c < |Columns(items)| && RowJudged(items, cfg, r)
    ensures var key, m, n := Columns(items)[c], ReadRow(items, cfg, r), NormalEntries(items[r].entries);
            Agrees(m, n, key) <==> Survives(items[r].entries, key, PlanOf(items, Columns(items), cfg)[c], cfg)
  {
    var keys := Columns(items);
    var es, plan := items[r].entries, PlanOf(items, keys, cfg);
    var cells := RowOf(es, keys, cfg);
    ReadRowIs(items, cfg, r);
    ColumnsAreUnique(items);
    PlainAt(keys, cells, plan, |keys|, c);
    NormalAt(es, keys[c]);
    RowOfAt(es, keys, cfg, c);
    CellFits(items, keys, cfg, r, c);
    if Get(es, keys[c]).Some? {
      ColumnSurvives(es, keys[c], plan[c], cfg);
    }
  }

  lemma {:induction false} ReadKeys(items: seq<Value>, cfg: Config, r: nat, k: string)
    requires Parses(cfg) && CompactOf(items, cfg).Table? && r < |items| && ValidAll(items) && NoDottedKeys(items)
    ensures k in ReadRow(items, cfg, r) || k in NormalEntries(items[r].entries) ==> k in Columns(items)
  {
    var keys := Columns(items);
    ReadRowIs(items, cfg, r);
    PlainKeys(keys, RowOf(items[r].entries, keys, cfg), PlanOf(items, keys, cfg), |keys|, k);
    assert keys[..|keys|] == keys;
    NormalAt(items[r].entries, k);
    if k in NormalEntries(items[r].entries) {
      var c := KeyIsColumn(items, r, k);
    }
  }

  lemma {:induction false} SurvivorsRead(items: seq<Value>, cfg: Config, r: nat)
    requires Parses(cfg) && CompactOf(items, cfg).Table? && r < |items| && ValidAll(items) && NoDottedKeys(items)
    requires RowJudged(items, cfg, r) && RowSurvives(items, cfg, r)
    ensures ReadRow(items, cfg, r) == NormalEntries(items[r].entries)
  {
    var keys, m, n := Columns(items), ReadRow(items, cfg, r), NormalEntries(items[r].entries);
    forall k ensures Agrees(m, n, k) {
      ReadKeys(items, cfg, r, k);
      if k in keys {
        var c :| 0 <= c < |keys| && keys[c] == k;
        ReadColumn(items, cfg, r, c);
      }
    }
    AgreeingMaps(m, n);
  }

  lemma {:induction false} AgreeingMaps(m: map<string, Norm>, n: map<string, Norm>)
    requires forall k :: Agrees(m, n, k)
    ensures m == n
  {
    forall k ensures k in m <==> k in n
             ensures k in m ==> m[k] == n[k]
    {
      assert Agrees(m, n, k);
    }
  }

  lemma {:induction false} ReadersSurvive(items: seq<Value>, cfg: Config, r: nat)
    requires Parses(cfg) && CompactOf(items, cfg).Table? && r < |items| && ValidAll(items) && NoDottedKeys(items)
    requires RowJudged(items, cfg, r) && ReadRow(items, cfg, r) == NormalEntries(items[r].entries)
    ensures RowSurvives(items, cfg, r)
  {
    var keys := Columns(items);
    forall c | 0 <= c < |keys| ensures Survives(items[r].entries, keys[c], PlanOf(items, keys, cfg)[c], cfg) {
      ReadColumn(items, cfg, r, c);
    }
  }

  ghost predicate RowMatches(names: seq<string>, row: Row, item: Value) {
    item.Obj? && DecodeRow(names, row.cells) == NormalEntries(item.entries)
  }

  lemma {:induction false} DecodeRowsIff(names: seq<string>, rows: seq<Row>, items: seq<Value>)
    requires |rows| == |items| && AllObjects(items)
    ensures DecodeRows(names, rows) == NormalAll(items) <==>
            forall r :: 0 <= r < |rows| ==> RowMatches(names, rows[r], items[r])
  {
    if rows != [] {
      DecodeRowsIff(names, rows[1..], items[1..]);
      var a, b := DecodeRows(names, rows), NormalAll(items);
      assert a[1..] == DecodeRows(names, rows[1..]) && b[1..] == NormalAll(items[1..]);
      assert a == b <==> a[0] == b[0] && a[1..] == b[1..] by {
        assert a == [a[0]] + a[1..] && b == [b[0]] + b[1..];
      }
      assert a[0] == b[0] <==> RowMatches(names, rows[0], items[0]);
      TailMatches(names, rows, items);
    }
  }

  lemma {:induction false} TailMatches(names: seq<string>, rows: seq<Row>, items: seq<Value>)
    requires |rows| == |items| > 0
    ensures (forall r :: 0 <= r < |rows| ==> RowMatches(names, rows[r], items[r]))
       <==> RowMatches(names, rows[0], items[0])
            && forall r :: 0 <= r < |rows[1..]| ==> RowMatches(names, rows[1..][r], items[1..][r])
  {
    if RowMatches(names, rows[0], items[0])
      && forall r :: 0 <= r < |rows[1..]| ==> RowMatches(names, rows[1..][r], items[1..][r])
    {
      forall r | 0 <= r < |rows| ensures RowMatches(names, rows[r], items[r]) {
        assert r > 0 ==> RowMatches(names, rows[1..][r - 1], items[1..][r - 1]);
      }
    }
    if forall r :: 0 <= r < |rows| ==> RowMatches(names, rows[r], items[r]) {
      forall r | 0 <= r < |rows[1..]| ensures RowMatches(names, rows[1..][r], items[1..][r]) {
        assert RowMatches(names, rows[r + 1], items[r + 1]);
      }
    }
  }

  // ---- the theorem ----

  ghost predicate AllSurvive(items: seq<Value>, cfg: Config)
    requires Parses(cfg) && AllObjects(items)
  {
    forall r :: 0 <= r < |items| ==> RowSurvives(items, cfg, r)
  }

  lemma {:induction false} TableIff(items: seq<Value>, cfg: Config)
    requires Parses(cfg) && CompactOf(items, cfg).Table? && ValidAll(items) && NoDottedKeys(items)
    requires forall r :: 0 <= r < |items| ==> RowJudged(items, cfg, r)
    ensures Decode(CompactOf(items, cfg)) == Normal(Arr(items)) <==> AllSurvive(items, cfg)
  {
    var t := CompactOf(items, cfg);
    var names := FieldNames(t.fields);
    DecodeRowsIff(names, t.rows, items);
    if AllSurvive(items, cfg) {
      forall r | 0 <= r < |items| ensures RowMatches(names, t.rows[r], items[r]) {
        SurvivorsRead(items, cfg, r);
      }
    }
    if forall r :: 0 <= r < |items| ==> RowMatches(names, t.rows[r], items[r]) {
      forall r | 0 <= r < |items| ensures RowSurvives(items, cfg, r) {
        assert RowMatches(names, t.rows[r], items[r]);
        ReadersSurvive(items, cfg, r);
      }
    }
  }

  lemma {:induction false} EntriesFaithfulAt(es: seq<Entry>, cfg: Config, key: string)
    requires Parses(cfg) && EntriesFaithful(es, cfg) && Get(es, key).Some?
    ensures Faithful(Get(es, key).value, cfg)
  {
    if es[0].key != key {
      EntriesFaithfulAt(es[1..], cfg, key);
    }
  }

  lemma {:induction false} EntriesFaithfulIf(es: seq<Entry>, cfg: Config)
    requires Parses(cfg) && forall i :: 0 <= i < |es| ==> Faithful(es[i].value, cfg)
    ensures EntriesFaithful(es, cfg)
  {
    if es != [] {
      EntriesFaithfulIf(es[1..], cfg);
    }
  }

  lemma {:induction false} ItemsFaithfulIff(items: seq<Value>, cfg: Config)
    requires Parses(cfg) && AllObjects(items)
    ensures ItemsFaithful(items, cfg) <==> forall r :: 0 <= r < |items| ==> EntriesFaithful(items[r].entries, cfg)
  {
    if items != [] {
      ItemsFaithfulIff(items[1..], cfg);
      if forall r :: 0 <= r < |items| ==> EntriesFaithful(items[r].entries, cfg) {
        forall r | 0 <= r < |items[1..]| ensures EntriesFaithful(items[1..][r].entries, cfg) {
          assert items[1..][r] == items[r + 1];
        }
      }
      if ItemsFaithful(items, cfg) {
        forall r | 0 <= r < |items| ensures EntriesFaithful(items[r].entries, cfg) {
          assert r > 0 ==> items[r] == items[1..][r - 1];
        }
      }
    }
  }

  lemma {:induction false} SurviveIfRestorable(items: seq<Value>, cfg: Config)
    requires Parses(cfg) && AllObjects(items) && ItemsFaithful(items, cfg) && forall key :: !SwallowsEmpty(items, key,
                                                                                                           cfg)
    ensures AllSurvive(items, cfg)
  {
    var keys := Columns(items);
    ItemsFaithfulIff(items, cfg);
    forall r, c | 0 <= r < |items| && 0 <= c < |keys|
      ensures Survives(items[r].entries, keys[c], PlanOf(items, keys, cfg)[c], cfg)
    {
      if Get(items[r].entries, keys[c]).Some? {
        EntriesFaithfulAt(items[r].entries, cfg, keys[c]);
        assert !SwallowsEmpty(items, keys[c], cfg);
      }
    }
  }

  lemma {:induction false} SurvivesAt(items: seq<Value>, cfg: Config, r: nat, key: string)
    requires Parses(cfg) && AllObjects(items) && AllSurvive(items, cfg) && r < |items|
    requires Get(items[r].entries, key).Some?
    ensures Survives(items[r].entries, key, InnerKeys(key, CellsAt(items, key, cfg), cfg), cfg)
  {
    var c := KeyIsColumn(items, r, key);
    assert RowSurvives(items, cfg, r);
  }

  lemma {:induction false} FaithfulIfSurvive(items: seq<Value>, cfg: Config)
    requires Parses(cfg) && AllObjects(items) && ValidAll(items) && AllSurvive(items, cfg)
    ensures ItemsFaithful(items, cfg)
  {
    forall r | 0 <= r < |items| ensures EntriesFaithful(items[r].entries, cfg) {
      var es := items[r].entries;
      ItemIsSmaller(items, r);
      forall i | 0 <= i < |es| ensures Faithful(es[i].value, cfg) {
        GetAt(es, i);
        SurvivesAt(items, cfg, r, es[i].key);
      }
      EntriesFaithfulIf(es, cfg);
    }
    ItemsFaithfulIff(items, cfg);
  }

  lemma {:induction false} NoneSwallowedIfSurvive(items: seq<Value>, cfg: Config, key: string)
    requires Parses(cfg) && AllObjects(items) && AllSurvive(items, cfg)
    ensures !SwallowsEmpty(items, key, cfg)
  {
    forall r | 0 <= r < |items| && Get(items[r].entries, key) == Some(Obj([]))
      ensures InnerKeys(key, CellsAt(items, key, cfg), cfg) == []
    {
      SurvivesAt(items, cfg, r, key);
    }
  }

  lemma {:induction false} DottedNotRead(names: seq<string>, row: Row, es: seq<Entry>, k: string)
    requires k in KeysOf(es) && '.' in k
    ensures !RowMatches(names, row, Obj(es))
  {
    GetIsSmaller(es, k);
    NormalAt(es, k);
    if k in DecodeRow(names, row.cells) {
      DecodedKeysPlain(names, row.cells, k);
    }
  }

  lemma {:induction false} UnmatchedRow(names: seq<string>, rows: seq<Row>, items: seq<Value>, r: nat)
    requires r < |rows| == |items| && AllObjects(items) && !RowMatches(names, rows[r], items[r])
    ensures NArr(DecodeRows(names, rows)) != Normal(Arr(items))
  {
    DecodeRowsIff(names, rows, items);
  }

  lemma {:induction false} DottedIsLost(items: seq<Value>, cfg: Config, r: nat, k: string)
    requires Parses(cfg) && CompactOf(items, cfg).Table? && r < |items| && k in KeysOf(items[r].entries) && '.' in k
    ensures Decode(CompactOf(items, cfg)) != Normal(Arr(items))
  {
    var t := CompactOf(items, cfg);
    DottedNotRead(FieldNames(t.fields), t.rows[r], items[r].entries, k);
    UnmatchedRow(FieldNames(t.fields), t.rows, items, r);
  }

  lemma {:induction false} ReadsAsArray(items: seq<Value>, cfg: Config)
    requires Parses(cfg)
    ensures Decode(CompactOf(items, cfg)).NArr?
  {
    var c := CompactOf(items, cfg);
    if c.Untouched? {
      assert c == Untouched(Arr(items));
    }
  }

  lemma {:induction false} FaithfulIff(v: Value, cfg: Config)
    requires Parses(cfg) && Valid(v)
    ensures CellNorm(v, cfg) == Normal(v) <==> Faithful(v, cfg)
    decreases Size(v), 0, 0
  {
    match v
    case Arr(items) =>
      if Recurses(v) {
        RestorableIff(items, cfg);
        assert CellOf(v, cfg) == Nested(CompactOf(items, cfg));
      } else {
        assert CellOf(v, cfg) == Scalar(v);
      }
    case Str(s) =>
      var found := cfg.classify(s);
      if found.Stringified? {
        if Recurses(found.parsed) {
          assert CellOf(v, cfg) == Nested(CompactOf(found.parsed.items, cfg));
          ReadsAsArray(found.parsed.items, cfg);
        } else {
          assert CellNorm(v, cfg) == Normal(found.parsed);
        }
      }
    case _ =>
  }

  lemma {:induction false} RowsJudged(items: seq<Value>, cfg: Config, r: nat)
    requires Parses(cfg) && AllObjects(items) && ValidAll(items) && r < |items|
    ensures RowJudged(items, cfg, r)
    decreases SizeAll(items), 1, 0
  {
    var es := items[r].entries;
    ItemIsSmaller(items, r);
    forall c | 0 <= c < |Columns(items)| ensures Judged(es, Columns(items)[c], cfg) {
      var key := Columns(items)[c];
      GetIsSmaller(es, key);
      if Get(es, key).Some? {
        FaithfulIff(Get(es, key).value, cfg);
      }
    }
  }

  /** Reading the table back gives the array, as keys and values, if and only if it is
      restorable. Checked at every depth of nesting. */
  lemma {:induction false} RestorableIff(items: seq<Value>, cfg: Config)
    requires Parses(cfg) && ValidAll(items)
    ensures Decode(CompactOf(items, cfg)) == Normal(Arr(items)) <==> Restorable(items, cfg)
    decreases SizeAll(items), 2, 0
  {
    if |items| < cfg.minItems || !AllObjects(items) {
    } else if !NoDottedKeys(items) {
      var r :| 0 <= r < |items| && !DotFree(KeysOf(items[r].entries));
      var i :| 0 <= i < |KeysOf(items[r].entries)| && '.' in KeysOf(items[r].entries)[i];
      DottedIsLost(items, cfg, r, KeysOf(items[r].entries)[i]);
    } else {
      forall r | 0 <= r < |items| ensures RowJudged(items, cfg, r) {
        RowsJudged(items, cfg, r);
      }
      TableIff(items, cfg);
      if AllSurvive(items, cfg) {
        FaithfulIfSurvive(items, cfg);
        forall key ensures !SwallowsEmpty(items, key, cfg) {
          NoneSwallowedIfSurvive(items, cfg, key);
        }
      }
      if Restorable(items, cfg) {
        SurviveIfRestorable(items, cfg);
      }
    }
  }

  ghost function EmptyThenFull(v: Value): seq<Value> {
    [Obj([Entry("m", Obj([]))]), Obj([Entry("m", Obj([Entry("a", v)]))])]
  }

  lemma {:induction false} EmptyIsSwallowed(cfg: Config, v: Value)
    requires Parses(cfg) && cfg.maxFlattenInnerKeys >= 1
    ensures SwallowsEmpty(EmptyThenFull(v), "m", cfg)
  {
    var inner, items := [Entry("a", v)], EmptyThenFull(v);
    var column := CellsAt(items, "m", cfg);
    assert column[0] == Scalar(Obj([])) && column[1] == Scalar(Obj(inner));
    assert inner[1..] == [] && KeysOf(inner) == ["a"];
    assert ScanTo(column, 0) == Keys(false, []);
    assert ScanTo(column, 1) == ScanCell(ScanTo(column, 0), column[0]) == Keys(true, []);
    assert ScanTo(column, 2) == ScanCell(ScanTo(column, 1), column[1]) == Keys(true, ["a"]);
    assert InnerKeys("m", column, cfg) == ["a"];
    assert Get(items[0].entries, "m") == Some(Obj([]));
  }

  lemma {:induction false} ExampleIsValid(v: Value)
    requires Valid(v)
    ensures ValidAll(EmptyThenFull(v))
  {
    var inner := [Entry("a", v)];
    var one, two := [Entry("m", Obj([]))], [Entry("m", Obj(inner))];
    var items := [Obj(one), Obj(two)];
    assert inner[1..] == [] && ValidEntries(inner);
    assert two[1..] == [] && one[1..] == [] && ValidEntries(two) && ValidEntries(one);
    assert items[1..] == [Obj(two)] && items[1..][1..] == [];
    assert Valid(Obj(two)) && Valid(Obj(one));
    assert ValidAll(items[1..]);
  }

  /** An empty object before a non-empty one under the same key is swallowed: the
      scan keeps the empty key list as none found yet. */
  lemma {:induction false} EmptyObjectLost(cfg: Config, v: Value)
    requires Parses(cfg) && cfg.minItems <= 2 && cfg.maxFlattenInnerKeys >= 1 && Valid(v)
    ensures Decode(CompactOf(EmptyThenFull(v), cfg)) != Normal(Arr(EmptyThenFull(v)))
  {
    ExampleIsValid(v);
    EmptyIsSwallowed(cfg, v);
    RestorableIff(EmptyThenFull(v), cfg);
  }
}
