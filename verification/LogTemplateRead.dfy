/** Reading the printed templates back. The reader follows the one in
    internal/reformats/log_template_test.go. */
module LogTemplateRead {

  import opened Common
  import opened Text
  import opened LogTemplate
  import opened LogTemplateText

  // ---- searching and splitting ----

  function IndexOf(s: string, sub: string): (r: Option<nat>)
    ensures r.Some? ==> r.value + |sub| <= |s|
  {
    if sub <= s then Some(0)
    else if s == [] then None
    else
      var r := IndexOf(s[1..], sub);
      if r.Some? then Some(r.value + 1) else None
  }

  function LastIndexOf(s: string, sub: string): (r: Option<nat>)
    ensures r.Some? ==> r.value + |sub| <= |s|
  {
    if s != [] && LastIndexOf(s[1..], sub).Some? then Some(LastIndexOf(s[1..], sub).value + 1)
    else if sub <= s then Some(0)
    else None
  }

  lemma {:induction false} IndexOfAt(a: string, sub: string, b: string)
    requires |sub| > 0 && sub[0] !in a
    ensures IndexOf(a + (sub + b), sub) == Some(|a|)
  {
    var s := a + (sub + b);
    if a == [] {
      assert s == sub + b;
    } else {
      assert s[1..] == a[1..] + (sub + b) && s[0] == a[0];
      IndexOfAt(a[1..], sub, b);
    }
  }

  lemma {:induction false} LastIndexAbsent(s: string, sub: string)
    requires |sub| > 0 && sub[0] !in s
    ensures LastIndexOf(s, sub) == None
  {
    if s != [] {
      LastIndexAbsent(s[1..], sub);
    }
  }

  lemma {:induction false} LastIndexOfAt(a: string, sub: string, b: string)
    requires |sub| > 0 && sub[0] !in sub[1..] && sub[0] !in b
    ensures LastIndexOf(a + (sub + b), sub) == Some(|a|)
  {
    var s := a + (sub + b);
    if a == [] {
      assert s == sub + b && s[1..] == sub[1..] + b;
      LastIndexAbsent(s[1..], sub);
    } else {
      assert s[1..] == a[1..] + (sub + b);
      LastIndexOfAt(a[1..], sub, b);
    }
  }

  lemma {:induction false} WordLengthIs(t: string, rest: string)
    requires (forall i :: 0 <= i < |t| ==> !IsWhite(t[i])) && (rest == [] || IsWhite(rest[0]))
    ensures WordLength(t + rest) == |t|
  {
    if t == [] {
      assert t + rest == rest;
    } else {
      assert (t + rest)[1..] == t[1..] + rest;
      WordLengthIs(t[1..], rest);
    }
  }

  /** Joined tokens read back as the same tokens. */
  lemma {:induction false} FieldsJoin(toks: seq<string>)
    requires forall i :: 0 <= i < |toks| ==> IsToken(toks[i])
    ensures Fields(JoinOn(toks, ' ')) == toks
  {
    if |toks| == 1 {
      WordLengthIs(toks[0], []);
      assert toks[0] + [] == toks[0] && toks[0][|toks[0]|..] == [];
    } else if |toks| > 1 {
      var rest := [' '] + JoinOn(toks[1..], ' ');
      WordLengthIs(toks[0], rest);
      assert (toks[0] + rest)[..|toks[0]|] == toks[0] && (toks[0] + rest)[|toks[0]|..] == rest;
      assert rest[1..] == JoinOn(toks[1..], ' ');
      FieldsJoin(toks[1..]);
    }
  }

  // ---- headers ----

  /** What the reader takes a line for. A header that cannot be taken apart stops it. */
  datatype HeaderRead = Plain | Malformed | Header(names: seq<string>, count: int)

  predicate EndsWith(s: string, end: string) { |end| <= |s| && s[|s| - |end|..] == end }

  function TrimSuffix(s: string, end: string): string { if EndsWith(s, end) then s[..|s| - |end|] else s }

  /** The number the reader makes of any characters, digits or not. */
  function CountOf(s: string): int {
    if s == [] then 0 else 10 * CountOf(s[..|s| - 1]) + (s[|s| - 1] as int - '0' as int)
  }

  lemma {:induction false} CountOfDigits(s: string)
    requires AllDigits(s)
    ensures CountOf(s) == Atoi(s)
  {
    if s != [] {
      CountOfDigits(s[..|s| - 1]);
    }
  }

  predicate LooksLike(line: string, open: string, close: string, end: string) {
    open <= line && Contains(line, close) && EndsWith(line, end)
  }

  /** The slot names and the row count of a line with a header's looks. */
  function ReadHeaderAs(line: string, open: string, colon: string, close: string, end: string): HeaderRead {
    var o, c := IndexOf(line, colon), LastIndexOf(line, close);
    if !LooksLike(line, open, close, end) then Plain
    else if o.None? || c.None? || c.value < o.value + |colon| then Malformed
    else
      Header(SplitOn(line[o.value + |colon|..c.value], ' '), CountOf(TrimSuffix(line[c.value + |close|..], end)))
  }

  function ReadHeader(line: string): HeaderRead {
    ReadHeaderAs(line, HEADER_OPEN, HEADER_COLON, HEADER_CLOSE, HEADER_END)
  }

  /** The three checks the reader makes before it takes a line for a header. */
  predicate LooksLikeHeader(line: string) { LooksLike(line, HEADER_OPEN, HEADER_CLOSE, HEADER_END) }

  lemma {:induction false} FivePieces(p: string, colon: string, body: string, close: string, tail: string)
    ensures var s := p + (colon + (body + (close + tail)));
            && s == ((p + colon) + body) + (close + tail)
            && s[|p| + |colon|..|p| + |colon| + |body|] == body
            && s[|p| + |colon| + |body| + |close|..] == tail
  {
  }

  lemma {:induction false} HoldsMiddle(a: string, sub: string, b: string)
    ensures Contains(a + (sub + b), sub)
  {
    assert OccursAt(a + (sub + b), |a|, sub);
    ContainsIffOccurs(a + (sub + b), sub);
  }

  lemma {:induction false} EndsWithEnd(a: string, end: string)
    ensures EndsWith(a + end, end) && TrimSuffix(a + end, end) == a
  {
  }

  lemma {:induction false} HeaderReadsAs(id: string, body: string, n: nat, open: string, colon: string, close: string,
                                         end: string)
    requires |colon| > 0 && colon[0] !in open && colon[0] !in id
    requires |close| > 0 && close[0] !in close[1..] && close[0] !in end && !IsDigit(close[0])
    ensures ReadHeaderAs(open + (id + (colon + (body + (close + (Itoa(n) + end))))), open, colon, close, end)
         == Header(SplitOn(body, ' '), n)
  {
    var tail := Itoa(n) + end;
    var rest := colon + (body + (close + tail));
    var front := ((open + id) + colon) + body;
    SeqAssoc(open, id, rest);
    FivePieces(open + id, colon, body, close, tail);
    IndexOfAt(open + id, colon, body + (close + tail));
    LastIndexOfAt(front, close, tail);
    HoldsMiddle(front, close, tail);
    SeqAssoc(front + close, Itoa(n), end);
    SeqAssoc(front, close, tail);
    EndsWithEnd((front + close) + Itoa(n), end);
    SeqAssoc(front, close, Itoa(n));
    EndsWithEnd(Itoa(n), end);
    AtoiItoa(n);
    CountOfDigits(Itoa(n));
  }

  lemma {:induction false} HeaderParts()
    ensures |HEADER_COLON| > 0 && HEADER_COLON[0] == ':' && ':' !in HEADER_OPEN
    ensures |HEADER_CLOSE| > 0 && HEADER_CLOSE[0] == ']' && ']' !in HEADER_CLOSE[1..] && ']' !in HEADER_END
  {
    assert HEADER_CLOSE[1..] == [' ', '('];
  }

  /** A printed header reads back as its names and its count. */
  lemma {:induction false} HeaderReads(id: nat, names: seq<string>, n: nat)
    requires names != [] && forall i :: 0 <= i < |names| ==> ' ' !in names[i]
    ensures ReadHeader(HeaderLine(id, names, n)) == Header(names, n)
  {
    HeaderParts();
    HeaderReadsAs(Itoa(id), JoinOn(names, ' '), n, HEADER_OPEN, HEADER_COLON, HEADER_CLOSE, HEADER_END);
    SplitJoin(names, ' ');
  }

  // ---- rows ----

  /** Splices a row's tokens into the "<*>" positions. */
  function FillNames(names: seq<string>, row: seq<string>): Option<seq<string>> {
    if names == [] then Some([])
    else if names[0] == WILDCARD then
      if row == [] then None
      else
        var r := FillNames(names[1..], row[1..]);
        if r.None? then None else Some([row[0]] + r.value)
    else
      var r := FillNames(names[1..], row);
      if r.None? then None else Some([names[0]] + r.value)
  }

  ghost predicate NoWildConstant(slots: seq<Slot>) {
    forall p :: 0 <= p < |slots| && !slots[p].wild ==> slots[p].tok != WILDCARD
  }

  ghost function WildNames(names: seq<string>): nat {
    if names == [] then 0 else (if names[0] == WILDCARD then 1 else 0) + WildNames(names[1..])
  }

  lemma {:induction false} ShortRow(names: seq<string>, row: seq<string>)
    requires |row| < WildNames(names)
    ensures FillNames(names, row) == None
  {
    if names[0] == WILDCARD {
      if row != [] {
        ShortRow(names[1..], row[1..]);
      }
    } else {
      ShortRow(names[1..], row);
    }
  }

  lemma {:induction false} WildNamesCounts(slots: seq<Slot>)
    ensures WildNames(Names(slots)) >= Wilds(slots)
    ensures !NoWildConstant(slots) ==> WildNames(Names(slots)) > Wilds(slots)
  {
    if slots != [] {
      WildNamesCounts(slots[1..]);
      assert Names(slots)[1..] == Names(slots[1..]);
      if !slots[0].wild && slots[0].tok == WILDCARD {
      } else if !NoWildConstant(slots) {
        var p :| 0 <= p < |slots| && !slots[p].wild && slots[p].tok == WILDCARD;
        assert slots[1..][p - 1] == slots[p];
      }
    }
  }

  lemma {:induction false} FillByName(slots: seq<Slot>, row: seq<string>)
    requires |row| == Wilds(slots) && NoWildConstant(slots)
    ensures FillNames(Names(slots), row) == Some(Fill(slots, row))
  {
    if slots != [] {
      assert Names(slots)[1..] == Names(slots[1..]);
      FillByName(slots[1..], if slots[0].wild then row[1..] else row);
    }
  }

  /** Reading one row by the printed names gives the line's tokens if and only if no
      constant slot holds the text "<*>". */
  lemma {:induction false} RowReadsIff(slots: seq<Slot>, row: seq<string>)
    requires |row| == Wilds(slots)
    ensures FillNames(Names(slots), row) == Some(Fill(slots, row)) <==> NoWildConstant(slots)
  {
    if NoWildConstant(slots) {
      FillByName(slots, row);
    } else {
      WildNamesCounts(slots);
      ShortRow(Names(slots), row);
    }
  }

  function ReadRows(names: seq<string>, ls: seq<string>): Option<seq<seq<string>>> {
    if ls == [] then Some([])
    else
      var first := FillNames(names, Fields(ls[0]));
      var rest := ReadRows(names, ls[1..]);
      if first.None? || rest.None? then None else Some([first.value] + rest.value)
  }

  ghost predicate TokenRows(rows: seq<seq<string>>) {
    forall k, i :: 0 <= k < |rows| && 0 <= i < |rows[k]| ==> IsToken(rows[k][i])
  }

  lemma {:induction false} FirstRow(slots: seq<Slot>, rows: seq<seq<string>>)
    requires rows != []
    ensures RowLines(rows) != [] && RowLines(rows)[1..] == RowLines(rows[1..])
    ensures RowLines(rows)[0] == JoinOn(rows[0], ' ')
    ensures Expand(Template(0, slots, rows)) == [Fill(slots, rows[0])] + Expand(Template(0, slots, rows[1..]))
  {
  }

  lemma {:induction false} RowsRead(slots: seq<Slot>, rows: seq<seq<string>>)
    requires TokenRows(rows) && forall k :: 0 <= k < |rows| ==> |rows[k]| == Wilds(slots)
    requires NoWildConstant(slots)
    ensures ReadRows(Names(slots), RowLines(rows)) == Some(Expand(Template(0, slots, rows)))
  {
    if rows != [] {
      FirstRow(slots, rows);
      FieldsJoin(rows[0]);
      FillByName(slots, rows[0]);
      RowsRead(slots, rows[1..]);
    } else {
      assert RowLines(rows) == [] && Expand(Template(0, slots, rows)) == [];
    }
  }

  // ---- the whole output ----

  function Read(ls: seq<string>): Option<seq<seq<string>>>
    decreases |ls|
  {
    if ls == [] then Some([])
    else
      match ReadHeader(ls[0])
      case Plain =>
        var rest := Read(ls[1..]);
        if rest.None? then None else Some([Fields(ls[0])] + rest.value)
      case Malformed => None
      case Header(names, count) =>
        var n: nat := if count < 0 then 0 else count;
        if n >= |ls| then None
        else
          var rows, rest := ReadRows(names, ls[1..n + 1]), Read(ls[n + 1..]);
          if rows.None? || rest.None? then None else Some(rows.value + rest.value)
  }

  /** A segment whose lines the reader takes for what they are. */
  ghost predicate Readable(g: Seg) {
    match g
    case Verbatim(line, toks) => !LooksLikeHeader(line) && toks == Fields(line)
    case Template(_, slots, rows) =>
      && slots != [] && rows != [] && TokenRows(rows)
      && (forall p :: 0 <= p < |slots| ==> ' ' !in slots[p].tok)
      && (forall k :: 0 <= k < |rows| ==> |rows[k]| == Wilds(slots))
  }

  /** A constant slot with the wildcard's text asks a row for a token it does not have. */
  ghost predicate Clear(g: Seg) { g.Template? ==> NoWildConstant(g.slots) }

  lemma {:induction false} NamesHaveNoSpace(slots: seq<Slot>)
    requires forall p :: 0 <= p < |slots| ==> ' ' !in slots[p].tok
    ensures forall p :: 0 <= p < |slots| ==> ' ' !in Names(slots)[p]
  {
  }

  /** A template with such a slot stops the reader at its first row. */
  lemma {:induction false} RowsStop(slots: seq<Slot>, rows: seq<seq<string>>)
    requires TokenRows(rows) && rows != [] && |rows[0]| == Wilds(slots) && !NoWildConstant(slots)
    ensures ReadRows(Names(slots), RowLines(rows)) == None
  {
    FieldsJoin(rows[0]);
    WildNamesCounts(slots);
    ShortRow(Names(slots), rows[0]);
    assert RowLines(rows)[0] == JoinOn(rows[0], ' ');
  }

  lemma {:induction false} SegReads(g: Seg, rest: seq<string>)
    requires Readable(g)
    ensures Read(SegLines(g) + rest)
         == if Clear(g) && Read(rest).Some? then Some(Expand(g) + Read(rest).value) else None
  {
    var ls := SegLines(g) + rest;
    if g.Verbatim? {
      assert ls[1..] == rest && ls[0] == g.line;
    } else {
      var n := |g.rows|;
      NamesHaveNoSpace(g.slots);
      HeaderReads(g.id, Names(g.slots), n);
      if Clear(g) {
        RowsRead(g.slots, g.rows);
      } else {
        RowsStop(g.slots, g.rows);
      }
      assert ls[1..n + 1] == RowLines(g.rows) && ls[n + 1..] == rest;
      assert ls[0] == HeaderLine(g.id, Names(g.slots), n);
      assert Expand(g) == Expand(Template(0, g.slots, g.rows));
    }
  }

  lemma {:induction false} BothEnds<T>(s: seq<T>)
    requires |s| > 1
    ensures s == s[..|s| - 1] + [s[|s| - 1]] && s[1..] == s[1..|s| - 1] + [s[|s| - 1]]
    ensures s[..|s| - 1][1..] == s[1..|s| - 1]
  {
  }

  lemma {:induction false} AllLinesFront(segs: seq<Seg>)
    requires segs != []
    ensures AllLines(segs) == SegLines(segs[0]) + AllLines(segs[1..])
  {
    var n := |segs| - 1;
    if n == 0 {
      assert segs[..0] == [] && segs[1..] == [];
    } else {
      BothEnds(segs);
      AllLinesFront(segs[..n]);
      AllLinesSnoc(segs[1..n], segs[n]);
      SeqAssoc(SegLines(segs[0]), AllLines(segs[1..n]), SegLines(segs[n]));
    }
  }

  lemma {:induction false} ExpandFront(segs: seq<Seg>)
    requires segs != []
    ensures ExpandAll(segs) == Expand(segs[0]) + ExpandAll(segs[1..])
  {
    var n := |segs| - 1;
    if n == 0 {
      assert segs[..0] == [] && segs[1..] == [];
    } else {
      BothEnds(segs);
      ExpandFront(segs[..n]);
      ExpandSnoc(segs[1..n], segs[n]);
      SeqAssoc(Expand(segs[0]), ExpandAll(segs[1..n]), Expand(segs[n]));
    }
  }

  ghost predicate AllClear(segs: seq<Seg>) { forall k :: 0 <= k < |segs| ==> Clear(segs[k]) }

  /** Readable segments read back as their lines' tokens, or stop the reader. */
  lemma {:induction false} SegsRead(segs: seq<Seg>)
    requires forall k :: 0 <= k < |segs| ==> Readable(segs[k])
    ensures Read(AllLines(segs)) == if AllClear(segs) then Some(ExpandAll(segs)) else None
  {
    if segs != [] {
      AllLinesFront(segs);
      ExpandFront(segs);
      SegsRead(segs[1..]);
      SegReads(segs[0], AllLines(segs[1..]));
      assert AllClear(segs) <==> Clear(segs[0]) && AllClear(segs[1..]) by { ClearFront(segs); }
    }
  }

  lemma {:induction false} ClearFront(segs: seq<Seg>)
    requires segs != []
    ensures AllClear(segs) <==> Clear(segs[0]) && AllClear(segs[1..])
  {
    if Clear(segs[0]) && AllClear(segs[1..]) {
      forall k | 0 <= k < |segs| ensures Clear(segs[k]) {
        assert k > 0 ==> segs[k] == segs[1..][k - 1];
      }
    }
  }

  /** No line has a header's looks. */
  ghost predicate NoLookalikes(lines: seq<string>) {
    forall i :: 0 <= i < |lines| ==> !LooksLikeHeader(lines[i])
  }

  lemma {:induction false} WildToksAreTokens(slots: seq<Slot>, toks: seq<string>)
    requires |slots| == |toks| && forall i :: 0 <= i < |toks| ==> IsToken(toks[i])
    ensures forall i :: 0 <= i < Wilds(slots) ==> IsToken(WildToks(slots, toks)[i])
  {
    if slots != [] {
      WildToksAreTokens(slots[1..], toks[1..]);
    }
  }

  lemma {:induction false} TemplateIsReadable(cfg: Config, lines: seq<string>, g: Seg, a: nat, b: nat)
    requires TemplateOver(cfg, Tokenized(lines), g, a, b)
    ensures Readable(g)
  {
    forall p | 0 <= p < |g.slots| ensures ' ' !in g.slots[p].tok {
      MergedIs(Tokenized(lines), a, b, p);
      assert IsToken(g.slots[p].tok);
    }
    assert |g.rows| == b - a > 0;
    forall k | 0 <= k < |g.rows|
      ensures |g.rows[k]| == Wilds(g.slots) && forall i :: 0 <= i < |g.rows[k]| ==> IsToken(g.rows[k][i])
    {
      assert |Tokenized(lines)[a + k]| == |g.slots| && g.rows[a + k - a] == WildToks(g.slots, Tokenized(lines)[a + k]);
      WildToksAreTokens(g.slots, Fields(lines[a + k]));
    }
  }

  /** Every line of the run has the wildcard's text at position p. */
  ghost predicate StarColumn(lines: seq<string>, a: nat, b: nat, p: nat) {
    forall j :: a <= j < b && j < |lines| ==> p < |Fields(lines[j])| && Fields(lines[j])[p] == WILDCARD
  }

  /** No run that collapses has such a column. */
  ghost predicate StarFree(cfg: Config, lines: seq<string>) {
    forall k, a, b :: 0 <= k < |Mined(cfg, lines)| && 0 <= a < b ==> StarFreeRun(cfg, lines, Mined(cfg, lines)[k], a, b)
  }

  ghost predicate StarFreeRun(cfg: Config, lines: seq<string>, g: Seg, a: nat, b: nat) {
    TemplateOver(cfg, Tokenized(lines), g, a, b) ==>
      forall p: nat :: p < |g.slots| ==> !StarColumn(lines, a, b, p)
  }

  lemma {:induction false} StarIsConstant(cfg: Config, lines: seq<string>, g: Seg, a: nat, b: nat, p: nat)
    requires TemplateOver(cfg, Tokenized(lines), g, a, b) && p < |g.slots|
    ensures StarColumn(lines, a, b, p) <==> !g.slots[p].wild && g.slots[p].tok == WILDCARD
  {
    var toks := Tokenized(lines);
    MergedIs(toks, a, b, p);
    assert |toks[a]| == |g.slots|;
    if StarColumn(lines, a, b, p) {
      assert forall j :: a <= j < b ==> toks[j][p] == toks[a][p];
    }
    if !g.slots[p].wild && g.slots[p].tok == WILDCARD {
      assert !Varies(toks, a, b, p);
      forall j | a <= j < b && j < |lines| ensures p < |Fields(lines[j])| && Fields(lines[j])[p] == WILDCARD {
        assert toks[j] == Fields(lines[j]) && |toks[j]| == |g.slots| && toks[j][p] == toks[a][p];
      }
    }
  }

  lemma {:induction false} ClearRunIsFree(cfg: Config, lines: seq<string>, g: Seg, a: nat, b: nat)
    requires TemplateOver(cfg, Tokenized(lines), g, a, b) && NoWildConstant(g.slots)
    ensures StarFreeRun(cfg, lines, g, a, b)
  {
    forall p: nat | p < |g.slots| ensures !StarColumn(lines, a, b, p) {
      StarIsConstant(cfg, lines, g, a, b, p);
    }
  }

  lemma {:induction false} MinedIsReadable(cfg: Config, lines: seq<string>, k: nat)
    requires NoLookalikes(lines) && k < |Mined(cfg, lines)|
    ensures Readable(Mined(cfg, lines)[k])
    ensures Mined(cfg, lines)[k].Verbatim? ==> Mined(cfg, lines)[k].line in lines
  {
    var g := Mined(cfg, lines)[k];
    TemplatesAreExact(cfg, lines, k);
    match g
    case Verbatim(line, toks) =>
      var i :| 0 <= i < |lines| && lines[i] == line && Tokenized(lines)[i] == toks;
    case Template(_, _, _) =>
      var a, b :| TemplateOver(cfg, Tokenized(lines), g, a, b);
      TemplateIsReadable(cfg, lines, g, a, b);
  }

  /** The templates are clear exactly when no collapsed run has a column of "<*>". */
  lemma {:induction false} ClearIff(cfg: Config, lines: seq<string>)
    ensures AllClear(Mined(cfg, lines)) <==> StarFree(cfg, lines)
  {
    var segs := Mined(cfg, lines);
    if AllClear(segs) {
      forall k, a, b | 0 <= k < |segs| && 0 <= a < b ensures StarFreeRun(cfg, lines, segs[k], a, b) {
        if TemplateOver(cfg, Tokenized(lines), segs[k], a, b) {
          assert Clear(segs[k]);
          ClearRunIsFree(cfg, lines, segs[k], a, b);
        }
      }
    } else {
      var k :| 0 <= k < |segs| && !Clear(segs[k]);
      TemplatesAreExact(cfg, lines, k);
      var a, b :| TemplateOver(cfg, Tokenized(lines), segs[k], a, b);
      var p :| 0 <= p < |segs[k].slots| && !segs[k].slots[p].wild && segs[k].slots[p].tok == WILDCARD;
      StarIsConstant(cfg, lines, segs[k], a, b, p);
      assert !StarFreeRun(cfg, lines, segs[k], a, b);
    }
  }

  /** The printed lines read back as every line's tokens if and only if no collapsed run
      has "<*>" at one position of all its lines, for lines without a header's looks. A
      verbatim "<*>", or one that varies, does no harm. */
  lemma {:induction false} ReadsBackIff(cfg: Config, lines: seq<string>)
    requires NoLookalikes(lines)
    ensures Read(AllLines(Mined(cfg, lines))) == Some(Tokenized(lines)) <==> StarFree(cfg, lines)
  {
    Lossless(cfg, lines);
    ClearIff(cfg, lines);
    var segs := Mined(cfg, lines);
    forall k | 0 <= k < |segs| ensures Readable(segs[k]) {
      MinedIsReadable(cfg, lines, k);
    }
    SegsRead(segs);
  }

  /** A header look-alike that announces no rows is read as nothing. */
  lemma {:induction false} ImitationIsLost(id: nat, names: seq<string>, rest: seq<string>)
    requires names != [] && forall i :: 0 <= i < |names| ==> ' ' !in names[i]
    ensures Read([HeaderLine(id, names, 0)] + rest) == Read(rest)
  {
    HeaderReads(id, names, 0);
    var ls := [HeaderLine(id, names, 0)] + rest;
    var none: seq<string> := [];
    assert ls[1..0 + 1] == none && ls[0 + 1..] == rest;
    var empty: seq<seq<string>> := [];
    assert ReadRows(names, none) == Some(empty);
    assert Read(rest).Some? ==> empty + Read(rest).value == Read(rest).value;
  }
}
