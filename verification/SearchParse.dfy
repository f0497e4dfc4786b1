/** What a search line parses to, said by how it can be cut:
    parseMatchLine of internal/compress/search_compressor.go. */
module SearchParse {

  import opened Common
  import opened Text
  import opened SearchLine

  /** f, x, digits, y and c in a row. */
  function Row(f: string, x: char, digits: string, y: char, c: string): string { f + ([x] + (digits + ([y] + c))) }

  lemma {:induction false} RowParts(f: string, x: char, digits: string, y: char, c: string)
    ensures var b, e := Row(f, x, digits, y, c), |f| + 1 + |digits|;
            && |b| == e + 1 + |c| && b[|f|] == x && b[e] == y
            && b[..|f|] == f && b[|f| + 1..e] == digits && b[e + 1..] == c
  {
    var b, e := Row(f, x, digits, y, c), |f| + 1 + |digits|;
    assert b == (f + [x]) + (digits + ([y] + c));
    assert b == ((f + [x]) + digits) + ([y] + c);
    assert b == ((f + [x]) + digits + [y]) + c;
  }

  lemma {:induction false} RowOf(b: string, k: nat, e: nat)
    requires k < e < |b|
    ensures b == Row(b[..k], b[k], b[k + 1..e], b[e], b[e + 1..])
  {
    SeqAssoc(b[k + 1..e], [b[e]], b[e + 1..]);
    assert b[k..] == [b[k]] + (b[k + 1..e] + ([b[e]] + b[e + 1..]));
  }

  predicate Separates(x: char) { x == ':' || x == '-' }

  /** b is f, a ':' or '-', digits, a ':' or '-', and c; and f does not end in one. */
  ghost predicate Cut(b: string, f: string, digits: string, c: string) {
    && digits != "" && AllDigits(digits) && (f != "" ==> !Separates(f[|f| - 1]))
    && exists x, y :: Separates(x) && Separates(y) && b == Row(f, x, digits, y, c)
  }

  lemma {:induction false} EndOfDigits(b: string, k: nat, e: nat)
    requires k <= e < |b| && (forall i :: k <= i < e ==> IsDigit(b[i])) && !IsDigit(b[e])
    ensures DigitEnd(b, k) == e
    decreases e - k
  {
    if k < e {
      EndOfDigits(b, k + 1, e);
    }
  }

  lemma {:induction false} CutIsTriplet(b: string, f: string, digits: string, c: string)
    requires Cut(b, f, digits, c)
    ensures var e := |f| + 1 + |digits|;
            && TripletAt(b, |f|) && DigitEnd(b, |f| + 1) == e
            && f == b[..|f|] && digits == b[|f| + 1..e] && c == b[e + 1..]
  {
    var x, y :| Separates(x) && Separates(y) && b == Row(f, x, digits, y, c);
    var e := |f| + 1 + |digits|;
    RowParts(f, x, digits, y, c);
    forall i | |f| + 1 <= i < e ensures IsDigit(b[i]) {
      assert b[i] == digits[i - |f| - 1];
    }
    EndOfDigits(b, |f| + 1, e);
    assert f != "" ==> b[|f| - 1] == f[|f| - 1];
  }

  /** The digits after position k, and what follows their closing character. */
  ghost function DigitsAt(b: string, k: nat): string
    requires TripletAt(b, k)
  {
    b[k + 1..DigitEnd(b, k + 1)]
  }

  ghost function RestAt(b: string, k: nat): string
    requires TripletAt(b, k)
  {
    b[DigitEnd(b, k + 1) + 1..]
  }

  lemma {:induction false} TripletEnds(b: string, k: nat)
    requires TripletAt(b, k)
    ensures var e := DigitEnd(b, k + 1);
            && k + 1 < e < |b| && Separates(b[k]) && Separates(b[e]) && (k > 0 ==> !Separates(b[k - 1]))
  {
  }

  lemma {:induction false} DigitsAreDigits(b: string, k: nat)
    requires TripletAt(b, k)
    ensures DigitsAt(b, k) != "" && AllDigits(DigitsAt(b, k))
  {
    TripletEnds(b, k);
  }

  lemma {:induction false} TripletIsRow(b: string, k: nat, e: nat)
    requires TripletAt(b, k) && e == DigitEnd(b, k + 1)
    ensures e < |b| && b == Row(b[..k], b[k], DigitsAt(b, k), b[e], RestAt(b, k))
  {
    TripletEnds(b, k);
    RowOf(b, k, e);
  }

  lemma {:induction false} TripletIsCut(b: string, k: nat)
    requires TripletAt(b, k)
    ensures Cut(b, b[..k], DigitsAt(b, k), RestAt(b, k))
  {
    TripletEnds(b, k);
    DigitsAreDigits(b, k);
    TripletIsRow(b, k, DigitEnd(b, k + 1));
    assert k > 0 ==> b[..k][k - 1] == b[k - 1];
  }

  /** A drive letter, a colon and a slash. */
  predicate HasDrive(b: string) {
    && |b| >= 3 && ('a' <= b[0] <= 'z' || 'A' <= b[0] <= 'Z') && b[1] == ':' && (b[2] == '\\' || b[2] == '/')
  }

  /** f may be the path: the colon of a drive does not end it. */
  ghost predicate Ends(b: string, f: string, digits: string, c: string) {
    Cut(b, f, digits, c) && (HasDrive(b) ==> |f| >= 2)
  }

  /** b can be cut after its first p characters. */
  ghost predicate CutsAt(b: string, p: nat) { p <= |b| && exists digits, c :: Ends(b, b[..p], digits, c) }

  lemma {:induction false} CutsAtTriplet(b: string, p: nat)
    requires TripletAt(b, p) && ScanStart(b) <= p
    ensures CutsAt(b, p)
  {
    TripletIsCut(b, p);
    assert Ends(b, b[..p], DigitsAt(b, p), RestAt(b, p));
  }

  lemma {:induction false} CutsAtIff(b: string, p: nat)
    ensures CutsAt(b, p) <==> TripletAt(b, p) && ScanStart(b) <= p
  {
    if CutsAt(b, p) {
      var digits, c :| Ends(b, b[..p], digits, c);
      CutIsTriplet(b, b[..p], digits, c);
    } else if TripletAt(b, p) && ScanStart(b) <= p {
      CutsAtTriplet(b, p);
      assert false;
    }
  }

  /** No cut leaves a shorter path. */
  ghost predicate Shortest(b: string, n: nat) { forall p: nat :: p < n ==> !CutsAt(b, p) }

  lemma {:induction false} FirstIsShortest(b: string, k: nat)
    requires k < |b| && FirstTriplet(b, ScanStart(b)) == k
    ensures Shortest(b, k)
  {
    forall p: nat | p < k ensures !CutsAt(b, p) {
      CutsAtIff(b, p);
    }
  }

  lemma {:induction false} ShortestIsFirst(b: string, k: nat)
    requires TripletAt(b, k) && ScanStart(b) <= k && Shortest(b, k)
    ensures FirstTriplet(b, ScanStart(b)) == k
  {
    forall p | ScanStart(b) <= p < k ensures !TripletAt(b, p) {
      CutsAtIff(b, p);
    }
    FirstIs(b, ScanStart(b), k);
  }

  /** b is cut into m, with the shortest path there is. */
  ghost predicate CutInto(b: string, m: Match, digits: string) {
    && Ends(b, m.file, digits, m.content) && Shortest(b, |m.file|) && m.file != ""
    && Atoi(digits) == m.line < 0x1_0000_0000_0000_0000
  }

  lemma {:induction false} CutParses(b: string, m: Match, digits: string)
    requires CutInto(b, m, digits)
    ensures Parse(b) == Some(m)
  {
    CutIsTriplet(b, m.file, digits, m.content);
    ShortestIsFirst(b, |m.file|);
  }

  lemma {:induction false} ParsedIsCut(b: string, m: Match) returns (digits: string)
    requires Parse(b) == Some(m)
    ensures CutInto(b, m, digits)
  {
    var k := FirstTriplet(b, ScanStart(b));
    digits := DigitsAt(b, k);
    TripletIsCut(b, k);
    FirstIsShortest(b, k);
    ParsedAtFirst(b, m);
  }

  lemma {:induction false} ParsedAtFirst(b: string, m: Match)
    requires Parse(b) == Some(m)
    ensures var k := FirstTriplet(b, ScanStart(b));
            && 0 < k < |b| && TripletAt(b, k) && m.file == b[..k] && m.content == RestAt(b, k)
            && AllDigits(DigitsAt(b, k)) && m.line == Atoi(DigitsAt(b, k)) < 0x1_0000_0000_0000_0000
  {
  }

  /** A line parses to a path, a number and the rest exactly when it can be cut so, no
      cut leaves a shorter path, the path is not empty and the number fits 64 bits. */
  lemma {:induction false} ParseIff(b: string, m: Match)
    ensures Parse(b) == Some(m) <==> exists digits :: CutInto(b, m, digits)
  {
    if digits :| CutInto(b, m, digits) {
      CutParses(b, m, digits);
    }
    if Parse(b) == Some(m) {
      var digits := ParsedIsCut(b, m);
    }
  }
}
