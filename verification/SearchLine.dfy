/** Scanning and printing "path:line:content": internal/compress/search_compressor.go. */
module SearchLine {

  import opened Common
  import opened Text

  predicate IsSep(c: char) { c == ':' || c == '-' }
  predicate IsAlpha(c: char) { 'a' <= c <= 'z' || 'A' <= c <= 'Z' }

  const TWO_TO_64: nat := 0x1_0000_0000_0000_0000

  datatype Match = Match(file: string, line: nat, content: string)

  // ---- what a line parses to ----

  /** The first position from j on that holds no digit. */
  ghost function DigitEnd(b: string, j: nat): (e: nat)
    requires j <= |b|
    ensures j <= e <= |b| && (forall k :: j <= k < e ==> IsDigit(b[k])) && (e < |b| ==> !IsDigit(b[e]))
    decreases |b| - j
  {
    if j < |b| && IsDigit(b[j]) then DigitEnd(b, j + 1) else j
  }

  /** A separator not preceded by one, digits, and a separator. */
  ghost predicate TripletAt(b: string, i: nat) {
    && i < |b| && IsSep(b[i]) && (i > 0 ==> !IsSep(b[i - 1]))
    && var j := DigitEnd(b, i + 1); i + 1 < j < |b| && IsSep(b[j])
  }

  /** A drive letter's colon is not a separator. */
  function ScanStart(b: string): nat {
    if |b| >= 3 && IsAlpha(b[0]) && b[1] == ':' && (b[2] == '\\' || b[2] == '/') then 2 else 0
  }

  /** The first triplet from i on, or |b|. */
  ghost function FirstTriplet(b: string, i: nat): (k: nat)
    requires i <= |b|
    ensures i <= k <= |b| && (k < |b| ==> TripletAt(b, k)) && forall p :: i <= p < k ==> !TripletAt(b, p)
    decreases |b| - i
  {
    if i == |b| || TripletAt(b, i) then i else FirstTriplet(b, i + 1)
  }

  ghost function Parse(b: string): Option<Match> {
    var i := FirstTriplet(b, ScanStart(b));
    if i == |b| || i == 0 then None
    else
      var j := DigitEnd(b, i + 1);
      if Atoi(b[i + 1..j]) >= TWO_TO_64 then None
      else Some(Match(b[..i], Atoi(b[i + 1..j]), b[j + 1..]))
  }

  /** strconv.ParseUint in base 10 with 64 bits. */
  function ParseUint(digits: string): Option<nat>
    requires AllDigits(digits)
  {
    if Atoi(digits) < TWO_TO_64 then Some(Atoi(digits)) else None
  }

  method SkipDigits(b: string, ds: nat) returns (j: nat)
    requires ds <= |b|
    ensures j == DigitEnd(b, ds)
  {
    j := ds;
    while j < |b| && IsDigit(b[j])
      invariant ds <= j <= |b| && DigitEnd(b, j) == DigitEnd(b, ds)
    {
      j := j + 1;
    }
  }

  /** The end of the digits, when a triplet starts at i. */
  method TryTriplet(line: string, i: nat) returns (end: Option<nat>)
    requires i < |line|
    ensures end == if TripletAt(line, i) then Some(DigitEnd(line, i + 1)) else None
  {
    if line[i] != ':' && line[i] != '-' {
      return None;
    }
    if i > 0 && (line[i - 1] == ':' || line[i - 1] == '-') {
      return None;
    }
    var ds := i + 1;
    var j := SkipDigits(line, ds);
    if j > ds && j < |line| && (line[j] == ':' || line[j] == '-') {
      return Some(j);
    }
    return None;
  }

  method ParseMatchLine(line: string) returns (m: Option<Match>)
    ensures m == Parse(line)
  {
    var n := |line|;
    var scanStart := 0;
    if n >= 3 && IsAlpha(line[0]) && line[1] == ':' && (line[2] == '\\' || line[2] == '/') {
      scanStart := 2;
    }
    var i := scanStart;
    while i < n
      invariant scanStart <= i <= n && FirstTriplet(line, i) == FirstTriplet(line, scanStart)
    {
      var end := TryTriplet(line, i);
      if end.Some? {
        m := MatchAt(line, i, end.value);
        return;
      }
      i := i + 1;
    }
    return None;
  }

  method MatchAt(line: string, i: nat, j: nat) returns (m: Option<Match>)
    requires i < |line| && FirstTriplet(line, ScanStart(line)) == i && j == DigitEnd(line, i + 1)
    ensures m == Parse(line)
  {
    if i == 0 {
      return None;
    }
    var num := ParseUint(line[i + 1..j]);
    if num.None? {
      return None;
    }
    return Some(Match(line[..i], num.value, line[j + 1..]));
  }

  // ---- printing ----

  function Print(m: Match): string { m.file + ([':'] + (Itoa(m.line) + ([':'] + m.content))) }

  /** A path the scanner gives back whole: not empty, no separator at its end, and no
      triplet inside it even once a ':' follows. */
  ghost predicate CleanPath(f: string) {
    f != [] && !IsSep(f[|f| - 1]) && forall i :: ScanStart(f) <= i < |f| ==> !TripletAt(f + [':'], i)
  }

  lemma {:induction false} DigitEndInside(f: string, rest: string, j: nat)
    requires j <= |f| && rest != [] && !IsDigit(rest[0])
    ensures DigitEnd(f + rest, j) == DigitEnd(f + [rest[0]], j) <= |f|
    decreases |f| - j
  {
    if j < |f| {
      assert (f + rest)[j] == f[j] && (f + [rest[0]])[j] == f[j];
      DigitEndInside(f, rest, j + 1);
    } else {
      assert (f + rest)[j] == rest[0] && (f + [rest[0]])[j] == rest[0];
    }
  }

  lemma {:induction false} TripletInside(f: string, rest: string, i: nat)
    requires i < |f| && rest != [] && rest[0] == ':'
    ensures TripletAt(f + rest, i) <==> TripletAt(f + [':'], i)
  {
    DigitEndInside(f, rest, i + 1);
    var j := DigitEnd(f + rest, i + 1);
    assert j <= |f| && (f + rest)[j] == (f + [':'])[j];
  }

  lemma {:induction false} DigitEndOf(a: string, digits: string, rest: string)
    requires AllDigits(digits) && rest != [] && !IsDigit(rest[0])
    ensures DigitEnd(a + (digits + rest), |a|) == |a| + |digits|
    decreases |digits|
  {
    var s := a + (digits + rest);
    if digits == [] {
      assert s[|a|] == rest[0];
    } else {
      assert s == (a + [digits[0]]) + (digits[1..] + rest);
      DigitEndOf(a + [digits[0]], digits[1..], rest);
      assert s[|a|] == digits[0];
    }
  }

  lemma {:induction false} TripletAfter(f: string, line: nat, content: string)
    ensures var s := f + ([':'] + (Itoa(line) + ([':'] + content)));
            && DigitEnd(s, |f| + 1) == |f| + 1 + |Itoa(line)|
            && (TripletAt(s, |f|) <==> f == [] || !IsSep(f[|f| - 1]))
  {
    var digits, rest := Itoa(line), [':'] + content;
    var s := f + ([':'] + (digits + rest));
    assert s == (f + [':']) + (digits + rest);
    DigitEndOf(f + [':'], digits, rest);
    assert s[|f| + 1 + |digits|] == ':' && s[|f|] == ':';
    assert f != [] ==> s[|f| - 1] == f[|f| - 1];
  }

  lemma {:induction false} SameScanStart(f: string, rest: string)
    requires |rest| >= 2 && rest[0] == ':' && IsDigit(rest[1])
    ensures ScanStart(f + rest) == ScanStart(f) && ScanStart(f) <= |f|
  {
    var s := f + rest;
    if |f| == 2 {
      assert s[2] == rest[0];
    } else if |f| == 1 {
      assert s[2] == rest[1];
    } else if |f| == 0 {
      assert s[0] == rest[0];
    }
  }

  lemma {:induction false} PrintedPieces(m: Match)
    ensures var s := Print(m);
            && s[..|m.file|] == m.file
            && s[|m.file| + 1..|m.file| + 1 + |Itoa(m.line)|] == Itoa(m.line)
            && s[|m.file| + 1 + |Itoa(m.line)| + 1..] == m.content
  {
    var d := Itoa(m.line);
    var s := Print(m);
    assert s == (m.file + [':']) + (d + ([':'] + m.content));
    assert s == ((m.file + [':']) + d + [':']) + m.content;
  }

  lemma {:induction false} FirstIs(b: string, i: nat, k: nat)
    requires i <= k < |b| && TripletAt(b, k) && forall p :: i <= p < k ==> !TripletAt(b, p)
    ensures FirstTriplet(b, i) == k
  {
  }

  /** On a printed match the scanner stops at the path's end exactly when it is clean. */
  lemma {:induction false} StopsAtPathEnd(m: Match)
    ensures ScanStart(Print(m)) <= |m.file|
    ensures FirstTriplet(Print(m), ScanStart(Print(m))) == |m.file| <==> m.file == [] || CleanPath(m.file)
  {
    var f, s := m.file, Print(m);
    var rest := [':'] + (Itoa(m.line) + ([':'] + m.content));
    assert rest[1] == Itoa(m.line)[0];
    SameScanStart(f, rest);
    TripletAfter(f, m.line, m.content);
    forall i | ScanStart(f) <= i < |f| ensures TripletAt(s, i) <==> TripletAt(f + [':'], i) {
      TripletInside(f, rest, i);
    }
    if f == [] || CleanPath(f) {
      FirstIs(s, ScanStart(s), |f|);
    }
  }

  lemma {:induction false} PrintedParses(m: Match)
    requires CleanPath(m.file)
    ensures Parse(Print(m)) == if m.line < TWO_TO_64 then Some(m) else None
  {
    StopsAtPathEnd(m);
    TripletAfter(m.file, m.line, m.content);
    PrintedPieces(m);
    AtoiItoa(m.line);
  }

  lemma {:induction false} ParsedLength(s: string)
    ensures Parse(s).Some? ==> 0 < |Parse(s).value.file| == FirstTriplet(s, ScanStart(s))
  {
  }

  /** A printed match parses back to itself if and only if its path is clean and its
      number fits in 64 bits. */
  lemma {:induction false} PrintParsesIff(m: Match)
    ensures Parse(Print(m)) == Some(m) <==> CleanPath(m.file) && m.line < TWO_TO_64
  {
    if CleanPath(m.file) {
      PrintedParses(m);
    } else {
      StopsAtPathEnd(m);
      ParsedLength(Print(m));
    }
  }

  /** The path a line parses to is clean, whatever its separators and leading zeros. */
  lemma {:induction false} ParsedPathIsClean(line: string)
    requires Parse(line).Some?
    ensures CleanPath(Parse(line).value.file) && Parse(line).value.line < TWO_TO_64
  {
    var k := FirstTriplet(line, ScanStart(line));
    var f := line[..k];
    assert line == f + line[k..];
    StartOfPrefix(line, k);
    forall i | ScanStart(f) <= i < |f| ensures !TripletAt(f + [':'], i) {
      ClosedByEither(f, line[k..], i);
    }
  }

  lemma {:induction false} StartOfPrefix(line: string, k: nat)
    requires k < |line| && TripletAt(line, k) && ScanStart(line) <= k
    ensures ScanStart(line[..k]) == ScanStart(line)
  {
    var f := line[..k];
    if ScanStart(line) == 2 {
      assert k != 2;
      assert f[0] == line[0] && f[1] == line[1] && f[2] == line[2];
    }
  }

  /** Either separator closes a triplet as the other would. */
  lemma {:induction false} ClosedByEither(f: string, rest: string, i: nat)
    requires i < |f| && rest != [] && IsSep(rest[0])
    ensures TripletAt(f + [':'], i) <==> TripletAt(f + rest, i)
  {
    DigitEndInside(f, rest, i + 1);
    DigitEndInside(f, [':'], i + 1);
    EndIgnoresCloser(f, rest[0], ':', i + 1);
    var j := DigitEnd(f + rest, i + 1);
    assert j < |f| ==> (f + rest)[j] == f[j] && (f + [':'])[j] == f[j];
  }

  lemma {:induction false} EndIgnoresCloser(f: string, c: char, d: char, j: nat)
    requires j <= |f| && !IsDigit(c) && !IsDigit(d)
    ensures DigitEnd(f + [c], j) == DigitEnd(f + [d], j)
    decreases |f| - j
  {
    if j < |f| {
      assert (f + [c])[j] == f[j] && (f + [d])[j] == f[j];
      EndIgnoresCloser(f, c, d, j + 1);
    }
  }

  /** Printing what a line parsed to and parsing again gives the same match. */
  lemma {:induction false} ParsePrintFixpoint(line: string)
    requires Parse(line).Some?
    ensures Parse(Print(Parse(line).value)) == Parse(line)
  {
    ParsedPathIsClean(line);
    PrintParsesIff(Parse(line).value);
  }

  // ---- lines are trimmed before parsing ----

  predicate Trimmed(s: string) { s != [] && !IsWhite(s[0]) && !IsWhite(s[|s| - 1]) }

  function TrimLeft(s: string): string { if s != [] && IsWhite(s[0]) then TrimLeft(s[1..]) else s }

  function TrimRight(s: string): string { if s != [] && IsWhite(s[|s| - 1]) then TrimRight(s[..|s| - 1]) else s }

  /** strings.TrimSpace. */
  function TrimSpace(s: string): string { TrimRight(TrimLeft(s)) }

  /** Printed lines go through the whole parse again, trimming included, unchanged. */
  lemma {:induction false} ReprintFixpoint(raw: string)
    requires var line := TrimSpace(raw); line != "" && Parse(line).Some?
    ensures Parse(TrimSpace(Print(Parse(TrimSpace(raw)).value))) == Parse(TrimSpace(raw))
  {
    var line := TrimSpace(raw);
    TrimsToTrimmed(raw);
    ParsePrintFixpoint(line);
    PrintStaysTrimmed(line);
  }

  lemma {:induction false} LeftEnds(s: string)
    ensures TrimLeft(s) == [] || !IsWhite(TrimLeft(s)[0])
  {
    if s != [] && IsWhite(s[0]) {
      LeftEnds(s[1..]);
    }
  }

  lemma {:induction false} RightEnds(s: string)
    ensures TrimRight(s) == [] || (s != [] && TrimRight(s)[0] == s[0] && !IsWhite(TrimRight(s)[|TrimRight(s)| - 1]))
  {
    if s != [] && IsWhite(s[|s| - 1]) {
      RightEnds(s[..|s| - 1]);
    }
  }

  lemma {:induction false} TrimsToTrimmed(s: string)
    requires TrimSpace(s) != []
    ensures Trimmed(TrimSpace(s))
  {
    LeftEnds(s);
    RightEnds(TrimLeft(s));
  }

  /** Nothing is lost by trimming the printed line again. */
  lemma {:induction false} PrintStaysTrimmed(line: string)
    requires Trimmed(line) && Parse(line).Some?
    ensures Trimmed(Print(Parse(line).value))
  {
    var m := Parse(line).value;
    Ends(m);
    assert m.file[0] == line[0];
    assert m.content != [] ==> m.content[|m.content| - 1] == line[|line| - 1];
  }

  lemma {:induction false} Ends(m: Match)
    requires m.file != []
    ensures Print(m)[0] == m.file[0]
    ensures Print(m)[|Print(m)| - 1] == if m.content == [] then ':' else m.content[|m.content| - 1]
  {
    var head := (m.file + [':']) + Itoa(m.line) + [':'];
    assert Print(m) == head + m.content;
  }
}
