/** The whole search output: internal/compress/search_compressor.go. */
module SearchOutput {

  import opened Common
  import opened Text
  import opened Marker
  import opened SearchLine

  datatype FileMatches = FileMatches(file: string, matches: seq<Match>)

  // ---- parsing a whole text ----

  ghost function ParseLine(raw: string): seq<Match> {
    var line := TrimSpace(raw);
    if line == "" || Parse(line).None? then [] else [Parse(line).value]
  }

  ghost function ParseLines(ls: seq<string>): seq<Match> {
    if ls == [] then [] else ParseLines(ls[..|ls| - 1]) + ParseLine(ls[|ls| - 1])
  }

  /** The matches of a text, in order; what does not parse is skipped. */
  ghost function Parsed(content: string): seq<Match> { ParseLines(SplitOn(content, '\n')) }

  /** Matches by path, each path's in order. */
  ghost function ByPath(ms: seq<Match>): map<string, seq<Match>> {
    if ms == [] then map[]
    else
      var init, m := ByPath(ms[..|ms| - 1]), ms[|ms| - 1];
      init[m.file := (if m.file in init then init[m.file] else []) + [m]]
  }

  lemma {:induction false} OneMoreMatch(ms: seq<Match>, m: Match)
    ensures var init := ByPath(ms);
            ByPath(ms + [m]) == init[m.file := (if m.file in init then init[m.file] else []) + [m]]
  {
    assert (ms + [m])[..|ms|] == ms;
  }

  /** One raw line: trimmed, skipped when empty, parsed. */
  method ParseRaw(raw: string) returns (m: Option<Match>)
    ensures ParseLine(raw) == if m.None? then [] else [m.value]
  {
    var line := TrimSpace(raw);
    if line == "" {
      return None;
    }
    m := ParseMatchLine(line);
  }

  ghost function Filed(byPath: map<string, seq<Match>>, m: Option<Match>): map<string, seq<Match>> {
    if m.None? then byPath
    else byPath[m.value.file := (if m.value.file in byPath then byPath[m.value.file] else []) + [m.value]]
  }

  lemma {:induction false} OneMoreLine(raws: seq<string>, i: nat, m: Option<Match>)
    requires i < |raws| && ParseLine(raws[i]) == if m.None? then [] else [m.value]
    ensures ByPath(ParseLines(raws[..i + 1])) == Filed(ByPath(ParseLines(raws[..i])), m)
  {
    var before := ParseLines(raws[..i]);
    assert raws[..i + 1][..i] == raws[..i];
    if m.None? {
      assert before + [] == before;
    } else {
      OneMoreMatch(before, m.value);
    }
  }

  method ParseSearchResults(content: string) returns (byPath: map<string, seq<Match>>)
    ensures byPath == ByPath(Parsed(content))
  {
    byPath := map[];
    var raws := SplitOn(content, '\n');
    for i := 0 to |raws|
      invariant byPath == ByPath(ParseLines(raws[..i]))
    {
      var m := ParseRaw(raws[i]);
      OneMoreLine(raws, i, m);
      if m.Some? {
        var file := m.value.file;
        byPath := byPath[file := (if file in byPath then byPath[file] else []) + [m.value]];
      }
    }
    assert raws[..|raws|] == raws;
  }

  // ---- printing ----

  function Footer(omitted: nat, file: string): string {
    "[... and " + (Itoa(omitted) + (" more matches in " + (file + "]")))
  }

  /** How many matches each path had to begin with; a later group wins. */
  ghost function Counts(original: seq<FileMatches>): map<string, nat> {
    if original == [] then map[]
    else
      var last := original[|original| - 1];
      Counts(original[..|original| - 1])[last.file := |last.matches|]
  }

  function Prints(ms: seq<Match>): (r: seq<string>)
    ensures |r| == |ms|
  {
    seq(|ms|, k requires 0 <= k < |ms| => Print(ms[k]))
  }

  ghost function GroupLines(fm: FileMatches, counts: map<string, nat>): seq<string> {
    Prints(fm.matches) +
    if fm.file in counts && counts[fm.file] > |fm.matches| then [Footer(counts[fm.file] - |fm.matches|, fm.file)]
    else []
  }

  ghost function OutputLines(selected: seq<FileMatches>, counts: map<string, nat>): seq<string> {
    if selected == [] then []
    else OutputLines(selected[..|selected| - 1], counts) + GroupLines(selected[|selected| - 1], counts)
  }

  method FormatOutput(selected: seq<FileMatches>, original: seq<FileMatches>) returns (out: string)
    ensures out == JoinOn(OutputLines(selected, Counts(original)), '\n')
  {
    var origByPath: map<string, nat> := map[];
    for i := 0 to |original|
      invariant origByPath == Counts(original[..i])
    {
      assert original[..i + 1][..i] == original[..i];
      origByPath := origByPath[original[i].file := |original[i].matches|];
    }
    assert original[..|original|] == original;
    var lines: seq<string> := [];
    for i := 0 to |selected|
      invariant lines == OutputLines(selected[..i], origByPath)
    {
      assert selected[..i + 1][..i] == selected[..i];
      var fm := selected[i];
      ghost var before := lines;
      for k := 0 to |fm.matches|
        invariant lines == before + Prints(fm.matches[..k])
      {
        assert Prints(fm.matches[..k + 1]) == Prints(fm.matches[..k]) + [Print(fm.matches[k])];
        lines := lines + [Print(fm.matches[k])];
      }
      assert fm.matches[..|fm.matches|] == fm.matches;
      if fm.file in origByPath && origByPath[fm.file] > |fm.matches| {
        lines := lines + [Footer(origByPath[fm.file] - |fm.matches|, fm.file)];
      }
    }
    assert selected[..|selected|] == selected;
    out := JoinOn(lines, '\n');
  }

  /** The line that says how to get the rest back. */
  function Retrieval(total: nat, kept: nat, key: string): string {
    "[" + (Itoa(total) + (" matches compressed to " + (Itoa(kept) + (". Retrieve more: hash=" + (key + "]")))))
  }

  // ---- what a footer counts ----

  /** Groups as parsing leaves them: one for each path. */
  ghost predicate OnePerPath(groups: seq<FileMatches>) {
    forall i, j :: 0 <= i < j < |groups| ==> groups[i].file != groups[j].file
  }

  lemma {:induction false} CountsAre(original: seq<FileMatches>, file: string)
    requires OnePerPath(original)
    ensures file in Counts(original) <==> exists j :: 0 <= j < |original| && original[j].file == file
    ensures forall j :: 0 <= j < |original| && original[j].file == file ==>
              Counts(original)[file] == |original[j].matches|
  {
    if original != [] {
      var n := |original| - 1;
      CountsAre(original[..n], file);
      if j :| 0 <= j < |original| && original[j].file == file {
        assert j < n ==> original[..n][j] == original[j];
      }
    }
  }

  /** A group prints its matches and, when the path had more, one line that says how
      many: the number printed and the matches printed are all the path had. */
  lemma {:induction false} FooterCounts(fm: FileMatches, original: seq<FileMatches>, had: FileMatches)
    returns (omitted: nat)
    requires OnePerPath(original) && had in original && had.file == fm.file
    ensures var ls, printed := GroupLines(fm, Counts(original)), Prints(fm.matches);
            if |fm.matches| >= |had.matches| then ls == printed
            else
              && omitted + |printed| == |had.matches|
              && ls == printed + ["[... and " + (Itoa(omitted) + (" more matches in " + (fm.file + "]")))]
  {
    CountsAre(original, fm.file);
    var j :| 0 <= j < |original| && original[j] == had;
    omitted := if |fm.matches| < |had.matches| then |had.matches| - |fm.matches| else 0;
  }

  // ---- a footer never parses ----

  predicate NoSep(s: string) { forall i :: 0 <= i < |s| ==> !IsSep(s[i]) }

  lemma {:induction false} NoTripletNoParse(s: string)
    requires forall i :: ScanStart(s) <= i < |s| ==> !TripletAt(s, i)
    ensures Parse(s) == None
  {
  }

  /** A text in brackets is its own trimming. */
  lemma {:induction false} BracketedStays(inner: string)
    ensures TrimSpace("[" + inner + "]") == "[" + inner + "]" != "" && ScanStart("[" + inner + "]") == 0
  {
    var s := "[" + inner + "]";
    assert s[0] == '[' && s[|s| - 1] == ']';
  }

  /** A clean path between a text without separators and a bracket holds no triplet. */
  lemma {:induction false} NoTripletInPath(before: string, f: string, q: nat)
    requires CleanPath(f) && before != "" && !IsSep(before[|before| - 1]) && q < |f|
    ensures !TripletAt(before + (f + "]"), |before| + q)
  {
    var s := before + (f + "]");
    if TripletAt(s, |before| + q) {
      ShiftedDigits(before, f + "]", q + 1);
      DigitEndInside(f, "]", q + 1);
      DigitEndInside(f, ":", q + 1);
      EndIgnoresCloser(f, ']', ':', q + 1);
      assert f + [':'] == f + ":" && f + [']'] == f + "]";
      var e := DigitEnd(f + "]", q + 1);
      assert e < |f| ==> (f + [':'])[e] == f[e] == s[|before| + e];
      assert s[|before| + q] == f[q] && (q > 0 ==> s[|before| + q - 1] == f[q - 1]);
      assert TripletAt(f + [':'], q);
      DriveHasNoTriplet(f, q);
      assert false;
    }
  }

  lemma {:induction false} DriveHasNoTriplet(f: string, q: nat)
    requires CleanPath(f) && q < |f|
    ensures !TripletAt(f + [':'], q)
  {
    if q < ScanStart(f) && q == 1 {
      assert (f + [':'])[2] == f[2];
    }
  }

  lemma {:induction false} ShiftedDigits(a: string, b: string, j: nat)
    requires j <= |b|
    ensures DigitEnd(a + b, |a| + j) == |a| + DigitEnd(b, j)
    decreases |b| - j
  {
    if j < |b| {
      assert (a + b)[|a| + j] == b[j];
      ShiftedDigits(a, b, j + 1);
    }
  }

  lemma {:induction false} NoSepBoth(a: string, b: string)
    requires NoSep(a) && NoSep(b)
    ensures NoSep(a + b)
  {
  }

  lemma {:induction false} PrefixHasNoSep(omitted: nat)
    ensures var p := "[... and " + (Itoa(omitted) + " more matches in ");
            NoSep(p) && p != "" && p[0] == '['
  {
    assert NoSep("[... and ") && NoSep(" more matches in ");
    assert NoSep(Itoa(omitted)) by {
      assert forall i :: 0 <= i < |Itoa(omitted)| ==> IsDigit(Itoa(omitted)[i]);
    }
    NoSepBoth(Itoa(omitted), " more matches in ");
    NoSepBoth("[... and ", Itoa(omitted) + " more matches in ");
  }

  lemma {:induction false} FooterNeverParses(omitted: nat, f: string)
    requires CleanPath(f)
    ensures ParseLine(Footer(omitted, f)) == []
  {
    var before := "[... and " + (Itoa(omitted) + " more matches in ");
    var s := before + (f + "]");
    PrefixHasNoSep(omitted);
    FooterPieces(omitted, f);
    BracketedStays(before[1..] + f);
    assert s == "[" + (before[1..] + f) + "]" by { assert before == "[" + before[1..]; }
    forall i | 0 <= i < |s| ensures !TripletAt(s, i) {
      if i < |before| {
        assert s[i] == before[i];
      } else if i < |before| + |f| {
        NoTripletInPath(before, f, i - |before|);
      }
    }
    NoTripletNoParse(s);
  }

  lemma {:induction false} FooterPieces(omitted: nat, f: string)
    ensures Footer(omitted, f) == "[... and " + (Itoa(omitted) + " more matches in ") + (f + "]")
  {
    SeqAssoc("[... and ", Itoa(omitted) + " more matches in ", f + "]");
    SeqAssoc(Itoa(omitted), " more matches in ", f + "]");
  }

  /** A text whose only separator is followed by a space. */
  lemma {:induction false} LoneColon(a: string, b: string)
    requires NoSep(a) && NoSep(b) && b != "" && !IsDigit(b[0])
    ensures forall i :: 0 <= i < |a + (":" + b)| ==> !TripletAt(a + (":" + b), i)
  {
    var s := a + (":" + b);
    assert s[|a|] == ':' && s[|a| + 1] == b[0];
    forall i | 0 <= i < |s| ensures !TripletAt(s, i) {
      assert i < |a| ==> s[i] == a[i];
      assert i > |a| ==> s[i] == b[i - |a| - 1];
    }
  }

  lemma {:induction false} RetrievalNeverParses(total: nat, kept: nat, key: string)
    requires IsHash(key)
    ensures ParseLine(Retrieval(total, kept, key)) == []
  {
    var n, k := Itoa(total), Itoa(kept);
    var a := "[" + (n + (" matches compressed to " + (k + ". Retrieve more")));
    var b := " hash=" + (key + "]");
    RetrievalPieces(n, k, key);
    assert NoSep(n) && NoSep(k) by {
      assert forall i :: 0 <= i < |n| ==> IsDigit(n[i]);
      assert forall i :: 0 <= i < |k| ==> IsDigit(k[i]);
    }
    assert NoSep(" matches compressed to ") && NoSep(". Retrieve more") && NoSep(" hash=") && NoSep("[") && NoSep("]");
    assert NoSep(key);
    NoSepBoth(k, ". Retrieve more");
    NoSepBoth(" matches compressed to ", k + ". Retrieve more");
    NoSepBoth(n, " matches compressed to " + (k + ". Retrieve more"));
    NoSepBoth("[", n + (" matches compressed to " + (k + ". Retrieve more")));
    NoSepBoth(key, "]");
    NoSepBoth(" hash=", key + "]");
    LoneColon(a, b);
    var inner := a[1..] + (":" + (" hash=" + key));
    BracketedStays(inner);
    assert a + (":" + b) == "[" + inner + "]" by { assert a == "[" + a[1..]; }
    NoTripletNoParse(a + (":" + b));
  }

  lemma {:induction false} RetrievalPieces(n: string, k: string, key: string)
    ensures "[" + (n + (" matches compressed to " + (k + (". Retrieve more: hash=" + (key + "]")))))
         == ("[" + (n + (" matches compressed to " + (k + ". Retrieve more")))) + (":" + (" hash=" + (key + "]")))
  {
    assert ". Retrieve more: hash=" == ". Retrieve more" + (":" + " hash=");
  }

  // ---- a printed match always does ----

  /** A match as it comes out of a line of text. */
  ghost predicate Printable(m: Match) {
    && CleanPath(m.file) && m.line < TWO_TO_64 && Trimmed(Print(m))
    && '\n' !in m.file && '\n' !in m.content
  }

  lemma {:induction false} PartsHaveNone(s: string, c: char)
    ensures forall k :: 0 <= k < |SplitOn(s, c)| ==> c !in SplitOn(s, c)[k]
  {
    if s != [] {
      PartsHaveNone(s[1..], c);
    }
  }

  lemma {:induction false} LeftKeeps(s: string, c: char)
    requires c !in s
    ensures c !in TrimLeft(s)
  {
    if s != [] && IsWhite(s[0]) {
      LeftKeeps(s[1..], c);
    }
  }

  lemma {:induction false} RightKeeps(s: string, c: char)
    requires c !in s
    ensures c !in TrimRight(s)
  {
    if s != [] && IsWhite(s[|s| - 1]) {
      RightKeeps(s[..|s| - 1], c);
    }
  }

  lemma {:induction false} LineIsPrintable(raw: string, m: Match)
    requires '\n' !in raw && m in ParseLine(raw)
    ensures Printable(m)
  {
    var line := TrimSpace(raw);
    LeftKeeps(raw, '\n');
    RightKeeps(TrimLeft(raw), '\n');
    TrimsToTrimmed(raw);
    ParsedPathIsClean(line);
    PrintStaysTrimmed(line);
  }

  lemma {:induction false} LinesArePrintable(ls: seq<string>, m: Match)
    requires (forall k :: 0 <= k < |ls| ==> '\n' !in ls[k]) && m in ParseLines(ls)
    ensures Printable(m)
  {
    if m in ParseLine(ls[|ls| - 1]) {
      LineIsPrintable(ls[|ls| - 1], m);
    } else {
      LinesArePrintable(ls[..|ls| - 1], m);
    }
  }

  lemma {:induction false} ParsedArePrintable(content: string, m: Match)
    requires m in Parsed(content)
    ensures Printable(m)
  {
    PartsHaveNone(content, '\n');
    LinesArePrintable(SplitOn(content, '\n'), m);
  }

  lemma {:induction false} PrintedReparses(m: Match)
    requires Printable(m)
    ensures ParseLine(Print(m)) == [m] && '\n' !in Print(m)
  {
    PrintParsesIff(m);
    assert '\n' !in Itoa(m.line) by {
      assert forall d :: d in Itoa(m.line) ==> IsDigit(d);
    }
  }

  // ---- the whole output ----

  lemma {:induction false} ParseLinesBoth(a: seq<string>, b: seq<string>)
    ensures ParseLines(a + b) == ParseLines(a) + ParseLines(b)
  {
    if b == [] {
      assert a + b == a;
    } else {
      var init := b[..|b| - 1];
      assert (a + b)[..|a + b| - 1] == a + init;
      ParseLinesBoth(a, init);
    }
  }

  ghost predicate NoNewline(ls: seq<string>) { forall k :: 0 <= k < |ls| ==> '\n' !in ls[k] }

  lemma {:induction false} AddedLine(ls: seq<string>, line: string)
    ensures ParseLines(ls + [line]) == ParseLines(ls) + ParseLine(line)
  {
    assert (ls + [line])[..|ls|] == ls;
  }

  lemma {:induction false} PrintsSnoc(ms: seq<Match>)
    requires ms != []
    ensures Prints(ms) == Prints(ms[..|ms| - 1]) + [Print(ms[|ms| - 1])]
  {
  }

  lemma {:induction false} LastSplits(ms: seq<Match>)
    requires ms != []
    ensures ms == ms[..|ms| - 1] + [ms[|ms| - 1]]
  {
  }

  lemma {:induction false} PrintsReparse(ms: seq<Match>)
    requires forall k :: 0 <= k < |ms| ==> Printable(ms[k])
    ensures ParseLines(Prints(ms)) == ms
  {
    if ms != [] {
      var init, m := ms[..|ms| - 1], ms[|ms| - 1];
      PrintsReparse(init);
      PrintedReparses(m);
      PrintsSnoc(ms);
      AddedLine(Prints(init), Print(m));
      LastSplits(ms);
    }
  }

  lemma {:induction false} PrintsHaveNoNewline(ms: seq<Match>)
    requires forall k :: 0 <= k < |ms| ==> Printable(ms[k])
    ensures NoNewline(Prints(ms))
  {
    forall k | 0 <= k < |ms| ensures '\n' !in Prints(ms)[k] {
      PrintedReparses(ms[k]);
    }
  }

  ghost predicate PrintableGroup(fm: FileMatches) {
    CleanPath(fm.file) && '\n' !in fm.file && forall m :: m in fm.matches ==> Printable(m) && m.file == fm.file
  }

  lemma {:induction false} FooterHasNoNewline(omitted: nat, f: string)
    requires '\n' !in f
    ensures '\n' !in Footer(omitted, f)
  {
    assert forall d :: d in Itoa(omitted) ==> IsDigit(d);
  }

  lemma {:induction false} GroupReparses(fm: FileMatches, counts: map<string, nat>)
    requires PrintableGroup(fm)
    ensures ParseLines(GroupLines(fm, counts)) == fm.matches && NoNewline(GroupLines(fm, counts))
  {
    PrintsReparse(fm.matches);
    PrintsHaveNoNewline(fm.matches);
    if fm.file in counts && counts[fm.file] > |fm.matches| {
      var footer := Footer(counts[fm.file] - |fm.matches|, fm.file);
      FooterNeverParses(counts[fm.file] - |fm.matches|, fm.file);
      FooterHasNoNewline(counts[fm.file] - |fm.matches|, fm.file);
      ParseLinesBoth(Prints(fm.matches), [footer]);
      assert [footer][..0] == [];
    } else {
      assert Prints(fm.matches) + [] == Prints(fm.matches);
    }
  }

  ghost function Flatten(selected: seq<FileMatches>): seq<Match> {
    if selected == [] then [] else Flatten(selected[..|selected| - 1]) + selected[|selected| - 1].matches
  }

  lemma {:induction false} LinesReparse(selected: seq<FileMatches>, counts: map<string, nat>)
    requires forall i :: 0 <= i < |selected| ==> PrintableGroup(selected[i])
    ensures ParseLines(OutputLines(selected, counts)) == Flatten(selected) && NoNewline(OutputLines(selected, counts))
  {
    if selected != [] {
      var init, fm := selected[..|selected| - 1], selected[|selected| - 1];
      LinesReparse(init, counts);
      GroupReparses(fm, counts);
      ParseLinesBoth(OutputLines(init, counts), GroupLines(fm, counts));
    }
  }

  lemma {:induction false} JoinedParses(ls: seq<string>)
    requires NoNewline(ls)
    ensures Parsed(JoinOn(ls, '\n')) == ParseLines(ls)
  {
    if ls == [] {
      assert SplitOn("", '\n') == [""] && [""][..0] == [];
    } else {
      SplitJoin(ls, '\n');
    }
  }

  lemma {:induction false} JoinSnocOn(parts: seq<string>, c: char, last: string)
    requires parts != []
    ensures JoinOn(parts + [last], c) == JoinOn(parts, c) + ([c] + last)
  {
    if |parts| > 1 {
      assert (parts + [last])[1..] == parts[1..] + [last];
      JoinSnocOn(parts[1..], c, last);
      FourParts(parts[0], [c], JoinOn(parts[1..], c), [c] + last);
      SeqAssoc(parts[0], [c] + JoinOn(parts[1..], c), [c] + last);
    } else {
      assert (parts + [last])[1..] == [last];
    }
  }

  /** What the selection takes from the content: groups of its matches, one per path. */
  ghost predicate SelectedFrom(selected: seq<FileMatches>, content: string) {
    && (forall i :: 0 <= i < |selected| ==> GroupFrom(selected[i], content))
    && (forall i, j :: 0 <= i < j < |selected| ==> selected[i].file != selected[j].file)
  }

  ghost predicate GroupFrom(fm: FileMatches, content: string) {
    && (exists m :: m in Parsed(content) && m.file == fm.file)
    && (forall m :: m in fm.matches ==> m in Parsed(content) && m.file == fm.file)
  }

  lemma {:induction false} GroupIsPrintable(fm: FileMatches, content: string)
    requires GroupFrom(fm, content)
    ensures PrintableGroup(fm)
  {
    var m :| m in Parsed(content) && m.file == fm.file;
    ParsedArePrintable(content, m);
    forall m | m in fm.matches ensures Printable(m) {
      ParsedArePrintable(content, m);
    }
  }

  /** The output, without the retrieval line. */
  ghost function Body(selected: seq<FileMatches>, original: seq<FileMatches>): string {
    JoinOn(OutputLines(selected, Counts(original)), '\n')
  }

  /** Whatever is selected, the output parses back to exactly the selected matches in the
      order they are printed, its footers and the retrieval line being skipped. */
  lemma {:induction false} OutputReparses(content: string, selected: seq<FileMatches>, original: seq<FileMatches>,
                                          total: nat, kept: nat, key: string)
    requires SelectedFrom(selected, content) && IsHash(key)
    ensures Parsed(Body(selected, original)) == Flatten(selected)
    ensures Parsed(Body(selected, original) + (['\n'] + Retrieval(total, kept, key))) == Flatten(selected)
  {
    var ls, last := OutputLines(selected, Counts(original)), Retrieval(total, kept, key);
    forall i | 0 <= i < |selected| ensures PrintableGroup(selected[i]) {
      GroupIsPrintable(selected[i], content);
    }
    LinesReparse(selected, Counts(original));
    JoinedParses(ls);
    RetrievalNeverParses(total, kept, key);
    RetrievalHasNoNewline(total, kept, key);
    var front := if ls == [] then [""] else ls;
    assert JoinOn([""], '\n') == "";
    JoinSnocOn(front, '\n', last);
    JoinedParses(front + [last]);
    ParseLinesBoth(front, [last]);
    assert [last][..0] == [] && [""][..0] == [];
    assert ParseLines([last]) == [];
  }

  lemma {:induction false} DigitsAndHex(n: nat, key: string)
    requires IsHash(key)
    ensures '\n' !in Itoa(n) && '\n' !in key
  {
    assert forall d :: d in Itoa(n) ==> IsDigit(d);
    assert forall c :: c in key ==> IsHex(c);
  }

  lemma {:induction false} RetrievalHasNoNewline(total: nat, kept: nat, key: string)
    requires IsHash(key)
    ensures '\n' !in Retrieval(total, kept, key)
  {
    DigitsAndHex(total, key);
    DigitsAndHex(kept, key);
    var tail := Itoa(kept) + (". Retrieve more: hash=" + (key + "]"));
    assert '\n' !in tail;
  }

  // ---- grouped by path ----

  /** The selected groups by path; a group without matches leaves no line to find it by. */
  ghost function Groups(selected: seq<FileMatches>): map<string, seq<Match>> {
    if selected == [] then map[]
    else
      var init, fm := Groups(selected[..|selected| - 1]), selected[|selected| - 1];
      if fm.matches == [] then init else init[fm.file := fm.matches]
  }

  /** m with a path's matches, if there are any. */
  ghost function WithGroup(m: map<string, seq<Match>>, file: string, own: seq<Match>): map<string, seq<Match>> {
    if own == [] then m else m[file := own]
  }

  lemma {:induction false} GroupGrows(ms: seq<Match>, init: seq<Match>, m: Match)
    requires m.file !in ByPath(ms) && ByPath(ms + init) == WithGroup(ByPath(ms), m.file, init)
    ensures ByPath((ms + init) + [m]) == WithGroup(ByPath(ms), m.file, init + [m])
  {
    OneMoreMatch(ms + init, m);
    assert [] + [m] == [m];
  }

  lemma {:induction false} GroupAdds(ms: seq<Match>, file: string, own: seq<Match>)
    requires file !in ByPath(ms) && forall k :: 0 <= k < |own| ==> own[k].file == file
    ensures ByPath(ms + own) == WithGroup(ByPath(ms), file, own)
  {
    if own == [] {
      assert ms + own == ms;
    } else {
      var init, m := own[..|own| - 1], own[|own| - 1];
      GroupAdds(ms, file, init);
      GroupGrows(ms, init, m);
      LastSplits(own);
      SeqAssoc(ms, init, [m]);
    }
  }

  ghost predicate OwnFile(fm: FileMatches) { forall k :: 0 <= k < |fm.matches| ==> fm.matches[k].file == fm.file }

  lemma {:induction false} GroupsAre(selected: seq<FileMatches>)
    requires forall i :: 0 <= i < |selected| ==> OwnFile(selected[i])
    requires forall i, j :: 0 <= i < j < |selected| ==> selected[i].file != selected[j].file
    ensures ByPath(Flatten(selected)) == Groups(selected)
    ensures forall f :: f in Groups(selected) ==> exists i :: 0 <= i < |selected| && selected[i].file == f
  {
    if selected != [] {
      var init, fm := selected[..|selected| - 1], selected[|selected| - 1];
      GroupsAre(init);
      GroupAdds(Flatten(init), fm.file, fm.matches);
      forall f | f in Groups(selected) ensures exists i :: 0 <= i < |selected| && selected[i].file == f {
        if f in Groups(init) {
          var i :| 0 <= i < |init| && init[i].file == f;
          assert selected[i].file == f;
        } else {
          assert selected[|selected| - 1].file == f;
        }
      }
    }
  }

  /** Parsing the output finds the selected groups again, path by path. */
  lemma {:induction false} GroupsReparse(content: string, selected: seq<FileMatches>, original: seq<FileMatches>)
    requires SelectedFrom(selected, content)
    ensures ByPath(Parsed(Body(selected, original))) == Groups(selected)
  {
    OutputReparses(content, selected, original, 0, 0, ZERO_HASH);
    GroupsAre(selected);
  }

  const ZERO_HASH := "000000000000000000000000"
}
