/** Lexing one '<...>' construct: parseTagAt of internal/tagprotect/tagprotect.go. */
module TagLex {

  import opened Common
  import opened Text

  // ---- lexing one construct ----

  predicate IsLetter(b: char) { 'a' <= b <= 'z' || 'A' <= b <= 'Z' }
  predicate IsNameStart(b: char) { IsLetter(b) || b == '_' }
  predicate IsNameCont(b: char) { IsLetter(b) || IsDigit(b) || b == '_' || b == '-' || b == '.' || b == ':' }
  predicate IsSpace(b: char) { b == ' ' || b == '\t' || b == '\n' || b == '\r' || b == '\U{0C}' || b == '\U{0B}' }

  datatype Tag =
    | NotTag
    | OpenTag(nameStart: nat, nameEnd: nat, tagEnd: nat, selfClosing: bool)
    | CloseTag(nameStart: nat, nameEnd: nat, tagEnd: nat)

  /** The first position from j on whose character ends the name, or |s|. */
  ghost function NameEnd(s: string, j: nat): (e: nat)
    requires j <= |s|
    ensures j <= e <= |s| && (forall k :: j <= k < e ==> IsNameCont(s[k])) && (e < |s| ==> !IsNameCont(s[e]))
    decreases |s| - j
  {
    if j < |s| && IsNameCont(s[j]) then NameEnd(s, j + 1) else j
  }

  ghost function SpaceEnd(s: string, j: nat): (e: nat)
    requires j <= |s|
    ensures j <= e <= |s| && (forall k :: j <= k < e ==> IsSpace(s[k])) && (e < |s| ==> !IsSpace(s[e]))
    decreases |s| - j
  {
    if j < |s| && IsSpace(s[j]) then SpaceEnd(s, j + 1) else j
  }

  ghost function QuoteEnd(s: string, j: nat, quote: char): (e: nat)
    requires j <= |s|
    ensures j <= e <= |s| && (forall k :: j <= k < e ==> s[k] != quote) && (e < |s| ==> s[e] == quote)
    decreases |s| - j
  {
    if j < |s| && s[j] != quote then QuoteEnd(s, j + 1, quote) else j
  }

  /** The end of the attributes: just past the first '>' outside quotes, and whether
      a '/' stands right before it. */
  ghost function AttrsEnd(s: string, j: nat): (r: Option<(nat, bool)>)
    requires j <= |s|
    ensures r.Some? ==> j < r.value.0 <= |s| && s[r.value.0 - 1] == '>'
    decreases |s| - j
  {
    if j == |s| then None
    else if s[j] == '"' || s[j] == '\'' then
      var e := QuoteEnd(s, j + 1, s[j]);
      if e == |s| then None else AttrsEnd(s, e + 1)
    else if s[j] == '/' && j + 1 < |s| && s[j + 1] == '>' then Some((j + 2, true))
    else if s[j] == '>' then Some((j + 1, false))
    else AttrsEnd(s, j + 1)
  }

  /** The construct opening at start, where s[start] is '<'. */
  ghost function TagAt(s: string, start: nat): (t: Tag)
    requires start < |s|
    ensures !t.NotTag? ==> start < t.nameStart < t.nameEnd < t.tagEnd <= |s| && s[t.tagEnd - 1] == '>'
    ensures !t.NotTag? ==> IsNameStart(s[t.nameStart])
  {
    var close := start + 1 < |s| && s[start + 1] == '/';
    var j := if close then start + 2 else start + 1;
    if j >= |s| || !IsNameStart(s[j]) then NotTag
    else
      var e := NameEnd(s, j);
      if close then
        var k := SpaceEnd(s, e);
        if k < |s| && s[k] == '>' then CloseTag(j, e, k + 1) else NotTag
      else
        var r := AttrsEnd(s, e);
        if r.None? then NotTag else OpenTag(j, e, r.value.0, r.value.1)
  }

  method ParseTagAt(s: string, start: nat) returns (t: Tag)
    requires start < |s|
    ensures t == TagAt(s, start)
  {
    var n := |s|;
    var j := start + 1;
    var isClose := false;
    if j < n && s[j] == '/' {
      isClose := true;
      j := j + 1;
    }
    if j >= n || !IsNameStart(s[j]) {
      return NotTag;
    }
    var nameStart := j;
    while j < n && IsNameCont(s[j])
      invariant nameStart <= j <= n && NameEnd(s, j) == NameEnd(s, nameStart)
      decreases n - j
    {
      j := j + 1;
    }
    var nameEnd := j;
    if isClose {
      while j < n && IsSpace(s[j])
        invariant nameEnd <= j <= n && SpaceEnd(s, j) == SpaceEnd(s, nameEnd)
        decreases n - j
      {
        j := j + 1;
      }
      if j < n && s[j] == '>' {
        return CloseTag(nameStart, nameEnd, j + 1);
      }
      return NotTag;
    }
    t := ParseAttrs(s, nameStart, nameEnd);
  }

  method SkipQuoted(s: string, from: nat, quote: char) returns (j: nat)
    requires from <= |s|
    ensures j == QuoteEnd(s, from, quote)
  {
    j := from;
    while j < |s| && s[j] != quote
      invariant from <= j <= |s| && QuoteEnd(s, j, quote) == QuoteEnd(s, from, quote)
      decreases |s| - j
    {
      j := j + 1;
    }
  }

  /** The attribute lexer, honouring quotes and "/>". */
  method ParseAttrs(s: string, nameStart: nat, nameEnd: nat) returns (t: Tag)
    requires nameEnd <= |s|
    ensures t
         == var r := AttrsEnd(s, nameEnd); if r.None? then NotTag else OpenTag(nameStart, nameEnd, r.value.0, r.value.1)
  {
    var n := |s|;
    var j := nameEnd;
    while j < n
      invariant nameEnd <= j <= n && AttrsEnd(s, j) == AttrsEnd(s, nameEnd)
      decreases n - j
    {
      var b := s[j];
      if b == '"' || b == '\'' {
        j := SkipQuoted(s, j + 1, b);
        if j >= n {
          return NotTag;
        }
        j := j + 1;
      } else if b == '/' {
        if j + 1 < n && s[j + 1] == '>' {
          return OpenTag(nameStart, nameEnd, j + 2, true);
        }
        j := j + 1;
      } else if b == '>' {
        return OpenTag(nameStart, nameEnd, j + 1, false);
      } else {
        j := j + 1;
      }
    }
    return NotTag;
  }

  // ---- what an open tag is, by the quotes up to each position ----

  /** The quote that is open on reaching k, reading from j. */
  ghost function Quoting(s: string, j: nat, k: nat): Option<char>
    requires j <= k <= |s|
  {
    if k == j then None
    else
      var q, c := Quoting(s, j, k - 1), s[k - 1];
      if q.Some? then (if c == q.value then None else q) else if c == '"' || c == '\'' then Some(c) else None
  }

  /** c stands at k, outside the quotes that open from j on. */
  ghost predicate Bare(s: string, j: nat, k: nat, c: char) { j <= k < |s| && s[k] == c && Quoting(s, j, k) == None }

  ghost predicate NoneBare(s: string, j: nat, k: nat) { forall i: nat :: i < k ==> !Bare(s, j, i, '>') }

  lemma {:induction false} InsideQuote(s: string, j: nat, i: nat, e: nat)
    requires j <= i < |s| && Quoting(s, j, i) == None && (s[i] == '"' || s[i] == '\'')
    requires i < e <= |s| && forall k :: i < k < e ==> s[k] != s[i]
    ensures Quoting(s, j, e) == Some(s[i])
  {
    if i + 1 < e {
      InsideQuote(s, j, i, e - 1);
    }
  }

  lemma {:induction false} QuoteIsSkipped(s: string, j: nat, i: nat)
    requires j <= i < |s| && Quoting(s, j, i) == None && (s[i] == '"' || s[i] == '\'') && NoneBare(s, j, i)
    ensures var e := QuoteEnd(s, i + 1, s[i]);
            NoneBare(s, j, e) && (e < |s| ==> NoneBare(s, j, e + 1) && Quoting(s, j, e + 1) == None)
  {
    var e := QuoteEnd(s, i + 1, s[i]);
    forall k: nat | i < k <= e ensures Quoting(s, j, k) == Some(s[i]) {
      InsideQuote(s, j, i, k);
    }
    forall k: nat | k < e ensures !Bare(s, j, k, '>') {
      assert k == i ==> s[k] != '>';
    }
  }

  /** A '/' outside quotes stands right before k. */
  ghost predicate Slashed(s: string, j: nat, k: nat) { k > j && Bare(s, j, k - 1, '/') }

  /** The scan from i on finds the first '>' outside quotes, if there is one. */
  lemma {:induction false} AttrsEndIs(s: string, j: nat, i: nat)
    requires j <= i <= |s| && Quoting(s, j, i) == None && NoneBare(s, j, i)
    requires i < |s| && s[i] == '>' ==> !Slashed(s, j, i)
    ensures var r := AttrsEnd(s, i);
            if r.None? then NoneBare(s, j, |s|)
            else
              var k := r.value.0 - 1;
              Bare(s, j, k, '>') && NoneBare(s, j, k) && (r.value.1 <==> Slashed(s, j, k))
    decreases |s| - i
  {
    if i == |s| {
    } else if s[i] == '"' || s[i] == '\'' {
      var e := QuoteEnd(s, i + 1, s[i]);
      QuoteIsSkipped(s, j, i);
      if e < |s| {
        assert !Slashed(s, j, e + 1);
        AttrsEndIs(s, j, e + 1);
      }
    } else if s[i] == '/' && i + 1 < |s| && s[i + 1] == '>' {
      assert Quoting(s, j, i + 1) == None;
    } else if s[i] != '>' {
      assert Quoting(s, j, i + 1) == None;
      AttrsEndIs(s, j, i + 1);
    }
  }

  /** The longest run of name characters from a to e. */
  ghost predicate NameRun(s: string, a: nat, e: nat) {
    && a < e <= |s| && IsNameStart(s[a]) && (forall k :: a <= k < e ==> IsNameCont(s[k]))
    && (e < |s| ==> !IsNameCont(s[e]))
  }

  lemma {:induction false} NameRunIs(s: string, a: nat, e: nat)
    requires a < |s| && IsNameStart(s[a])
    ensures NameRun(s, a, NameEnd(s, a)) && (NameRun(s, a, e) ==> e == NameEnd(s, a))
  {
  }

  /** An open tag is a '<', a name, and everything up to the first '>' outside quotes;
      it closes itself when a '/' outside quotes stands right before that. */
  lemma {:induction false} OpenTagIff(s: string, start: nat, a: nat, e: nat, end: nat, selfClosing: bool)
    requires start < |s|
    ensures TagAt(s, start) == OpenTag(a, e, end, selfClosing)
       <==> a == start + 1 && NameRun(s, a, e) && end > e && Bare(s, e, end - 1, '>') && NoneBare(s, e, end - 1)
            && (selfClosing <==> Slashed(s, e, end - 1))
  {
    var j := start + 1;
    if j < |s| && IsNameStart(s[j]) {
      NameRunIs(s, j, e);
      AttrsEndIs(s, NameEnd(s, j), NameEnd(s, j));
    }
  }

  /** A name is no tag when no '>' follows it outside quotes: when the text ends first,
      inside a quote or not. */
  lemma {:induction false} UnclosedIff(s: string, start: nat, e: nat)
    requires start < |s| && NameRun(s, start + 1, e)
    ensures TagAt(s, start).NotTag? <==> NoneBare(s, e, |s|)
  {
    NameRunIs(s, start + 1, e);
    AttrsEndIs(s, e, e);
  }

  /** A close tag is "</", a name, spaces and '>'. */
  lemma {:induction false} CloseTagIff(s: string, start: nat, a: nat, e: nat, end: nat)
    requires start < |s|
    ensures TagAt(s, start) == CloseTag(a, e, end)
       <==> a == start + 2 && a < |s| && s[start + 1] == '/' && NameRun(s, a, e) && e < end <= |s|
            && (forall k :: e <= k < end - 1 ==> IsSpace(s[k])) && s[end - 1] == '>'
  {
    if start + 2 < |s| && IsNameStart(s[start + 2]) {
      NameRunIs(s, start + 2, e);
      assert !IsSpace('>');
    }
  }

  // ---- names ----

  function LowerChar(c: char): char { if 'A' <= c <= 'Z' then ((c as int) + 32) as char else c }

  function ToLower(s: string): string { if s == [] then [] else [LowerChar(s[0])] + ToLower(s[1..]) }

  /** Tag names are compared without regard to case. */
  function NameOf(s: string, t: Tag): string
    requires !t.NotTag? && t.nameStart <= t.nameEnd <= |s|
  {
    ToLower(s[t.nameStart..t.nameEnd])
  }
}
