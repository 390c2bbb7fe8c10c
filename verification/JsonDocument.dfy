/** Where the JSON object or array that opens at a position ends. */
module JsonDocument {
  import opened Escapes

  /** The reader's state: bracket depth, inside a string, after a backslash in it. */
  datatype Reader = Reader(depth: int, inString: bool, escaped: bool)

  const FRESH: Reader := Reader(0, false, false)

  function Read(r: Reader, c: char): Reader {
    if r.inString then
      if r.escaped then r.(escaped := false)
      else if c == '\\' then r.(escaped := true)
      else if c == '"' then r.(inString := false)
      else r
    else if c == '"' then r.(inString := true)
    else if c == '{' || c == '[' then r.(depth := r.depth + 1)
    else if c == '}' || c == ']' then r.(depth := r.depth - 1)
    else r
  }

  function ReadAll(s: string, i: int, j: int): Reader
    requires 0 <= i <= j <= |s|
    decreases j
  {
    if i == j then FRESH else Read(ReadAll(s, i, j - 1), s[j - 1])
  }

  /** The bracket at `j` outside every string brings the depth back to zero. */
  predicate Closes(s: string, i: int, j: int)
    requires 0 <= i <= j < |s|
  {
    var r := ReadAll(s, i, j);
    !r.inString && (s[j] == '}' || s[j] == ']') && r.depth == 1
  }

  /** `end` is where the least balanced prefix from `i` ends. */
  ghost predicate IsEnd(s: string, i: int, end: int)
    requires 0 <= i <= |s|
  {
    && i < end <= |s|
    && Closes(s, i, end - 1)
    && forall j :: i <= j < end - 1 ==> !Closes(s, i, j)
  }

  /** jsonDocumentEnd: the end of the least balanced prefix, or -1. */
  method DocumentEnd(s: string, i: int) returns (end: int)
    requires 0 <= i <= |s|
    ensures end == -1 || IsEnd(s, i, end)
    ensures end == -1 ==> forall j :: i <= j < |s| ==> !Closes(s, i, j)
  {
    var depth, inStr := 0, false;
    var j := i;
    while j < |s|
      invariant i <= j
      invariant j <= |s| ==> ReadAll(s, i, j) == Reader(depth, inStr, false)
      invariant forall k :: i <= k < j && k < |s| ==> !Closes(s, i, k)
    {
      var c := s[j];
      if inStr {
        if c == '\\' {
          assert ReadAll(s, i, j + 1) == Reader(depth, true, true);
          assert j + 2 <= |s| ==> ReadAll(s, i, j + 2) == Reader(depth, true, false);
          j := j + 1;
        } else if c == '"' {
          inStr := false;
        }
      } else if c == '"' {
        inStr := true;
      } else if c == '{' || c == '[' {
        depth := depth + 1;
      } else if c == '}' || c == ']' {
        depth := depth - 1;
        if depth == 0 {
          return j + 1;
        }
      }
      j := j + 1;
    }
    return -1;
  }

  // ---- documents built from their parts ----

  /** A piece of JSON: other characters, a string, or a group in brackets. */
  datatype Doc = Other(text: string) | Text(body: string) | Group(open: char, inner: seq<Doc>, close: char)

  predicate IsBracket(c: char) { c in "{}[]" }

  ghost predicate IsDoc(d: Doc) {
    match d
    case Other(text) => forall i :: 0 <= i < |text| ==> text[i] != '"' && !IsBracket(text[i])
    case Text(body) => IsQuotedBody(body)
    case Group(open, inner, close) => (open == '{' || open == '[') && (close == '}' || close == ']') && forall x :: x in inner ==> IsDoc(x)
  }

  function DocText(d: Doc): string {
    match d
    case Other(text) => text
    case Text(body) => "\"" + body + "\""
    case Group(open, inner, close) => [open] + DocTexts(inner) + [close]
  }

  function DocTexts(ds: seq<Doc>): string { if ds == [] then "" else DocText(ds[0]) + DocTexts(ds[1..]) }

  function ReadOn(r: Reader, t: string): Reader {
    if t == "" then r else Read(ReadOn(r, t[..|t| - 1]), t[|t| - 1])
  }

  lemma {:induction false} ReadOnAppend(r: Reader, a: string, b: string)
    ensures ReadOn(r, a + b) == ReadOn(ReadOn(r, a), b)
    decreases |b|
  {
    if b == "" {
      assert a + b == a;
    } else {
      assert (a + b)[..|a + b| - 1] == a + b[..|b| - 1];
      ReadOnAppend(r, a, b[..|b| - 1]);
    }
  }

  lemma {:induction false} ReadAllIsReadOn(s: string, i: int, j: int)
    requires 0 <= i <= j <= |s|
    ensures ReadAll(s, i, j) == ReadOn(FRESH, s[i..j])
    decreases j
  {
    if i < j {
      assert s[i..j][..j - i - 1] == s[i..j - 1];
      ReadAllIsReadOn(s, i, j - 1);
    }
  }

  /** Reading `t` from `r` ends in `r` again, and closes nothing that was open before. */
  ghost predicate StaysOpen(r: Reader, t: string) {
    && ReadOn(r, t) == r
    && forall j :: 0 <= j < |t| ==> !ClosesOuter(ReadOn(r, t[..j]), t[j])
  }

  predicate ClosesOuter(r: Reader, c: char) { !r.inString && (c == '}' || c == ']') && r.depth <= 1 }

  predicate IsOutside(r: Reader) { !r.inString && !r.escaped && r.depth >= 1 }

  lemma {:induction false} StaysOpenAppend(r: Reader, a: string, b: string)
    requires StaysOpen(r, a) && StaysOpen(r, b)
    ensures StaysOpen(r, a + b)
  {
    ReadOnAppend(r, a, b);
    forall j | 0 <= j < |a + b| ensures !ClosesOuter(ReadOn(r, (a + b)[..j]), (a + b)[j]) {
      if j < |a| {
        assert (a + b)[..j] == a[..j];
      } else {
        assert (a + b)[..j] == a + b[..j - |a|];
        ReadOnAppend(r, a, b[..j - |a|]);
      }
    }
  }

  lemma {:induction false} OtherStaysOpen(r: Reader, t: string)
    requires IsOutside(r) && forall i :: 0 <= i < |t| ==> t[i] != '"' && !IsBracket(t[i])
    ensures StaysOpen(r, t)
    decreases |t|
  {
    if t != "" {
      var n := |t| - 1;
      OtherStaysOpen(r, t[..n]);
      assert StaysOpen(r, [t[n]]) by {
        assert [t[n]][..0] == "";
      }
      assert t == t[..n] + [t[n]];
      StaysOpenAppend(r, t[..n], [t[n]]);
    }
  }

  /** Inside a string the reader is behind a backslash exactly if the next character is escaped. */
  lemma {:induction false} StringReads(r: Reader, body: string, j: int)
    requires IsOutside(r) && 0 <= j <= |body| && forall i :: 0 <= i < |body| && body[i] == '"' ==> Escaped(body, 0, i)
    ensures ReadOn(r, "\"" + body[..j]) == Reader(r.depth, true, Escaped(body, 0, j))
    decreases j
  {
    var t := "\"" + body[..j];
    if j == 0 {
      assert t == "\"" && t[..0] == "";
    } else {
      assert t[..|t| - 1] == "\"" + body[..j - 1];
      StringReads(r, body, j - 1);
    }
  }

  lemma {:induction false} TextStaysOpen(r: Reader, body: string)
    requires IsOutside(r) && IsQuotedBody(body)
    ensures StaysOpen(r, "\"" + body + "\"")
  {
    var t := "\"" + body + "\"";
    StringReads(r, body, |body|);
    assert t[..|t| - 1] == "\"" + body[..|body|];
    forall j | 0 <= j < |t| ensures !ClosesOuter(ReadOn(r, t[..j]), t[j]) {
      if j > 0 {
        assert t[..j] == "\"" + body[..j - 1];
        StringReads(r, body, j - 1);
      }
    }
  }

  lemma {:induction false} DocStaysOpen(r: Reader, d: Doc)
    requires IsOutside(r) && IsDoc(d)
    ensures StaysOpen(r, DocText(d))
    decreases d, 1
  {
    match d
    case Other(text) => OtherStaysOpen(r, text);
    case Text(body) => TextStaysOpen(r, body);
    case Group(open, inner, close) =>
      DocsStayOpen(r.(depth := r.depth + 1), d, inner);
      GroupStaysOpen(r, open, DocTexts(inner), close);
  }

  lemma {:induction false} DocsStayOpen(r: Reader, d: Doc, ds: seq<Doc>)
    requires IsOutside(r) && d.Group? && |ds| <= |d.inner| && ds == d.inner[|d.inner| - |ds|..] && forall x :: x in d.inner ==> IsDoc(x)
    ensures StaysOpen(r, DocTexts(ds))
    decreases d, 0, |ds|
  {
    if ds != [] {
      assert ds[0] in d.inner;
      DocStaysOpen(r, ds[0]);
      DocsStayOpen(r, d, ds[1..]);
      StaysOpenAppend(r, DocText(ds[0]), DocTexts(ds[1..]));
    }
  }

  lemma {:induction false} ReadOne(r: Reader, c: char)
    ensures ReadOn(r, [c]) == Read(r, c)
  {
    assert [c][..0] == "";
  }

  lemma {:induction false} GroupReads(r: Reader, open: char, t: string)
    requires !r.inString && (open == '{' || open == '[')
    ensures ReadOn(r, [open] + t) == ReadOn(r.(depth := r.depth + 1), t)
  {
    ReadOnAppend(r, [open], t);
    ReadOne(r, open);
  }

  lemma {:induction false} GroupStaysOpen(r: Reader, open: char, t: string, close: char)
    requires IsOutside(r) && (open == '{' || open == '[') && (close == '}' || close == ']')
    requires StaysOpen(r.(depth := r.depth + 1), t)
    ensures StaysOpen(r, [open] + t + [close])
  {
    var u := [open] + t + [close];
    var up := r.(depth := r.depth + 1);
    GroupReads(r, open, t);
    assert u[..|u| - 1] == [open] + t;
    forall j | 0 <= j < |u| ensures !ClosesOuter(ReadOn(r, u[..j]), u[j]) {
      if 0 < j <= |t| {
        InsideGroup(r, open, t, close, j);
      } else if j > |t| {
        assert u[..j] == [open] + t && ReadOn(r, u[..j]) == up;
      }
    }
  }

  /** Inside the brackets the reader is where it would be without the first, one deeper. */
  lemma {:induction false} InsideGroup(r: Reader, open: char, t: string, close: char, j: int)
    requires !r.inString && (open == '{' || open == '[') && 0 < j <= |t|
    ensures ReadOn(r, ([open] + t + [close])[..j]) == ReadOn(r.(depth := r.depth + 1), t[..j - 1])
    ensures ([open] + t + [close])[j] == t[j - 1]
  {
    assert ([open] + t + [close])[..j] == [open] + t[..j - 1];
    GroupReads(r, open, t[..j - 1]);
  }

  /** From a fresh reader only the last bracket of a group closes it. */
  lemma {:induction false} GroupCloses(open: char, t: string, close: char, u: string)
    requires u == [open] + t + [close] && (open == '{' || open == '[') && StaysOpen(FRESH.(depth := 1), t)
    ensures ReadOn(FRESH, u[..|u| - 1]) == FRESH.(depth := 1)
    ensures forall j :: 0 <= j < |u| - 1 ==> !ClosesOuter(ReadOn(FRESH, u[..j]), u[j])
  {
    GroupReads(FRESH, open, t);
    assert u[..|u| - 1] == [open] + t;
    forall j | 0 <= j < |u| - 1 ensures !ClosesOuter(ReadOn(FRESH, u[..j]), u[j]) {
      if 0 < j { InsideGroup(FRESH, open, t, close, j); }
    }
  }

  lemma {:induction false} ReadInside(s: string, i: int, t: string, j: int)
    requires 0 <= i && i + |t| <= |s| && s[i..i + |t|] == t && 0 <= j < |t|
    ensures ReadAll(s, i, i + j) == ReadOn(FRESH, t[..j])
    ensures s[i + j] == t[j]
  {
    ReadAllIsReadOn(s, i, i + j);
    assert s[i..i + j] == t[..j];
  }

  lemma {:induction false} GroupIsFound(s: string, i: int, t: string)
    requires 0 <= i && i + |t| <= |s| && s[i..i + |t|] == t && t != "" && (t[|t| - 1] == '}' || t[|t| - 1] == ']')
    requires ReadOn(FRESH, t[..|t| - 1]) == FRESH.(depth := 1)
    requires forall j :: 0 <= j < |t| - 1 ==> !ClosesOuter(ReadOn(FRESH, t[..j]), t[j])
    ensures IsEnd(s, i, i + |t|)
  {
    forall j | i <= j < i + |t| - 1 ensures !Closes(s, i, j) {
      ReadInside(s, i, t, j - i);
      assert !ClosesOuter(ReadOn(FRESH, t[..j - i]), t[j - i]);
    }
    ReadInside(s, i, t, |t| - 1);
  }

  /** A document built from brackets, strings and other text ends where its first
      bracket is closed, whatever brackets and quotes its strings hold. */
  lemma {:induction false} DocumentIsFound(s: string, i: int, d: Doc)
    requires d.Group? && IsDoc(d) && 0 <= i && i + |DocText(d)| <= |s| && s[i..i + |DocText(d)|] == DocText(d)
    ensures IsEnd(s, i, i + |DocText(d)|)
  {
    var t := DocText(d);
    DocsStayOpen(FRESH.(depth := 1), d, d.inner);
    GroupCloses(d.open, DocTexts(d.inner), d.close, t);
    GroupIsFound(s, i, t);
  }
}
