/** The quote-aware tokenizer: a segment is cut into tokens and verbatim pieces,
    starting inside a quoted string when the caller says so. A line is a
    sequence of characters, which is what valid UTF-8 decodes to. */
module Tokenizer {
  import opened Common
  import opened JsonDocument

  /** A token goes to the redaction rules; a verbatim piece is written as it is. */
  datatype Piece = Token(text: string) | Verbatim(text: string)

  function Join(ps: seq<Piece>): string {
    if ps == [] then [] else ps[0].text + Join(ps[1..])
  }

  // ---- character classes ----

  predicate IsSeparator(c: char) {
    c in " \t,;[]{}()<>" || c in "\U{3010}\U{3011}\U{300C}\U{300D}\U{300E}\U{300F}\U{3014}\U{3015}\U{3008}\U{3009}\U{300A}\U{300B}\U{3016}\U{3017}\U{FF08}\U{FF09}\U{FF3B}\U{FF3D}\U{FF5B}\U{FF5D}"
  }

  /** A single quote before `j` can end a quoted value. */
  predicate ApostropheCloses(s: string, j: int)
    requires 0 <= j
  {
    j >= |s| || IsSeparator(s[j]) || s[j] in ",.;:)]}"
  }

  /** A single quote before `j` starts a quoted value: a later one closes it. */
  predicate ApostropheOpens(s: string, j: int)
    requires 0 <= j
    decreases |s| - j
  {
    j < |s| &&
    if s[j] == '\\' then ApostropheOpens(s, j + 2)
    else if s[j] == '\'' && ApostropheCloses(s, j + 1) then true
    else ApostropheOpens(s, j + 1)
  }

  method FindClosing(s: string, j: int) returns (r: bool)
    requires 0 <= j
    ensures r == ApostropheOpens(s, j)
  {
    var k := j;
    while k < |s|
      invariant j <= k
      invariant ApostropheOpens(s, j) == ApostropheOpens(s, k)
    {
      if s[k] == '\\' {
        k := k + 2;
        continue;
      }
      if s[k] == '\'' && ApostropheCloses(s, k + 1) {
        return true;
      }
      k := k + 1;
    }
    return false;
  }

  // ---- chains of assignments ----

  predicate IsNameChar(c: char) { IsLetter(c) || IsDigit(c) || c == '_' || c == '.' || c == '-' }

  /** A field name directly followed by '='. */
  ghost predicate StartsAssignment(s: string) {
    && |s| >= 2 && (IsLetter(s[0]) || s[0] == '_')
    && exists k :: 1 <= k < |s| && s[k] == '=' && forall i :: 1 <= i < k ==> IsNameChar(s[i])
  }

  method AssignmentFollows(s: string) returns (r: bool)
    ensures r == StartsAssignment(s)
  {
    if |s| < 2 || (!IsLetter(s[0]) && s[0] != '_') {
      return false;
    }
    for i := 1 to |s|
      invariant forall k :: 1 <= k < i ==> IsNameChar(s[k]) && s[k] != '='
    {
      if s[i] == '=' {
        return true;
      }
      if !IsNameChar(s[i]) {
        return false;
      }
    }
    return false;
  }

  ghost predicate Has(s: string, t: string) { exists i :: HasAt(s, t, i) }

  predicate HasAt(s: string, t: string, i: int) { 0 <= i <= |s| && t <= s[i..] }

  /** A key=value text that is no part of a URL. */
  ghost predicate IsBareAssignment(s: string) { '=' in s && '?' !in s && !Has(s, "://") }

  method BareAssignment(s: string) returns (r: bool)
    ensures r == IsBareAssignment(s)
  {
    var url := false;
    for i := 0 to |s| + 1
      invariant url == exists k :: 0 <= k < i && HasAt(s, "://", k)
    {
      if HasAt(s, "://", i) {
        url := true;
      }
    }
    assert url == Has(s, "://");
    r := '=' in s && '?' !in s && !url;
  }

  /** What may separate two assignments of a chain, and how wide it is. */
  ghost predicate IsChainCut(s: string, start: int, i: int, w: int)
    requires 0 <= start <= i < |s|
  {
    || (w == 2 && "\\n" <= s[i..] && StartsAssignment(s[i + 2..]))
    || (w == 1 && s[i] == '\n' && StartsAssignment(s[i + 1..]))
    || (w == 1 && s[i] == '&' && i > start && StartsAssignment(s[i + 1..]) && IsBareAssignment(s[start..i]))
  }

  method ChainBoundary(s: string, start: int, i: int) returns (w: int)
    requires 0 <= start <= i < |s|
    ensures w == 0 || IsChainCut(s, start, i, w)
    ensures w == 0 ==> forall v :: !IsChainCut(s, start, i, v)
  {
    w := 0;
    if s[i] == '\\' {
      if "\\n" <= s[i..] {
        var follows := AssignmentFollows(s[i + 2..]);
        if follows { return 2; }
      }
    } else if s[i] == '\n' {
      var follows := AssignmentFollows(s[i + 1..]);
      if follows { return 1; }
    } else if s[i] == '&' && i > start {
      var follows := AssignmentFollows(s[i + 1..]);
      if follows {
        var bare := BareAssignment(s[start..i]);
        if bare { return 1; }
      }
    }
  }

  // ---- one position ----

  const MARKER: string := "[HIDDEN"

  /** The marker of an earlier pass at `i` ends before `end`. */
  ghost predicate IsMarkerAt(s: string, i: int, end: int) {
    && 0 <= i < end <= |s|
    && MARKER <= s[i..]
    && s[end - 1] == ']' && forall k :: i <= k < end - 1 ==> s[k] != ']'
  }

  /** The text before the marker ends in the user part of a URL, and '@' follows it. */
  ghost predicate IsUrlPassword(s: string, start: int, i: int, end: int)
    requires 0 <= start <= i <= end <= |s|
  {
    i > start && end < |s| && s[end] == '@' && s[i - 1] == ':' && Has(s[start..i], "://")
  }

  /** What the tokenizer may write verbatim at `i`, up to `to`. */
  ghost predicate IsCut(s: string, start: int, i: int, to: int)
    requires 0 <= start <= i < |s|
  {
    || (to == i + 1 && IsSeparator(s[i]))
    || (IsMarkerAt(s, i, to) && !IsUrlPassword(s, start, i, to))
    || (to == i + 4 && "\\r\\n" <= s[i..])
    || IsChainCut(s, start, i, to - i)
  }

  /** A single-quoted literal that holds a JSON document and ends at `to`. */
  ghost predicate IsJsonLiteral(s: string, i: int, to: int)
    requires 0 <= i < |s|
  {
    && s[i] == '\'' && i + 1 < |s| && (s[i + 1] == '{' || s[i + 1] == '[')
    && IsEnd(s, i + 1, to - 1) && to <= |s| && s[to - 1] == '\''
  }

  /** What is done at an unquoted position: read on, jump over a part of the
      token, open a quote, or end the token and write s[i..to]. */
  datatype Action = Pass | Jump(to: int) | Open | Cut(to: int)

  ghost predicate OpensQuote(s: string, i: int)
    requires 0 <= i < |s|
  {
    s[i] == '"' || (s[i] == '\'' && ApostropheOpens(s, i + 1))
  }

  /** The action of the position; exactly one qualifies. */
  ghost predicate Decides(s: string, start: int, i: int, a: Action)
    requires 0 <= start <= i < |s|
  {
    match a
    case Pass =>
      && !OpensQuote(s, i)
      && (forall to :: !IsJsonLiteral(s, i, to))
      && (forall to :: !IsCut(s, start, i, to))
    case Jump(to) => IsJsonLiteral(s, i, to) || (IsMarkerAt(s, i, to) && IsUrlPassword(s, start, i, to))
    case Open => OpensQuote(s, i) && forall to :: !IsJsonLiteral(s, i, to)
    case Cut(to) =>
      && i < to <= |s| && IsCut(s, start, i, to)
      && (IsMarkerAt(s, i, to) || forall m :: !IsMarkerAt(s, i, m))
  }

  lemma MarkerIsUnique(s: string, i: int, e: int, f: int)
    requires IsMarkerAt(s, i, e) && IsMarkerAt(s, i, f)
    ensures e == f
  {
  }

  lemma EndIsUnique(s: string, i: int, e: int, f: int)
    requires 0 <= i <= |s| && IsEnd(s, i, e) && IsEnd(s, i, f)
    ensures e == f
  {
    assert !(e < f) && !(f < e);
  }

  /** First characters tell the kinds of action apart. */
  lemma CutStarts(s: string, start: int, i: int, to: int)
    requires 0 <= start <= i < |s| && IsCut(s, start, i, to)
    ensures s[i] != '"' && s[i] != '\''
    ensures IsMarkerAt(s, i, to) ==> s[i] == '['
    ensures to == i + 4 && "\\r\\n" <= s[i..] ==> s[i] == '\\' && s[i + 1] == 'r'
    ensures IsChainCut(s, start, i, to - i) ==>
      s[i] == '\n' || s[i] == '&' || (i + 1 < |s| && s[i] == '\\' && s[i + 1] == 'n')
  {
    if IsMarkerAt(s, i, to) { assert s[i..][0] == MARKER[0]; }
    if "\\r\\n" <= s[i..] { assert s[i..][0] == '\\' && s[i..][1] == 'r'; }
    if "\\n" <= s[i..] { assert s[i..][0] == '\\' && s[i..][1] == 'n'; }
  }

  lemma MarkerStarts(s: string, i: int, to: int)
    requires IsMarkerAt(s, i, to)
    ensures s[i] == '['
  {
    assert s[i..][0] == MARKER[0];
  }

  lemma CutIsUnique(s: string, start: int, i: int, t: int, u: int)
    requires 0 <= start <= i < |s| && Decides(s, start, i, Cut(t)) && Decides(s, start, i, Cut(u))
    ensures t == u
  {
    CutStarts(s, start, i, t);
    CutStarts(s, start, i, u);
    if IsMarkerAt(s, i, t) && IsMarkerAt(s, i, u) {
      MarkerIsUnique(s, i, t, u);
    }
  }

  lemma JumpIsUnique(s: string, start: int, i: int, t: int, u: int)
    requires 0 <= start <= i < |s| && Decides(s, start, i, Jump(t)) && Decides(s, start, i, Jump(u))
    ensures t == u
  {
    if s[i] == '\'' {
      JumpIsLiteral(s, start, i, t);
      JumpIsLiteral(s, start, i, u);
      EndIsUnique(s, i + 1, t - 1, u - 1);
    } else {
      MarkerIsUnique(s, i, t, u);
    }
  }

  lemma JumpIsLiteral(s: string, start: int, i: int, to: int)
    requires 0 <= start <= i < |s| && Decides(s, start, i, Jump(to)) && s[i] == '\''
    ensures IsJsonLiteral(s, i, to)
  {
    if IsMarkerAt(s, i, to) {
      MarkerStarts(s, i, to);
    }
  }

  /** A jump is over a literal in apostrophes or over a marker. */
  lemma JumpStarts(s: string, start: int, i: int, to: int)
    requires 0 <= start <= i < |s| && Decides(s, start, i, Jump(to))
    ensures IsJsonLiteral(s, i, to) || (s[i] == '[' && IsMarkerAt(s, i, to) && IsUrlPassword(s, start, i, to))
  {
    if IsMarkerAt(s, i, to) {
      MarkerStarts(s, i, to);
    }
  }

  lemma JumpIsNoCut(s: string, start: int, i: int, t: int, u: int)
    requires 0 <= start <= i < |s| && Decides(s, start, i, Jump(t))
    ensures !Decides(s, start, i, Cut(u))
  {
    JumpStarts(s, start, i, t);
    if Decides(s, start, i, Cut(u)) {
      CutStarts(s, start, i, u);
      MarkerIsUnique(s, i, t, u);
      assert false;
    }
  }

  lemma JumpIsNoPass(s: string, start: int, i: int, t: int)
    requires 0 <= start <= i < |s| && Decides(s, start, i, Jump(t))
    ensures !Decides(s, start, i, Pass) && !Decides(s, start, i, Open)
  {
    JumpStarts(s, start, i, t);
    assert IsSeparator('[') && (s[i] == '[' ==> IsCut(s, start, i, i + 1));
  }

  lemma CutIsNoOpen(s: string, start: int, i: int, t: int)
    requires 0 <= start <= i < |s| && Decides(s, start, i, Cut(t))
    ensures !Decides(s, start, i, Open)
  {
    CutStarts(s, start, i, t);
  }

  lemma DecisionIsUnique(s: string, start: int, i: int, a: Action, b: Action)
    requires 0 <= start <= i < |s| && Decides(s, start, i, a) && Decides(s, start, i, b)
    ensures a == b
  {
    match (a, b)
    case (Cut(t), Cut(u)) => CutIsUnique(s, start, i, t, u);
    case (Jump(t), Jump(u)) => JumpIsUnique(s, start, i, t, u);
    case (Jump(t), Cut(u)) => JumpIsNoCut(s, start, i, t, u);
    case (Cut(u), Jump(t)) => JumpIsNoCut(s, start, i, t, u);
    case (Jump(t), _) => JumpIsNoPass(s, start, i, t);
    case (_, Jump(t)) => JumpIsNoPass(s, start, i, t);
    case (Cut(t), Open) => CutIsNoOpen(s, start, i, t);
    case (Open, Cut(t)) => CutIsNoOpen(s, start, i, t);
    case (_, _) =>
  }

  method FindBracket(s: string, i: int) returns (end: int)
    requires 0 <= i <= |s|
    ensures end == -1 || (i <= end < |s| && s[end] == ']' && forall k :: i <= k < end ==> s[k] != ']')
    ensures end == -1 ==> forall k :: i <= k < |s| ==> s[k] != ']'
  {
    for j := i to |s|
      invariant forall k :: i <= k < j ==> s[k] != ']'
    {
      if s[j] == ']' {
        return j;
      }
    }
    return -1;
  }

  method UrlBefore(s: string) returns (r: bool)
    ensures r == Has(s, "://")
  {
    for i := 0 to |s| + 1
      invariant forall k :: 0 <= k < i ==> !HasAt(s, "://", k)
    {
      if HasAt(s, "://", i) {
        return true;
      }
    }
    assert !Has(s, "://");
    return false;
  }

  /** A quote at `i`: a whole JSON literal, the start of a quoted value, or none. */
  method LookQuote(s: string, start: int, i: int) returns (a: Action)
    requires 0 <= start <= i < |s| && (s[i] == '"' || s[i] == '\'')
    ensures Decides(s, start, i, a)
  {
    forall to | IsCut(s, start, i, to) ensures false { CutStarts(s, start, i, to); }
    if s[i] == '\'' && i + 1 < |s| && (s[i + 1] == '{' || s[i + 1] == '[') {
      var end := DocumentEnd(s, i + 1);
      if end > 0 && end < |s| && s[end] == '\'' {
        return Jump(end + 1);
      }
      forall to | IsJsonLiteral(s, i, to) ensures false { NoLiteral(s, i, i + 1, to, end); }
    }
    if s[i] == '"' {
      return Open;
    }
    var opens := FindClosing(s, i + 1);
    return if opens then Open else Pass;
  }

  /** The literal can only end where the document does. */
  lemma NoLiteral(s: string, i: int, p: int, to: int, end: int)
    requires 0 <= i < |s| && IsJsonLiteral(s, i, to) && p == i + 1
    requires end == -1 || IsEnd(s, p, end)
    requires end == -1 ==> forall j :: p <= j < |s| ==> !Closes(s, p, j)
    ensures end == to - 1
  {
    if end != -1 { EndIsUnique(s, p, end, to - 1); }
  }

  /** A '[' at `i`: a marker, or a plain separator. */
  method LookBracket(s: string, start: int, i: int) returns (a: Action)
    requires 0 <= start <= i < |s| && s[i] == '['
    ensures Decides(s, start, i, a)
  {
    if MARKER <= s[i..] {
      var end := FindBracket(s, i);
      if end != -1 {
        assert IsMarkerAt(s, i, end + 1);
        var url := UrlBefore(s[start..i]);
        if i > start && end + 1 < |s| && s[end + 1] == '@' && s[i - 1] == ':' && url {
          return Jump(end + 1);
        }
        return Cut(end + 1);
      }
    }
    return Cut(i + 1);
  }

  method LookPlain(s: string, start: int, i: int) returns (a: Action)
    requires 0 <= start <= i < |s| && s[i] != '"' && s[i] != '\'' && s[i] != '['
    ensures Decides(s, start, i, a)
  {
    forall m | IsMarkerAt(s, i, m) ensures false { MarkerStarts(s, i, m); }
    forall to | IsCut(s, start, i, to)
      ensures (to == i + 4 && "\\r\\n" <= s[i..]) || (to == i + 1 && IsSeparator(s[i])) ||
        (IsChainCut(s, start, i, to - i) && (s[i] == '&' || s[i] == '\\' || s[i] == '\n'))
    {
      CutStarts(s, start, i, to);
    }
    if s[i] == '\\' && "\\r\\n" <= s[i..] {
      return Cut(i + 4);
    }
    if s[i] == '&' || s[i] == '\\' || s[i] == '\n' {
      var w := ChainBoundary(s, start, i);
      if w > 0 {
        return Cut(i + w);
      }
    }
    if IsSeparator(s[i]) {
      return Cut(i + 1);
    }
    return Pass;
  }

  /** The decision at an unquoted position. */
  method Look(s: string, start: int, i: int) returns (a: Action)
    requires 0 <= start <= i < |s|
    ensures Decides(s, start, i, a)
  {
    if s[i] == '"' || s[i] == '\'' {
      a := LookQuote(s, start, i);
    } else if s[i] == '[' {
      a := LookBracket(s, start, i);
    } else {
      a := LookPlain(s, start, i);
    }
  }

  // ---- the segment ----

  /** One quoted character: an escape takes the next one with it. */
  function QuotedNext(s: string, i: int): (to: int)
    requires 0 <= i < |s|
    ensures i < to <= |s|
  {
    if s[i] == '\\' && i + 1 < |s| then i + 2 else i + 1
  }

  predicate QuoteEnds(s: string, i: int, quote: char)
    requires 0 <= i < |s|
  {
    s[i] != '\\' && s[i] == quote && (quote != '\'' || ApostropheCloses(s, i + 1))
  }

  /** The quote state at a position. */
  datatype Quote = Out | In(c: char)

  /** The token read from `start` to `i`, if it is not empty. */
  function TokenOf(s: string, start: int, i: int): seq<Piece>
    requires 0 <= start <= i <= |s|
  {
    if start < i then [Token(s[start..i])] else []
  }

  /** Where an action that does not cut leaves the position and the quote. */
  function Beyond(s: string, i: int, a: Action): int { if a.Jump? then a.to else i + 1 }

  function QuoteAfter(s: string, i: int, a: Action): Quote
    requires 0 <= i < |s|
  {
    if a.Open? then In(s[i]) else Out
  }

  /** The reference reading of a segment: `ps` is what is written from the token
      that began at `start` on, and `end` the quote state it leaves. */
  ghost predicate Tokenizes(s: string, start: int, i: int, q: Quote, ps: seq<Piece>, end: Quote)
    requires 0 <= start <= i <= |s|
    decreases |s| - i
  {
    if i == |s| then ps == TokenOf(s, start, i) && end == q
    else if q.In? then Tokenizes(s, start, QuotedNext(s, i), if QuoteEnds(s, i, q.c) then Out else q, ps, end)
    else exists a :: Decides(s, start, i, a) && Acts(s, start, i, a, ps, end)
  }

  ghost predicate Acts(s: string, start: int, i: int, a: Action, ps: seq<Piece>, end: Quote)
    requires 0 <= start <= i < |s|
    decreases |s| - i, 0
  {
    if a.Cut? then
      && i < a.to <= |s|
      && var done := TokenOf(s, start, i) + [Verbatim(s[i..a.to])];
         done <= ps && Tokenizes(s, a.to, a.to, Out, ps[|done|..], end)
    else
      && i < Beyond(s, i, a) <= |s|
      && Tokenizes(s, start, Beyond(s, i, a), QuoteAfter(s, i, a), ps, end)
  }

  /** A decided action moves forward and stays in the segment. */
  lemma DecisionAdvances(s: string, start: int, i: int, a: Action)
    requires 0 <= start <= i < |s| && Decides(s, start, i, a)
    ensures i < (if a.Cut? then a.to else Beyond(s, i, a)) <= |s|
  {
  }

  /** What is written after `out` completes the reading from the start. */
  ghost predicate Completes(s: string, q0: Quote, out: seq<Piece>, start: int, i: int, q: Quote)
    requires 0 <= start <= i <= |s|
  {
    forall rest: seq<Piece>, end: Quote :: Tokenizes(s, start, i, q, rest, end) ==> Tokenizes(s, 0, 0, q0, out + rest, end)
  }

  lemma CompletesMove(s: string, q0: Quote, out: seq<Piece>, start: int, i: int, a: Action)
    requires 0 <= start <= i < |s| && Completes(s, q0, out, start, i, Out) && Decides(s, start, i, a) && !a.Cut?
    ensures i < Beyond(s, i, a) <= |s| && Completes(s, q0, out, start, Beyond(s, i, a), QuoteAfter(s, i, a))
  {
    DecisionAdvances(s, start, i, a);
    forall rest: seq<Piece>, end: Quote | Tokenizes(s, start, Beyond(s, i, a), QuoteAfter(s, i, a), rest, end)
      ensures Tokenizes(s, 0, 0, q0, out + rest, end)
    {
      assert Acts(s, start, i, a, rest, end);
    }
  }

  lemma CompletesCut(s: string, q0: Quote, out: seq<Piece>, start: int, i: int, to: int)
    requires 0 <= start <= i < |s| && Completes(s, q0, out, start, i, Out) && Decides(s, start, i, Cut(to))
    ensures to <= |s| && Completes(s, q0, out + TokenOf(s, start, i) + [Verbatim(s[i..to])], to, to, Out)
  {
    var done := TokenOf(s, start, i) + [Verbatim(s[i..to])];
    forall rest: seq<Piece>, end: Quote | Tokenizes(s, to, to, Out, rest, end)
      ensures Tokenizes(s, 0, 0, q0, out + TokenOf(s, start, i) + [Verbatim(s[i..to])] + rest, end)
    {
      assert (done + rest)[|done|..] == rest;
      assert Acts(s, start, i, Cut(to), done + rest, end);
      assert out + TokenOf(s, start, i) + [Verbatim(s[i..to])] + rest == out + (done + rest);
    }
  }

  lemma CompletesQuoted(s: string, q0: Quote, out: seq<Piece>, start: int, i: int, q: Quote)
    requires 0 <= start <= i < |s| && q.In? && Completes(s, q0, out, start, i, q)
    ensures Completes(s, q0, out, start, QuotedNext(s, i), if QuoteEnds(s, i, q.c) then Out else q)
  {
  }

  /** One turn of the loop. */
  method Advance(s: string, out: seq<Piece>, start: int, i: int, q: Quote, ghost q0: Quote)
    returns (out': seq<Piece>, start': int, i': int, q': Quote)
    requires 0 <= start <= i < |s| && Completes(s, q0, out, start, i, q)
    ensures 0 <= start' <= i' <= |s| && i < i'
    ensures Completes(s, q0, out', start', i', q')
  {
    out', start', i', q' := out, start, i, q;
    if q.In? {
      CompletesQuoted(s, q0, out, start, i, q);
      var ends := QuoteEnds(s, i, q.c);
      i' := QuotedNext(s, i);
      if ends {
        q' := Out;
      }
      return;
    }
    var a := Look(s, start, i);
    if a.Cut? {
      CompletesCut(s, q0, out, start, i, a.to);
      out' := out + TokenOf(s, start, i) + [Verbatim(s[i..a.to])];
      start', i' := a.to, a.to;
      return;
    }
    CompletesMove(s, q0, out, start, i, a);
    match a
    case Pass => i' := i + 1;
    case Jump(to) => i' := to;
    case Open => i', q' := i + 1, In(s[i]);
  }

  /** scanSegmentFrom: the reference reading, whose pieces spell the segment. */
  method ScanSegment(s: string, q: Quote) returns (out: seq<Piece>, q': Quote)
    ensures Tokenizes(s, 0, 0, q, out, q')
    ensures Join(out) == s
    ensures forall k :: 0 <= k < |out| ==> out[k].text != ""
  {
    out, q' := [], q;
    var start, i := 0, 0;
    assert Completes(s, q, out, 0, 0, q) by {
      assert forall rest: seq<Piece> :: [] + rest == rest;
    }
    while i < |s|
      invariant 0 <= start <= i <= |s|
      invariant Completes(s, q, out, start, i, q')
    {
      out, start, i, q' := Advance(s, out, start, i, q', q);
    }
    assert Tokenizes(s, start, i, q', TokenOf(s, start, i), q');
    out := out + TokenOf(s, start, i);
    ReadingSpells(s, 0, 0, q, out, q');
    assert s[0..] == s;
  }

  // ---- what the reading guarantees ----

  /** The pieces spell the text from `start`, and none is empty. */
  lemma {:induction false} ReadingSpells(s: string, start: int, i: int, q: Quote, ps: seq<Piece>, end: Quote)
    requires 0 <= start <= i <= |s| && Tokenizes(s, start, i, q, ps, end)
    ensures Join(ps) == s[start..]
    ensures forall k :: 0 <= k < |ps| ==> ps[k].text != ""
    decreases |s| - i
  {
    if i == |s| {
      assert s[start..i] == s[start..];
      if start < i { assert ps[1..] == []; }
    } else if q.In? {
      ReadingSpells(s, start, QuotedNext(s, i), if QuoteEnds(s, i, q.c) then Out else q, ps, end);
    } else {
      var a :| Decides(s, start, i, a) && Acts(s, start, i, a, ps, end);
      if a.Cut? {
        var done := TokenOf(s, start, i) + [Verbatim(s[i..a.to])];
        ReadingSpells(s, a.to, a.to, Out, ps[|done|..], end);
        SpellsCut(s, start, i, a.to, ps);
      } else {
        ReadingSpells(s, start, Beyond(s, i, a), QuoteAfter(s, i, a), ps, end);
      }
    }
  }

  lemma JoinPrefix(p: Piece, rest: seq<Piece>, ps: seq<Piece>)
    requires ps == [p] + rest && p.text != "" && forall k :: 0 <= k < |rest| ==> rest[k].text != ""
    ensures Join(ps) == p.text + Join(rest)
    ensures forall k :: 0 <= k < |ps| ==> ps[k].text != ""
  {
    assert ps[1..] == rest;
  }

  lemma SlicesMeet(s: string, i: int, j: int)
    requires 0 <= i <= j <= |s|
    ensures s[i..j] + s[j..] == s[i..]
  {
  }

  lemma SpellsCut(s: string, start: int, i: int, to: int, ps: seq<Piece>)
    requires 0 <= start <= i < to <= |s|
    requires var done := TokenOf(s, start, i) + [Verbatim(s[i..to])];
      done <= ps && Join(ps[|done|..]) == s[to..] && forall k :: 0 <= k < |ps[|done|..]| ==> ps[|done|..][k].text != ""
    ensures Join(ps) == s[start..]
    ensures forall k :: 0 <= k < |ps| ==> ps[k].text != ""
  {
    var done := TokenOf(s, start, i) + [Verbatim(s[i..to])];
    var rest := ps[|done|..];
    var cut := [Verbatim(s[i..to])] + rest;
    JoinPrefix(Verbatim(s[i..to]), rest, cut);
    SlicesMeet(s, i, to);
    assert ps == done + rest;
    if start < i {
      assert ps == [Token(s[start..i])] + cut;
      JoinPrefix(Token(s[start..i]), cut, ps);
      SlicesMeet(s, start, i);
    } else {
      assert ps == cut;
    }
  }

  /** A segment has one reading. */
  lemma {:induction false} ReadingIsUnique(s: string, start: int, i: int, q: Quote, ps: seq<Piece>, end: Quote, ps': seq<Piece>, end': Quote)
    requires 0 <= start <= i <= |s| && Tokenizes(s, start, i, q, ps, end) && Tokenizes(s, start, i, q, ps', end')
    ensures ps == ps' && end == end'
    decreases |s| - i
  {
    if i == |s| {
    } else if q.In? {
      ReadingIsUnique(s, start, QuotedNext(s, i), if QuoteEnds(s, i, q.c) then Out else q, ps, end, ps', end');
    } else {
      var a :| Decides(s, start, i, a) && Acts(s, start, i, a, ps, end);
      var b :| Decides(s, start, i, b) && Acts(s, start, i, b, ps', end');
      DecisionIsUnique(s, start, i, a, b);
      if a.Cut? {
        var done := TokenOf(s, start, i) + [Verbatim(s[i..a.to])];
        ReadingIsUnique(s, a.to, a.to, Out, ps[|done|..], end, ps'[|done|..], end');
        assert ps == done + ps[|done|..] && ps' == done + ps'[|done|..];
      } else {
        ReadingIsUnique(s, start, Beyond(s, i, a), QuoteAfter(s, i, a), ps, end, ps', end');
      }
    }
  }

  ghost predicate TokensFit(ps: seq<Piece>, n: int) { forall k :: 0 <= k < |ps| && ps[k].Token? ==> |ps[k].text| <= n }

  lemma {:induction false} TokensAreWithin(s: string, start: int, i: int, q: Quote, ps: seq<Piece>, end: Quote)
    requires 0 <= start <= i <= |s| && Tokenizes(s, start, i, q, ps, end)
    ensures TokensFit(ps, |s| - start)
    decreases |s| - i
  {
    if i == |s| {
    } else if q.In? {
      TokensAreWithin(s, start, QuotedNext(s, i), if QuoteEnds(s, i, q.c) then Out else q, ps, end);
    } else {
      var a :| Decides(s, start, i, a) && Acts(s, start, i, a, ps, end);
      if a.Cut? {
        var done := TokenOf(s, start, i) + [Verbatim(s[i..a.to])];
        var rest := ps[|done|..];
        TokensAreWithin(s, a.to, a.to, Out, rest, end);
        forall k | 0 <= k < |ps| && ps[k].Token? ensures |ps[k].text| <= |s| - start {
          if k >= |done| { assert ps[k] == rest[k - |done|]; } else { assert ps[k] == done[k]; }
        }
      } else {
        TokensAreWithin(s, start, Beyond(s, i, a), QuoteAfter(s, i, a), ps, end);
      }
    }
  }

  /** Outside quotes a leading separator is cut, so every token is shorter than the segment. */
  lemma LeadingSeparatorShortens(s: string, ps: seq<Piece>, end: Quote)
    requires s != "" && IsSeparator(s[0]) && Tokenizes(s, 0, 0, Out, ps, end)
    ensures TokensFit(ps, |s| - 1)
  {
    var a :| Decides(s, 0, 0, a) && Acts(s, 0, 0, a, ps, end);
    assert IsCut(s, 0, 0, 1);
    assert s[0] != '"' && s[0] != '\'';
    assert a.Cut?;
    var done := [Verbatim(s[0..a.to])];
    assert TokenOf(s, 0, 0) + done == done;
    var rest := ps[1..];
    TokensAreWithin(s, a.to, a.to, Out, rest, end);
    assert ps[0] == done[0];
    forall k | 0 <= k < |ps| && ps[k].Token? ensures |ps[k].text| <= |s| - 1 {
      assert ps[k] == rest[k - 1];
    }
  }

  /** A quote that is not closed makes the rest of the segment one token. */
  lemma {:induction false} UnclosedQuote(s: string, start: int, i: int, c: char, ps: seq<Piece>, end: Quote)
    requires 0 <= start <= i <= |s| && Tokenizes(s, start, i, In(c), ps, end) && c !in s[i..]
    ensures ps == TokenOf(s, start, |s|) && end == In(c)
    decreases |s| - i
  {
    if i < |s| {
      assert s[i] == s[i..][0];
      var next := QuotedNext(s, i);
      assert s[next..] == s[i..][next - i..];
      UnclosedQuote(s, start, next, c, ps, end);
    }
  }

  // ---- plain text ----

  /** No quote, escape, bracket or chain character: nothing but words and separators. */
  ghost predicate IsPlain(s: string) { forall i :: 0 <= i < |s| ==> s[i] !in "\"'\\[&\n" }

  /** The simple splitter: words, and the separators between them. */
  function Split(s: string, start: int, i: int): seq<Piece>
    requires 0 <= start <= i <= |s|
    decreases |s| - i
  {
    if i == |s| then TokenOf(s, start, i)
    else if IsSeparator(s[i]) then TokenOf(s, start, i) + [Verbatim(s[i..i + 1])] + Split(s, i + 1, i + 1)
    else Split(s, start, i + 1)
  }

  lemma PlainDecision(s: string, start: int, i: int, a: Action)
    requires 0 <= start <= i < |s| && IsPlain(s) && Decides(s, start, i, a)
    ensures a == if IsSeparator(s[i]) then Cut(i + 1) else Pass
  {
    assert s[i] !in "\"'\\[&\n";
    if a.Cut? { CutStarts(s, start, i, a.to); }
    if a.Jump? && IsMarkerAt(s, i, a.to) { MarkerStarts(s, i, a.to); }
    assert IsSeparator(s[i]) ==> IsCut(s, start, i, i + 1);
  }

  /** On plain text the tokenizer is the simple splitter. */
  lemma {:induction false} PlainIsSplit(s: string, start: int, i: int, ps: seq<Piece>, end: Quote)
    requires 0 <= start <= i <= |s| && IsPlain(s) && Tokenizes(s, start, i, Out, ps, end)
    ensures ps == Split(s, start, i) && end == Out
    decreases |s| - i
  {
    if i < |s| {
      var a :| Decides(s, start, i, a) && Acts(s, start, i, a, ps, end);
      PlainDecision(s, start, i, a);
      if a.Cut? {
        var done := TokenOf(s, start, i) + [Verbatim(s[i..a.to])];
        PlainIsSplit(s, a.to, a.to, ps[|done|..], end);
        assert ps == done + ps[|done|..];
      } else {
        PlainIsSplit(s, start, i + 1, ps, end);
      }
    }
  }
}
