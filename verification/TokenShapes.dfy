/** How texts built from their parts are read: quoted values with escapes, and
    words before a marker, an escaped line break or the next assignment. */
module TokenShapes {
  import opened Common
  import opened Escapes
  import opened JsonDocument
  import opened Tokenizer

  // ---- escapes ----

  /** The quote at `j` can end the value whose text began at `lo`. */
  predicate EndsValue(s: string, lo: int, j: int, c: char) {
    0 <= lo <= j < |s| && s[j] == c && !Escaped(s, lo, j) && (c == '\'' ==> ApostropheCloses(s, j + 1))
  }

  predicate IsQuote(c: char) { c == '"' || c == '\'' }

  /** One quoted character: only an escaped one is passed over unread. */
  lemma {:induction false} QuotedStep(s: string, lo: int, i: int, c: char)
    requires 0 <= lo <= i < |s| && !Escaped(s, lo, i) && IsQuote(c)
    ensures QuotedNext(s, i) < |s| ==> !Escaped(s, lo, QuotedNext(s, i))
    ensures forall j :: i < j < QuotedNext(s, i) ==> !EndsValue(s, lo, j, c)
    ensures QuoteEnds(s, i, c) <==> EndsValue(s, lo, i, c)
  {
    assert Backslashes(s, lo, i + 1) == if s[i] == '\\' then 1 + Backslashes(s, lo, i) else 0;
  }

  /** A quoted value is read up to the first quote that an even number of backslashes precedes. */
  lemma {:induction false} ValueEnds(s: string, start: int, lo: int, i: int, c: char, ps: seq<Piece>, end: Quote, j: int)
    requires 0 <= start <= i && 0 <= lo <= i <= j && IsQuote(c)
    requires EndsValue(s, lo, j, c) && !Escaped(s, lo, i) && forall k :: i <= k < j ==> !EndsValue(s, lo, k, c)
    requires Tokenizes(s, start, i, In(c), ps, end)
    ensures Tokenizes(s, start, j + 1, Out, ps, end)
    decreases j - i
  {
    QuotedStep(s, lo, i, c);
    if i < j { ValueEnds(s, start, lo, QuotedNext(s, i), c, ps, end, j); }
  }

  /** Without such a quote the rest of the segment is one token, and the value stays open. */
  lemma {:induction false} ValueStaysOpen(s: string, start: int, lo: int, i: int, c: char, ps: seq<Piece>, end: Quote)
    requires 0 <= start <= i <= |s| && 0 <= lo <= i && IsQuote(c)
    requires (i < |s| ==> !Escaped(s, lo, i)) && forall k :: i <= k < |s| ==> !EndsValue(s, lo, k, c)
    requires Tokenizes(s, start, i, In(c), ps, end)
    ensures ps == TokenOf(s, start, |s|) && end == In(c)
    decreases |s| - i
  {
    if i < |s| {
      QuotedStep(s, lo, i, c);
      ValueStaysOpen(s, start, lo, QuotedNext(s, i), c, ps, end);
    }
  }

  /** An apostrophe opens a value exactly if one that can end it follows. */
  lemma {:induction false} OpensIffEnds(s: string, lo: int, j: int)
    requires 0 <= lo <= j && (j < |s| ==> !Escaped(s, lo, j))
    ensures ApostropheOpens(s, j) <==> exists k :: j <= k && EndsValue(s, lo, k, '\'')
    decreases |s| - j
  {
    if j < |s| {
      QuotedStep(s, lo, j, '\'');
      var next := if s[j] == '\\' then j + 2 else j + 1;
      OpensIffEnds(s, lo, next);
      if EndsValue(s, lo, j, '\'') {
        assert ApostropheOpens(s, j);
      } else {
        assert ApostropheOpens(s, j) == ApostropheOpens(s, next);
        forall k | j <= k && EndsValue(s, lo, k, '\'') ensures next <= k {
        }
      }
    }
  }

  // ---- quoted values ----

  /** The closing quote of front + body + "\"" is the first that ends the value. */
  lemma {:induction false} BodyEnds(front: string, body: string, back: string)
    requires IsQuotedBody(body)
    ensures var s := front + body + "\"" + back;
      && EndsValue(s, |front|, |front| + |body|, '"')
      && forall k :: |front| <= k < |front| + |body| ==> !EndsValue(s, |front|, k, '"')
  {
    var s := front + body + "\"" + back;
    assert s == front + body + ("\"" + back);
    ShiftBackslashes(front, body, "\"" + back, |body|);
    forall k | |front| <= k < |front| + |body| ensures !EndsValue(s, |front|, k, '"') {
      assert s[k] == body[k - |front|];
      ShiftBackslashes(front, body, "\"" + back, k - |front|);
    }
  }

  /** A segment that begins inside a quoted value: the value is read to its end. */
  lemma {:induction false} OpenBodyIsRead(body: string, back: string, ps: seq<Piece>, end: Quote)
    requires IsQuotedBody(body) && Tokenizes(body + "\"" + back, 0, 0, In('"'), ps, end)
    ensures Tokenizes(body + "\"" + back, 0, |body| + 1, Out, ps, end)
  {
    var s := body + "\"" + back;
    assert s == "" + body + "\"" + back;
    BodyEnds("", body, back);
    ValueEnds(s, 0, 0, 0, '"', ps, end, |body|);
  }

  /** The one action that a position decides on is taken. */
  lemma {:induction false} DecisionActs(s: string, start: int, i: int, a: Action, ps: seq<Piece>, end: Quote)
    requires 0 <= start <= i < |s| && Tokenizes(s, start, i, Out, ps, end) && Decides(s, start, i, a)
    ensures Acts(s, start, i, a, ps, end)
  {
    var b :| Decides(s, start, i, b) && Acts(s, start, i, b, ps, end);
    DecisionIsUnique(s, start, i, a, b);
  }

  lemma {:induction false} DoubleQuoteOpens(s: string, start: int, i: int, ps: seq<Piece>, end: Quote)
    requires 0 <= start <= i < |s| && s[i] == '"' && Tokenizes(s, start, i, Out, ps, end)
    ensures Tokenizes(s, start, i + 1, In('"'), ps, end)
  {
    DecisionActs(s, start, i, Open, ps, end);
  }

  /** A quoted value at the start of a segment is read to its end. */
  lemma {:induction false} QuotedBodyIsRead(body: string, back: string, ps: seq<Piece>, end: Quote)
    requires IsQuotedBody(body) && Tokenizes("\"" + body + "\"" + back, 0, 0, Out, ps, end)
    ensures Tokenizes("\"" + body + "\"" + back, 0, |body| + 2, Out, ps, end)
  {
    var s := "\"" + body + "\"" + back;
    DoubleQuoteOpens(s, 0, 0, ps, end);
    BodyEnds("\"", body, back);
    ValueEnds(s, 0, 1, 1, '"', ps, end, |body| + 1);
  }

  /** A quoted value, with whatever escapes in it, is one token; so is the rest of one
      that an earlier segment began. The quote is closed behind both. */
  lemma {:induction false} QuotedValueIsOneToken(body: string, ps: seq<Piece>, end: Quote)
    requires IsQuotedBody(body)
    ensures Tokenizes("\"" + body + "\"", 0, 0, Out, ps, end) ==> ps == [Token("\"" + body + "\"")] && end == Out
    ensures Tokenizes(body + "\"", 0, 0, In('"'), ps, end) ==> ps == [Token(body + "\"")] && end == Out
  {
    var s, t := "\"" + body + "\"", body + "\"";
    assert s == s + "" && t == t + "" && s[0..|s|] == s && t[0..|t|] == t;
    if Tokenizes(s, 0, 0, Out, ps, end) { QuotedBodyIsRead(body, "", ps, end); }
    if Tokenizes(t, 0, 0, In('"'), ps, end) { OpenBodyIsRead(body, "", ps, end); }
  }

  // ---- words and what ends them ----

  /** Nothing of a word is special outside quotes. */
  ghost predicate IsWord(w: string) { forall i :: 0 <= i < |w| ==> w[i] !in "\"'\\&\n" && !IsSeparator(w[i]) }

  /** Letters, digits and most punctuation make words. */
  lemma {:induction false} PlainCharsAreWords(w: string)
    requires forall i :: 0 <= i < |w| ==> IsAsciiLetter(w[i]) || '0' <= w[i] <= '9' || w[i] in "_-.:/=@+#%?$!*~|^`"
    ensures IsWord(w)
  {
  }

  lemma {:induction false} WordIsRead(s: string, start: int, i: int, j: int, ps: seq<Piece>, end: Quote)
    requires 0 <= start <= i <= j <= |s| && IsWord(s[i..j]) && Tokenizes(s, start, i, Out, ps, end)
    ensures Tokenizes(s, start, j, Out, ps, end)
    decreases j - i
  {
    if i < j {
      assert s[i] == s[i..j][0];
      var a :| Decides(s, start, i, a) && Acts(s, start, i, a, ps, end);
      if a.Cut? { CutStarts(s, start, i, a.to); }
      if a.Jump? { JumpStarts(s, start, i, a.to); }
      assert s[i] != '[' by { assert IsSeparator('['); }
      assert a.Pass?;
      assert s[i + 1..j] == s[i..j][1..];
      WordIsRead(s, start, i + 1, j, ps, end);
    }
  }

  /** `s` begins with a word and what cuts it off. */
  ghost predicate Begins(s: string, word: string, cut: string) {
    IsWord(word) && cut != "" && |word| + |cut| <= |s| && s[..|word|] == word && s[|word|..|word| + |cut|] == cut
  }

  lemma {:induction false} BeginsWith(word: string, cut: string, rest: string, s: string)
    requires IsWord(word) && cut != "" && s == word + cut + rest
    ensures Begins(s, word, cut) && s[|word|..] == cut + rest && s[|word| + |cut|..] == rest && s[|word|] == cut[0]
  {
  }

  /** `ps` is the word as a token, `cut` verbatim, and the reading of the rest. */
  ghost predicate WordThenCut(s: string, word: string, cut: string, ps: seq<Piece>, end: Quote)
    requires |word| + |cut| <= |s|
  {
    var done := (if word == "" then [] else [Token(word)]) + [Verbatim(cut)];
    done <= ps && Tokenizes(s, |word| + |cut|, |word| + |cut|, Out, ps[|done|..], end)
  }

  lemma {:induction false} CutBehindWord(s: string, word: string, cut: string, ps: seq<Piece>, end: Quote)
    requires Begins(s, word, cut) && Tokenizes(s, 0, 0, Out, ps, end) && Decides(s, 0, |word|, Cut(|word| + |cut|))
    ensures WordThenCut(s, word, cut, ps, end)
  {
    var i, to := |word|, |word| + |cut|;
    assert s[0..i] == word;
    WordIsRead(s, 0, 0, i, ps, end);
    DecisionActs(s, 0, i, Cut(to), ps, end);
    assert TokenOf(s, 0, i) == if word == "" then [] else [Token(word)];
  }

  /** A separator ends the word before it and is written as it is. */
  lemma {:induction false} SeparatorIsCut(word: string, c: char, rest: string, s: string, ps: seq<Piece>, end: Quote)
    requires IsWord(word) && c in " \t,;]{}()<>" && s == word + [c] + rest && Tokenizes(s, 0, 0, Out, ps, end)
    ensures WordThenCut(s, word, [c], ps, end)
  {
    BeginsWith(word, [c], rest, s);
    NoMarker(s, |word|);
    CutBehindWord(s, word, [c], ps, end);
  }

  function MarkerText(x: string): string { "[HIDDEN" + x + "]" }

  lemma {:induction false} MarkerIsAt(s: string, i: int, x: string)
    requires 0 <= i && i + |MarkerText(x)| <= |s| && s[i..i + |MarkerText(x)|] == MarkerText(x) && ']' !in x
    ensures IsMarkerAt(s, i, i + |MarkerText(x)|)
  {
    var m := MarkerText(x);
    forall k | i <= k < i + |m| - 1 ensures s[k] != ']' {
      assert s[k] == m[k - i];
      if k - i >= 7 { assert m[k - i] == x[k - i - 7]; }
    }
    assert s[i + |m| - 1] == m[|m| - 1];
    assert s[i..][..7] == m[..7] == MARKER;
  }

  /** The word ends a URL's user part and the marker behind it is followed by '@'. */
  ghost predicate InPasswordSlot(word: string, rest: string) {
    Has(word, "://") && word[|word| - 1] == ':' && "@" <= rest
  }

  /** A marker of an earlier pass is written as it is, and ends the word before it. */
  lemma {:induction false} MarkerIsKept(word: string, x: string, rest: string, s: string, ps: seq<Piece>, end: Quote)
    requires IsWord(word) && ']' !in x && !InPasswordSlot(word, rest) && s == word + MarkerText(x) + rest
    requires Tokenizes(s, 0, 0, Out, ps, end)
    ensures WordThenCut(s, word, MarkerText(x), ps, end)
  {
    var i, to := |word|, |word| + |MarkerText(x)|;
    BeginsWith(word, MarkerText(x), rest, s);
    MarkerIsAt(s, i, x);
    assert s[0..i] == word;
    if to < |s| { assert s[to] == rest[0]; }
    CutBehindWord(s, word, MarkerText(x), ps, end);
  }

  /** In the password slot of a URL a marker does not end the token. */
  lemma {:induction false} PasswordMarkerIsPassed(word: string, x: string, rest: string, s: string, ps: seq<Piece>, end: Quote)
    requires IsWord(word) && ']' !in x && InPasswordSlot(word, rest) && s == word + MarkerText(x) + rest
    requires Tokenizes(s, 0, 0, Out, ps, end)
    ensures Tokenizes(s, 0, |word + MarkerText(x)|, Out, ps, end)
  {
    var i, to := |word|, |word| + |MarkerText(x)|;
    BeginsWith(word, MarkerText(x), rest, s);
    MarkerIsAt(s, i, x);
    assert s[0..i] == word && s[to] == rest[0];
    WordIsRead(s, 0, 0, i, ps, end);
    DecisionActs(s, 0, i, Jump(to), ps, end);
  }

  /** Only '[' begins a marker. */
  lemma {:induction false} NoMarker(s: string, i: int)
    requires 0 <= i < |s| && s[i] != '['
    ensures forall m :: !IsMarkerAt(s, i, m)
  {
    forall m ensures !IsMarkerAt(s, i, m) {
      if IsMarkerAt(s, i, m) { MarkerStarts(s, i, m); }
    }
  }

  /** An escaped line break ends the word before it and is written as it is. */
  lemma {:induction false} LineBreakIsCut(word: string, rest: string, s: string, ps: seq<Piece>, end: Quote)
    requires IsWord(word) && s == word + "\\r\\n" + rest && Tokenizes(s, 0, 0, Out, ps, end)
    ensures WordThenCut(s, word, "\\r\\n", ps, end)
  {
    BeginsWith(word, "\\r\\n", rest, s);
    NoMarker(s, |word|);
    CutBehindWord(s, word, "\\r\\n", ps, end);
  }

  predicate IsAsciiLetter(c: char) { 'a' <= c <= 'z' || 'A' <= c <= 'Z' }

  /** A field name and '=' in front: a letter or '_', then letters, digits, '_', '.' and '-'. */
  ghost predicate HasName(s: string, k: int) {
    && 0 < k < |s| && s[k] == '=' && (IsAsciiLetter(s[0]) || s[0] == '_')
    && forall i :: 1 <= i < k ==> IsAsciiLetter(s[i]) || '0' <= s[i] <= '9' || s[i] in "_.-"
  }

  lemma {:induction false} NameStarts(s: string)
    ensures StartsAssignment(s) <==> exists k :: HasName(s, k)
  {
    if StartsAssignment(s) {
      var k :| 1 <= k < |s| && s[k] == '=' && forall i :: 1 <= i < k ==> IsNameChar(s[i]);
      assert HasName(s, k);
    }
  }

  /** What ends an assignment when another follows: a line break, written or escaped, and
      '&' behind an assignment that is no part of a URL. */
  ghost predicate IsLink(word: string, link: string) {
    || link == "\n" || link == "\\n"
    || (link == "&" && '=' in word && '?' !in word && !Has(word, "://"))
  }

  /** A chain of assignments is cut before each name. */
  lemma {:induction false} ChainIsCut(word: string, link: string, next: string, k: int, s: string, ps: seq<Piece>, end: Quote)
    requires IsWord(word) && IsLink(word, link) && HasName(next, k) && s == word + link + next
    requires Tokenizes(s, 0, 0, Out, ps, end)
    ensures WordThenCut(s, word, link, ps, end)
  {
    BeginsWith(word, link, next, s);
    NameStarts(next);
    assert s[0..|word|] == word;
    assert IsChainCut(s, 0, |word|, |link|);
    NoMarker(s, |word|);
    CutBehindWord(s, word, link, ps, end);
  }

  lemma {:induction false} AmpersandStays(s: string, i: int, to: int)
    requires 0 <= i < |s| && s[i] == '&' && !(IsBareAssignment(s[0..i]) && StartsAssignment(s[i + 1..]))
    ensures !IsCut(s, 0, i, to)
  {
    if IsCut(s, 0, i, to) { CutStarts(s, 0, i, to); }
  }

  /** In a URL '&' ends nothing. */
  lemma {:induction false} UrlIsNotCut(word: string, rest: string, s: string, ps: seq<Piece>, end: Quote)
    requires IsWord(word) && ('?' in word || Has(word, "://")) && s == word + "&" + rest && Tokenizes(s, 0, 0, Out, ps, end)
    ensures Tokenizes(s, 0, |word| + 1, Out, ps, end)
  {
    var i := |word|;
    BeginsWith(word, "&", rest, s);
    assert s[0..i] == word;
    WordIsRead(s, 0, 0, i, ps, end);
    forall to ensures !IsCut(s, 0, i, to) { AmpersandStays(s, i, to); }
    DecisionActs(s, 0, i, Pass, ps, end);
  }

  /** Where no field name follows, '&' ends nothing either. */
  lemma {:induction false} LooseAmpersandStays(word: string, rest: string, s: string, ps: seq<Piece>, end: Quote)
    requires IsWord(word) && s == word + "&" + rest && Tokenizes(s, 0, 0, Out, ps, end)
    requires forall k :: !HasName(rest, k)
    ensures Tokenizes(s, 0, |word| + 1, Out, ps, end)
  {
    var i := |word|;
    BeginsWith(word, "&", rest, s);
    assert s[0..i] == word && s[i + 1..] == rest;
    NameStarts(rest);
    WordIsRead(s, 0, 0, i, ps, end);
    forall to ensures !IsCut(s, 0, i, to) { AmpersandStays(s, i, to); }
    DecisionActs(s, 0, i, Pass, ps, end);
  }

  // ---- apostrophes ----

  /** No apostrophe can end a value that begins at `lo`. */
  ghost predicate NoneEnds(s: string, lo: int) { forall k :: !EndsValue(s, lo, k, '\'') }

  /** An apostrophe that none can match does not open a value. */
  lemma {:induction false} ApostropheIsPassed(s: string, start: int, i: int, ps: seq<Piece>, end: Quote)
    requires 0 <= start <= i < |s| && s[i] == '\'' && Tokenizes(s, start, i, Out, ps, end)
    requires i + 1 < |s| ==> s[i + 1] != '{' && s[i + 1] != '['
    requires NoneEnds(s, i + 1)
    ensures Tokenizes(s, start, i + 1, Out, ps, end)
  {
    OpensIffEnds(s, i + 1, i + 1);
    forall to ensures !IsCut(s, start, i, to) {
      if IsCut(s, start, i, to) { CutStarts(s, start, i, to); }
    }
    DecisionActs(s, start, i, Pass, ps, end);
  }

  /** Apostrophes inside a word, as in rock'n'roll, quote nothing: the word is one token. */
  lemma {:induction false} ApostrophesInWord(u: string, v: string, w: string, s: string, ps: seq<Piece>, end: Quote)
    requires IsWord(u) && IsWord(v) && IsWord(w) && s == u + "'" + v + "'" + w
    requires w != "" && (IsLetter(w[0]) || IsDigit(w[0])) && Tokenizes(s, 0, 0, Out, ps, end)
    ensures ps == [Token(s)] && end == Out
  {
    var i, j := |u|, |u| + 1 + |v|;
    WordSlices(u, v, w, s);
    assert ApostropheStays(s, j);
    WordIsRead(s, 0, 0, i, ps, end);
    NoValueEnds(s, i, j);
    ApostropheIsPassed(s, 0, i, ps, end);
    WordIsRead(s, 0, i + 1, j, ps, end);
    ApostropheIsPassed(s, 0, j, ps, end);
    WordIsRead(s, 0, j + 1, |s|, ps, end);
    assert s[0..|s|] == s;
  }

  /** The apostrophe at `j` cannot end a value: a letter or digit follows it. */
  ghost predicate ApostropheStays(s: string, j: int) { 0 <= j && j + 1 < |s| && (IsLetter(s[j + 1]) || IsDigit(s[j + 1])) }

  lemma {:induction false} WordSlices(u: string, v: string, w: string, s: string)
    requires s == u + "'" + v + "'" + w
    ensures var i, j := |u|, |u| + 1 + |v|;
      && s[0..i] == u && s[i + 1..j] == v && s[j + 1..|s|] == w && s[i] == '\'' && s[j] == '\'' && s[j + 1..] == w
  {
  }

  lemma {:induction false} NoValueEnds(s: string, i: int, j: int)
    requires 0 <= i < j < |s| && s[i] == '\'' && s[j] == '\'' && ApostropheStays(s, j)
    requires IsWord(s[i + 1..j]) && IsWord(s[j + 1..|s|])
    ensures NoneEnds(s, i + 1) && NoneEnds(s, j + 1)
    ensures s[i + 1] != '{' && s[i + 1] != '[' && s[j + 1] != '{' && s[j + 1] != '['
  {
    forall k | i < k < |s| && k != j ensures s[k] != '\'' {
      if k < j { assert s[k] == s[i + 1..j][k - i - 1]; } else { assert s[k] == s[j + 1..|s|][k - j - 1]; }
    }
    assert !IsSeparator(s[j + 1]) by { assert s[j + 1] == s[j + 1..|s|][0]; }
    assert !ApostropheCloses(s, j + 1);
    assert IsSeparator('{') && IsSeparator('[');
    if i + 1 < j { assert s[i + 1] == s[i + 1..j][0]; }
  }

  /** A text in apostrophes at the end of the segment or before a closing character is
      read as one value. */
  lemma {:induction false} ApostrophedValue(body: string, back: string, s: string, ps: seq<Piece>, end: Quote)
    requires '\'' !in body && '\\' !in body && s == "'" + body + "'" + back && Tokenizes(s, 0, 0, Out, ps, end)
    requires body != "" ==> body[0] != '{' && body[0] != '['
    requires back == "" || back[0] in " \t,;()<>[]{}.:"
    ensures Tokenizes(s, 0, |body| + 2, Out, ps, end)
  {
    var j := |body| + 1;
    BodyAt(body, back, s);
    assert EndsValue(s, 1, j, '\'') by {
      assert back != "" ==> s[j + 1] == back[0];
    }
    OpensIffEnds(s, 1, 1);
    DecisionActs(s, 0, 0, Open, ps, end);
    ValueEnds(s, 0, 1, 1, '\'', ps, end, j);
  }

  lemma {:induction false} BodyAt(body: string, back: string, s: string)
    requires '\'' !in body && '\\' !in body && s == "'" + body + "'" + back
    ensures s[0] == '\'' && s[|body| + 1] == '\'' && !Escaped(s, 1, |body| + 1)
    ensures forall k :: 1 <= k <= |body| ==> s[k] == body[k - 1] && s[k] != '\''
  {
    forall k | 1 <= k <= |body| ensures s[k] == body[k - 1] {
    }
    assert |body| > 0 ==> s[|body|] != '\\';
  }

  /** A JSON document in apostrophes is one token, whatever quotes it holds. */
  lemma {:induction false} JsonLiteralIsOneToken(d: Doc, s: string, ps: seq<Piece>, end: Quote)
    requires d.Group? && IsDoc(d) && s == "'" + DocText(d) + "'" && Tokenizes(s, 0, 0, Out, ps, end)
    ensures ps == [Token(s)] && end == Out
  {
    assert s[1..1 + |DocText(d)|] == DocText(d);
    DocumentIsFound(s, 1, d);
    assert s[1] == DocText(d)[0] == d.open;
    DecisionActs(s, 0, 0, Jump(|s|), ps, end);
    assert s[0..|s|] == s;
  }
}
