/** What a publisher signs: the statement text, the number formatting inside
    it, and the server's signature check. Ed25519 (section 5.1 of RFC 8032),
    SHA-256 and base64 are functions of a `Suite`, known only by the laws
    stated where they are needed. */
module Signing {
  import opened Common

  type PublicKey = string
  type Signature = string

  datatype Suite = Suite(
    verify: (PublicKey, string, Signature) -> bool,
    digest: string -> string,
    base64: string -> Option<string>,
    keyId: PublicKey -> string)

  const SIGNATURE_SIZE: int := 64

  // ---- decimal numbers ----

  function DigitOf(d: int): (c: char)
    requires 0 <= d < 10
    ensures IsDigit(c) && c as int - '0' as int == d
  {
    '0' + d as char
  }

  function Digits(n: nat): (s: string)
    ensures |s| > 0 && forall i :: 0 <= i < |s| ==> IsDigit(s[i])
  {
    if n < 10 then [DigitOf(n)] else Digits(n / 10) + [DigitOf(n % 10)]
  }

  /** strconv.FormatInt in base 10. */
  function FormatInt(x: int): string { if x < 0 then "-" + Digits(-x) else Digits(x) }

  function ParseNat(s: string): Option<nat> {
    if s == [] || !IsDigit(s[|s| - 1]) then None
    else
      var d: nat := s[|s| - 1] as int - '0' as int;
      if |s| == 1 then Some(d)
      else match ParseNat(s[..|s| - 1])
        case None => None
        case Some(n) => Some(10 * n + d)
  }

  const MAX_INT64: int := 0x7fff_ffff_ffff_ffff

  predicate IsInt64(x: int) { -MAX_INT64 - 1 <= x <= MAX_INT64 }

  /** strconv.ParseInt in base 10 with its error ignored: 0 for text that is no
      number, the nearest limit for one out of range. */
  function ParseInt64(s: string): (r: int)
    ensures IsInt64(r)
  {
    var negative := s != [] && s[0] == '-';
    var body := if s != [] && (s[0] == '-' || s[0] == '+') then s[1..] else s;
    match ParseNat(body)
    case None => 0
    case Some(m) =>
      var n: int := m;
      if negative then (if n > MAX_INT64 + 1 then -MAX_INT64 - 1 else -n)
      else if n > MAX_INT64 then MAX_INT64 else n
  }

  lemma {:induction false} ParseDigits(n: nat)
    ensures ParseNat(Digits(n)) == Some(n)
    decreases n
  {
    if n >= 10 {
      ParseDigits(n / 10);
      var s := Digits(n);
      assert s[..|s| - 1] == Digits(n / 10);
    }
  }

  lemma ParseFormatted(x: int)
    requires IsInt64(x)
    ensures ParseInt64(FormatInt(x)) == x
  {
    if x < 0 {
      ParseDigits(-x);
      assert FormatInt(x)[1..] == Digits(-x);
    } else {
      ParseDigits(x);
      assert IsDigit(Digits(x)[0]);
    }
  }

  lemma FormatIsInjective(x: int, y: int)
    requires FormatInt(x) == FormatInt(y)
    ensures x == y
  {
    assert IsDigit(Digits(if x < 0 then -x else x)[0]) && IsDigit(Digits(if y < 0 then -y else y)[0]);
    ParseDigits(if x < 0 then -x else x);
    ParseDigits(if y < 0 then -y else y);
    if x < 0 {
      assert FormatInt(x)[0] == '-';
      assert FormatInt(x)[1..] == Digits(-x) && FormatInt(y)[1..] == Digits(-y);
    } else {
      assert FormatInt(y)[0] != '-';
    }
  }

  lemma FormatHasNoNewline(x: int)
    ensures '\n' !in FormatInt(x)
  {
  }

  // ---- the statement ----

  const HEADER: string := "pii-shield-policy-signature-v1"

  datatype Statement = Statement(set_: string, publication: int, revision: int, sha256: string) {
    /** The bytes that are signed: five lines, each ending in a newline. */
    function Text(): string {
      HEADER + "\n" +
      "set: " + set_ + "\n" +
      "publication: " + FormatInt(publication) + "\n" +
      "revision: " + FormatInt(revision) + "\n" +
      "sha256: " + sha256 + "\n"
    }
  }

  /** The statement for publishing `content` as a revision of a set. */
  function For(suite: Suite, set_: string, publication: int, revision: int, content: string): Statement {
    Statement(set_, publication, revision, suite.digest(content))
  }

  lemma LastLine(u: string, v: string, u': string, v': string)
    requires u + "\n" + v == u' + "\n" + v' && '\n' !in v && '\n' !in v'
    ensures u == u' && v == v'
  {
    var s, s' := u + "\n" + v, u' + "\n" + v';
    assert s[|u|] == '\n' && s'[|u'|] == '\n';
    assert forall i :: |u| < i < |s| ==> s[i] in v;
    assert forall i :: |u'| < i < |s'| ==> s'[i] in v';
    assert |u| == |u'|;
    assert u == s[..|u|] && v == s[|u| + 1..];
    assert u' == s'[..|u'|] && v' == s'[|u'| + 1..];
  }

  lemma Tail(p: string, x: string, y: string)
    requires p + x == p + y
    ensures x == y
  {
    assert x == (p + x)[|p|..] && y == (p + y)[|p|..];
  }

  function SetLine(st: Statement): string { HEADER + "\n" + "set: " + st.set_ }
  function PublicationLine(st: Statement): string { "publication: " + FormatInt(st.publication) }
  function RevisionLine(st: Statement): string { "revision: " + FormatInt(st.revision) }
  function HashLine(st: Statement): string { "sha256: " + st.sha256 }

  lemma TextInLines(st: Statement)
    ensures st.Text() == SetLine(st) + "\n" + PublicationLine(st) + "\n" + RevisionLine(st) + "\n" + HashLine(st) + "\n" + ""
  {
    assert PublicationLine(st) + "\n" == "publication: " + FormatInt(st.publication) + "\n";
    assert RevisionLine(st) + "\n" == "revision: " + FormatInt(st.revision) + "\n";
    assert HashLine(st) + "\n" == "sha256: " + st.sha256 + "\n";
    assert SetLine(st) + "\n" == HEADER + "\n" + "set: " + st.set_ + "\n";
  }

  lemma LinesHaveNoNewline(st: Statement)
    requires '\n' !in st.sha256
    ensures '\n' !in PublicationLine(st) && '\n' !in RevisionLine(st) && '\n' !in HashLine(st)
  {
    FormatHasNoNewline(st.publication);
    FormatHasNoNewline(st.revision);
  }

  /** Two statements with one text are one statement, whatever the set is
      called: the lines are read from the end, where no field holds a newline. */
  lemma TextIsInjective(s: Statement, t: Statement)
    requires s.Text() == t.Text() && '\n' !in s.sha256 && '\n' !in t.sha256
    ensures s == t
  {
    TextInLines(s);
    TextInLines(t);
    LinesHaveNoNewline(s);
    LinesHaveNoNewline(t);
    var s1, t1 := SetLine(s) + "\n" + PublicationLine(s), SetLine(t) + "\n" + PublicationLine(t);
    var s2, t2 := s1 + "\n" + RevisionLine(s), t1 + "\n" + RevisionLine(t);
    LastLine(s2 + "\n" + HashLine(s), "", t2 + "\n" + HashLine(t), "");
    LastLine(s2, HashLine(s), t2, HashLine(t));
    LastLine(s1, RevisionLine(s), t1, RevisionLine(t));
    LastLine(SetLine(s), PublicationLine(s), SetLine(t), PublicationLine(t));
    Tail(HEADER + "\n" + "set: ", s.set_, t.set_);
    Tail("publication: ", FormatInt(s.publication), FormatInt(t.publication));
    Tail("revision: ", FormatInt(s.revision), FormatInt(t.revision));
    Tail("sha256: ", s.sha256, t.sha256);
    FormatIsInjective(s.publication, t.publication);
    FormatIsInjective(s.revision, t.revision);
  }

  // ---- checking ----

  /** unicode.IsSpace. */
  predicate IsBlank(c: char) {
    || '\t' <= c <= '\r' || c == ' ' || c == '\U{85}' || c == '\U{A0}' || c == '\U{1680}'
    || '\U{2000}' <= c <= '\U{200A}' || c == '\U{2028}' || c == '\U{2029}' || c == '\U{202F}'
    || c == '\U{205F}' || c == '\U{3000}'
  }

  function TrimLeft(s: string): string {
    if s != [] && IsBlank(s[0]) then TrimLeft(s[1..]) else s
  }

  function TrimRight(s: string): string {
    if s != [] && IsBlank(s[|s| - 1]) then TrimRight(s[..|s| - 1]) else s
  }

  function Trim(s: string): string { TrimRight(TrimLeft(s)) }

  lemma {:induction false} TrimLeftStops(s: string)
    ensures TrimLeft(s) == [] || !IsBlank(TrimLeft(s)[0])
    decreases |s|
  {
    if s != [] && IsBlank(s[0]) { TrimLeftStops(s[1..]); }
  }

  lemma {:induction false} TrimLeftAt(s: string) returns (i: int)
    ensures 0 <= i <= |s| && TrimLeft(s) == s[i..]
    ensures forall k :: 0 <= k < i ==> IsBlank(s[k])
    decreases |s|
  {
    if s != [] && IsBlank(s[0]) {
      var t := s[1..];
      i := TrimLeftAt(t);
      forall k | 0 <= k < i + 1 ensures IsBlank(s[k]) {
        if k > 0 { assert s[k] == t[k - 1]; }
      }
      i := i + 1;
    } else {
      i := 0;
    }
  }

  lemma {:induction false} TrimRightIsPrefix(s: string)
    ensures TrimRight(s) <= s
    ensures TrimRight(s) == [] || !IsBlank(TrimRight(s)[|TrimRight(s)| - 1])
    ensures forall i :: |TrimRight(s)| <= i < |s| ==> IsBlank(s[i])
    decreases |s|
  {
    if s != [] && IsBlank(s[|s| - 1]) { TrimRightIsPrefix(s[..|s| - 1]); }
  }

  /** Trimming takes exactly the blanks off both ends. */
  lemma {:induction false} TrimMeans(s: string) returns (i: int, j: int)
    ensures 0 <= i <= j <= |s| && Trim(s) == s[i..j]
    ensures forall k :: 0 <= k < i || j <= k < |s| ==> IsBlank(s[k])
    ensures i < j ==> !IsBlank(s[i]) && !IsBlank(s[j - 1])
  {
    TrimLeftStops(s);
    i := TrimLeftAt(s);
    var t := s[i..];
    TrimRightIsPrefix(t);
    var n := |TrimRight(t)|;
    j := i + n;
    SliceOfSuffix(s, i, n);
    forall k | j <= k < |s| ensures IsBlank(s[k]) { assert s[k] == t[k - i]; }
  }

  lemma {:induction false} SliceOfSuffix(s: string, i: int, n: int)
    requires 0 <= i && 0 <= n && i + n <= |s|
    ensures s[i..][..n] == s[i..i + n]
  {
  }

  lemma {:induction false} TrimTwice(s: string)
    ensures Trim(Trim(s)) == Trim(s)
  {
    var i, j := TrimMeans(s);
    var t := Trim(s);
    if t != [] {
      assert t[0] == s[i] && t[|t| - 1] == s[j - 1];
      assert TrimLeft(t) == t && TrimRight(t) == t;
    }
  }

  /** A decoded signature of the right length that verifies for the text. */
  predicate SignatureFits(suite: Suite, key: PublicKey, text: string, decoded: Option<string>) {
    decoded.Some? && |decoded.value| == SIGNATURE_SIZE && suite.verify(key, text, decoded.value)
  }

  /** signing.Verify: the server trims the base64 text before it decodes it. */
  predicate Verify(suite: Suite, key: PublicKey, st: Statement, sig: string) {
    SignatureFits(suite, key, st.Text(), suite.base64(Trim(sig)))
  }

  // ---- the signature text the server stores and the operator decodes ----

  predicate IsLineEnd(c: char) { c == '\r' || c == '\n' }

  function StripLineEnds(s: string): string {
    if s == [] then [] else (if IsLineEnd(s[0]) then [] else [s[0]]) + StripLineEnds(s[1..])
  }

  /** Standard base64 as Go decodes it: line ends are skipped, and any other
      blank is not in the alphabet. */
  ghost predicate IsBase64(decode: string -> Option<string>) {
    && (forall s: string :: decode(s) == decode(StripLineEnds(s)))
    && (forall s: string, c: char :: c in s && IsBlank(c) && !IsLineEnd(c) ==> decode(s) == None)
  }

  ghost predicate OnlyLineEnds(s: string) { forall c :: c in s && IsBlank(c) ==> IsLineEnd(c) }

  lemma {:induction false} StripAppend(s: string, t: string)
    ensures StripLineEnds(s + t) == StripLineEnds(s) + StripLineEnds(t)
    decreases |s|
  {
    if s == [] {
      assert s + t == t;
    } else {
      assert (s + t)[1..] == s[1..] + t;
      StripAppend(s[1..], t);
    }
  }

  lemma {:induction false} TrimLeftStrips(s: string)
    requires OnlyLineEnds(s)
    ensures StripLineEnds(TrimLeft(s)) == StripLineEnds(s) && OnlyLineEnds(TrimLeft(s))
    decreases |s|
  {
    if s != [] && IsBlank(s[0]) {
      assert s[0] in s;
      TrimLeftStrips(s[1..]);
    }
  }

  lemma {:induction false} TrimRightStrips(s: string)
    requires OnlyLineEnds(s)
    ensures StripLineEnds(TrimRight(s)) == StripLineEnds(s)
    decreases |s|
  {
    if s != [] && IsBlank(s[|s| - 1]) {
      var t := s[..|s| - 1];
      assert s == t + [s[|s| - 1]];
      assert s[|s| - 1] in s;
      StripAppend(t, [s[|s| - 1]]);
      assert [s[|s| - 1]][1..] == [];
      TrimRightStrips(t);
    }
  }

  /** A signature text the server accepted decodes the same for the operator,
      which does not trim, exactly when it holds no blank but line ends. */
  lemma UntrimmedDecodes(suite: Suite, sig: string)
    requires IsBase64(suite.base64) && suite.base64(Trim(sig)).Some?
    ensures suite.base64(sig) == suite.base64(Trim(sig)) <==> OnlyLineEnds(sig)
  {
    if OnlyLineEnds(sig) {
      TrimLeftStrips(sig);
      TrimRightStrips(TrimLeft(sig));
    }
  }
}
