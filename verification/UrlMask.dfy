/** Masking a URL: the password, the path, the query sections and their
    parameters, and the closing structure of an enclosing quote. A part is kept,
    hidden, or handed to the tokenizer; the parts always spell the URL, and the
    inputs on which the code has no answer are known exactly. */
module UrlMask {
  import opened Common
  import opened Escapes

  datatype Part = Kept(text: string) | Hidden(text: string) | Rest(text: string)

  function Join(ps: seq<Part>): string {
    if ps == [] then [] else ps[0].text + Join(ps[1..])
  }

  lemma {:induction false} JoinAppend(ps: seq<Part>, qs: seq<Part>)
    ensures Join(ps + qs) == Join(ps) + Join(qs)
    decreases |ps|
  {
    if ps == [] {
      assert ps + qs == qs;
    } else {
      assert (ps + qs)[1..] == ps[1..] + qs;
      JoinAppend(ps[1..], qs);
    }
  }

  lemma JoinOne(p: Part)
    ensures Join([p]) == p.text
  {
    assert [p][1..] == [];
  }

  // ---- searching ----

  /** The first index of `c` at or after `from`, or -1. */
  function IndexFrom(s: string, c: char, from: int): (r: int)
    requires 0 <= from <= |s|
    ensures r == -1 || (from <= r < |s| && s[r] == c)
    ensures forall k :: from <= k < (if r == -1 then |s| else r) ==> s[k] != c
    decreases |s| - from
  {
    if from == |s| then -1 else if s[from] == c then from else IndexFrom(s, c, from + 1)
  }

  function Index(s: string, c: char): int { IndexFrom(s, c, 0) }

  function LastIndex(s: string, c: char): (r: int)
    ensures r == -1 || (0 <= r < |s| && s[r] == c)
    ensures forall k :: r < k < |s| ==> s[k] != c
  {
    if s == [] then -1 else if s[|s| - 1] == c then |s| - 1 else LastIndex(s[..|s| - 1], c)
  }

  predicate SchemeAt(s: string, i: int) { 0 <= i && i + 3 <= |s| && s[i] == ':' && s[i + 1] == '/' && s[i + 2] == '/' }

  /** The first "://" at or after `from`, or -1. */
  function SchemeFrom(s: string, from: int): (r: int)
    requires 0 <= from <= |s|
    ensures r == -1 || (from <= r && SchemeAt(s, r))
    ensures forall k :: from <= k < (if r == -1 then |s| else r) ==> !SchemeAt(s, k)
    decreases |s| - from
  {
    if from == |s| then -1 else if SchemeAt(s, from) then from else SchemeFrom(s, from + 1)
  }

  predicate HasAny(s: string, chars: string) { exists k :: 0 <= k < |s| && s[k] in chars }

  predicate IsBlank(c: char) { c == ' ' || c == '\t' }

  function FirstBlank(s: string): (r: int)
    ensures r == -1 || (0 <= r < |s| && IsBlank(s[r]))
    ensures forall k :: 0 <= k < (if r == -1 then |s| else r) ==> !IsBlank(s[k])
  {
    var i, j := Index(s, ' '), Index(s, '\t');
    if j >= 0 && (i < 0 || j < i) then j else i
  }

  // ---- the password ----

  const ENDS_HOST := "/?# \t"

  /** Past any further '@' that comes before the host ends. */
  function LastAt(s: string, at: int): (r: int)
    requires 0 <= at < |s| && s[at] == '@'
    ensures at <= r < |s| && s[r] == '@'
    decreases |s| - at
  {
    var next := IndexFrom(s, '@', at + 1);
    if next < 0 || HasAny(s[at + 1..next], ENDS_HOST) then at else LastAt(s, next)
  }

  predicate IsDigits(s: string) { forall k :: 0 <= k < |s| ==> IsDigit(s[k]) }

  /** Where the user info of "scheme://user:password@" starts, its first ':' and its '@'. */
  function UserInfo(s: string): (r: Option<(int, int, int)>)
    ensures r.Some? ==> 3 <= r.value.0 <= r.value.1 < r.value.2 < |s| && s[r.value.2] == '@'
  {
    var i := SchemeFrom(s, 0);
    if i < 0 then None
    else
      var first := IndexFrom(s, '@', i + 3);
      if first < 0 then None
      else
        var at := LastAt(s, first);
        var colon := IndexFrom(s, ':', i + 3);
        if colon < 0 || at <= colon then None else Some((i + 3, colon, at))
  }

  /** The part before ':' is a user, and the part after it no port and path. */
  predicate IsLogin(s: string, auth: int, colon: int, at: int)
    requires 0 <= auth <= colon < at <= |s|
  {
    && !HasAny(s[auth..colon], "/?#=& \t")
    && !HasAny(s[auth..at], " \t")
    && colon + 1 < at
    && var slash := Index(s[colon + 1..at], '/');
       !(slash > 0 && IsDigits(s[colon + 1..at][..slash]))
  }

  /** urlPassword: the bounds of the password of user:password@. */
  function Password(s: string): (r: Option<(int, int)>)
    ensures r.Some? ==> 0 < r.value.0 < r.value.1 < |s| && s[r.value.1] == '@'
  {
    match UserInfo(s)
    case None => None
    case Some((auth, colon, at)) => if IsLogin(s, auth, colon, at) then Some((colon + 1, at)) else None
  }

  /** No character that ends a host lies between `i` and `j`. */
  ghost predicate NoHostEnd(s: string, i: int, j: int)
    requires 0 <= i && j <= |s|
  {
    forall k :: i <= k < j ==> s[k] !in ENDS_HOST
  }

  /** The '@' that ends the user info: reached from every earlier '@' without the
      host ending, while the host ends before every later one. */
  ghost predicate EndsUserInfo(s: string, auth: int, at: int) {
    && 0 <= auth <= at < |s| && s[at] == '@'
    && (forall k :: auth <= k < at && s[k] == '@' ==> NoHostEnd(s, k, at))
    && (forall n :: at < n < |s| && s[n] == '@' ==> !NoHostEnd(s, at, n))
  }

  lemma HasAnyOf(s: string, i: int, j: int)
    requires 0 <= i < j <= |s| && s[i] == '@'
    ensures HasAny(s[i + 1..j], ENDS_HOST) <==> !NoHostEnd(s, i, j)
  {
    var t := s[i + 1..j];
    if !NoHostEnd(s, i, j) {
      var k :| i <= k < j && s[k] in ENDS_HOST;
      assert t[k - i - 1] == s[k];
    }
    if HasAny(t, ENDS_HOST) {
      var k :| 0 <= k < |t| && t[k] in ENDS_HOST;
      assert s[k + i + 1] == t[k];
    }
  }

  /** From an '@' reached without the host ending, LastAt finds the one that ends the user info. */
  lemma {:induction false} LastAtEnds(s: string, auth: int, at: int)
    requires 0 <= auth <= at < |s| && s[at] == '@' && forall k :: auth <= k < at && s[k] == '@' ==> NoHostEnd(s, k, at)
    ensures EndsUserInfo(s, auth, LastAt(s, at))
    decreases |s| - at
  {
    var next := IndexFrom(s, '@', at + 1);
    if next >= 0 {
      HasAnyOf(s, at, next);
      if NoHostEnd(s, at, next) {
        LastAtEnds(s, auth, next);
      } else {
        var k :| at <= k < next && s[k] in ENDS_HOST;
        forall n | at < n < |s| && s[n] == '@' ensures !NoHostEnd(s, at, n) {
          assert k < n;
        }
      }
    }
  }

  lemma UserInfoEndIsUnique(s: string, auth: int, a: int, b: int)
    requires EndsUserInfo(s, auth, a) && EndsUserInfo(s, auth, b)
    ensures a == b
  {
  }

  /** Digits and a slash: a port and a path. */
  ghost predicate IsPort(t: string) { exists k :: 0 < k < |t| && t[k] == '/' && IsDigits(t[..k]) }

  /** [start, end) is the password of user:password@ behind the first "://". */
  ghost predicate IsPassword(s: string, start: int, end: int) {
    var auth := SchemeFrom(s, 0) + 3;
    && 3 <= auth < start < end && EndsUserInfo(s, auth, end)
    && s[start - 1] == ':' && !HasAny(s[auth..start - 1], ":/?#=& \t")
    && !HasAny(s[auth..end], " \t") && !IsPort(s[start..end])
  }

  lemma PortByFirstSlash(t: string)
    ensures IsPort(t) <==> Index(t, '/') > 0 && IsDigits(t[..Index(t, '/')])
  {
    if IsPort(t) {
      var k :| 0 < k < |t| && t[k] == '/' && IsDigits(t[..k]);
      forall j | 0 <= j < k ensures t[j] != '/' { assert t[..k][j] == t[j]; }
    }
  }

  /** A ':' at `colon` with no other before it is the first. */
  lemma FirstColon(s: string, auth: int, colon: int)
    requires 0 <= auth <= colon < |s| && s[colon] == ':'
    ensures IndexFrom(s, ':', auth) == colon <==> ':' !in s[auth..colon]
    ensures HasAny(s[auth..colon], ":/?#=& \t") <==> ':' in s[auth..colon] || HasAny(s[auth..colon], "/?#=& \t")
  {
    var t, c := s[auth..colon], IndexFrom(s, ':', auth);
    if c < colon { assert t[c - auth] == ':'; }
    forall k | 0 <= k < |t| ensures t[k] == s[k + auth] {}
  }

  /** The user info that UserInfo finds. */
  lemma UserInfoIs(s: string, auth: int, colon: int, at: int)
    requires 3 <= auth == SchemeFrom(s, 0) + 3 && EndsUserInfo(s, auth, at) && auth <= colon < at
    requires s[colon] == ':' && ':' !in s[auth..colon]
    ensures UserInfo(s) == Some((auth, colon, at))
  {
    var first := IndexFrom(s, '@', auth);
    LastAtEnds(s, auth, first);
    UserInfoEndIsUnique(s, auth, at, LastAt(s, first));
    FirstColon(s, auth, colon);
  }

  lemma UserInfoEnds(s: string)
    requires UserInfo(s).Some?
    ensures var (auth, colon, at) := UserInfo(s).value;
      && auth == SchemeFrom(s, 0) + 3 && EndsUserInfo(s, auth, at)
      && s[colon] == ':' && ':' !in s[auth..colon]
  {
    var (auth, colon, at) := UserInfo(s).value;
    LastAtEnds(s, auth, IndexFrom(s, '@', auth));
    FirstColon(s, auth, colon);
  }

  lemma LoginIsPassword(s: string, auth: int, colon: int, at: int)
    requires 3 <= auth == SchemeFrom(s, 0) + 3 && EndsUserInfo(s, auth, at) && auth <= colon < at
    requires s[colon] == ':' && ':' !in s[auth..colon]
    ensures IsLogin(s, auth, colon, at) <==> IsPassword(s, colon + 1, at)
  {
    FirstColon(s, auth, colon);
    if colon + 1 < at { PortByFirstSlash(s[colon + 1..at]); }
  }

  /** urlPassword finds a password exactly where there is one. */
  lemma PasswordIsExact(s: string, start: int, end: int)
    ensures Password(s) == Some((start, end)) <==> IsPassword(s, start, end)
  {
    if Password(s) == Some((start, end)) {
      UserInfoEnds(s);
      var (auth, colon, at) := UserInfo(s).value;
      LoginIsPassword(s, auth, colon, at);
    }
    if IsPassword(s, start, end) {
      PasswordHasUserInfo(s, start, end);
      LoginIsPassword(s, SchemeFrom(s, 0) + 3, start - 1, end);
    }
  }

  lemma PasswordHasUserInfo(s: string, start: int, end: int)
    requires IsPassword(s, start, end)
    ensures UserInfo(s) == Some((SchemeFrom(s, 0) + 3, start - 1, end)) && ':' !in s[SchemeFrom(s, 0) + 3..start - 1]
  {
    var auth := SchemeFrom(s, 0) + 3;
    FirstColon(s, auth, start - 1);
    UserInfoIs(s, auth, start - 1, end);
  }

  // ---- the closing structure ----

  predicate IsQuote(c: char) { c == '"' || c == '\'' }
  predicate IsClosing(c: char) { c in ":,.;)]}>" }

  ghost predicate AllClosing(s: string) { forall k :: 0 <= k < |s| ==> IsClosing(s[k]) }

  function LastQuote(s: string): (q: int)
    ensures q == -1 || (0 <= q < |s| && IsQuote(s[q]))
    ensures forall k :: q < k < |s| ==> !IsQuote(s[k])
  {
    var d, a := LastIndex(s, '"'), LastIndex(s, '\'');
    if a > d then a else d
  }

  /** Where the run of backslashes before `q` starts. */
  function BackslashStart(s: string, q: int): (b: int)
    requires q <= |s|
    ensures q < 0 ==> b == q
    ensures 0 <= q ==> 0 <= b <= q && forall k :: b <= k < q ==> s[k] == '\\'
    decreases q
  {
    if q > 0 && s[q - 1] == '\\' then BackslashStart(s, q - 1) else q
  }

  /** The loop over the backslashes counts them. */
  lemma {:induction false} EscapedByParity(s: string, q: int)
    requires q <= |s|
    ensures Escaped(s, 0, q) <==> (q - BackslashStart(s, q)) % 2 == 1
    decreases q
  {
    if q > 0 && s[q - 1] == '\\' { EscapedByParity(s, q - 1); }
  }

  /** The quote at `q` closes the text: only closing punctuation follows, and the query began before it. */
  ghost predicate ClosesAt(url: string, q: int) {
    0 <= q < |url| && IsQuote(url[q]) && AllClosing(url[q + 1..]) && ('?' in url ==> '?' in url[..q])
  }

  /** Where the closing structure starts: at its quote or the backslash that escapes
      it; the length if there is none, and -1 for closing punctuation alone. */
  ghost function Tail(url: string): int {
    var q := LastQuote(url);
    if AllClosing(url) then -1
    else if !ClosesAt(url, q) then |url|
    else if Escaped(url, 0, q) then q - 1
    else q
  }

  /** No quote but the last can close the text. */
  lemma OnlyLastCloses(url: string, q: int)
    requires ClosesAt(url, q)
    ensures q == LastQuote(url) && !AllClosing(url)
  {
    forall k | q < k < |url| ensures IsClosing(url[k]) {
      assert url[k] == url[q + 1..][k - q - 1];
    }
    assert !IsClosing(url[q]);
  }

  /** urlClosingTail: -1 is the index the code cannot slice at. */
  method ClosingTail(url: string) returns (tail: int)
    ensures tail == Tail(url)
    ensures tail == -1 <==> AllClosing(url)
    ensures 0 <= tail < |url| <==> exists q :: ClosesAt(url, q)
    ensures forall q :: ClosesAt(url, q) ==> tail == if Escaped(url, 0, q) then q - 1 else q
    ensures -1 <= tail <= |url|
    ensures 0 <= tail < |url| ==> IsTail(url, tail) && ('?' in url ==> '?' in url[..tail])
  {
    var q := LastQuote(url);
    var query := Index(url, '?');
    if q < query {
      QueryBehind(url, q);
      TailMeans(url);
      return |url|;
    }
    for i := q + 1 to |url|
      invariant forall k :: q < k < i ==> IsClosing(url[k])
    {
      if !IsClosing(url[i]) {
        NotClosed(url, q, i);
        TailMeans(url);
        return |url|;
      }
    }
    var b := BackslashStart(url, q);
    tail := q;
    if (q - b) % 2 == 1 {
      tail := q - 1;
    }
    EscapedByParity(url, q);
    Closed(url, q);
    TailMeans(url);
  }

  lemma QueryBehind(url: string, q: int)
    requires q == LastQuote(url) && q < Index(url, '?')
    ensures Tail(url) == |url|
  {
    assert !IsClosing(url[Index(url, '?')]);
  }

  lemma NotClosed(url: string, q: int, i: int)
    requires q == LastQuote(url) < i < |url| && !IsClosing(url[i])
    ensures Tail(url) == |url|
  {
    if 0 <= q { assert url[q + 1..][i - q - 1] == url[i]; }
  }

  lemma Closed(url: string, q: int)
    requires q == LastQuote(url) && Index(url, '?') <= q && forall k :: q < k < |url| ==> IsClosing(url[k])
    ensures Tail(url) == if Escaped(url, 0, q) then q - 1 else q
  {
    var query := Index(url, '?');
    if 0 <= q {
      assert !IsClosing(url[q]);
      if 0 <= query { assert url[..q][query] == '?'; }
    }
  }

  lemma TailShape(url: string, q: int, tail: int)
    requires ClosesAt(url, q) && tail == if Escaped(url, 0, q) then q - 1 else q
    ensures 0 <= tail < |url| && IsTail(url, tail)
    ensures '?' in url ==> '?' in url[..tail]
  {
    if '?' in url {
      var k :| 0 <= k < q && url[..q][k] == '?';
      assert k < tail && url[..tail][k] == '?';
    }
  }

  /** What the start of the closing structure is. */
  lemma TailMeans(url: string)
    ensures Tail(url) == -1 <==> AllClosing(url)
    ensures 0 <= Tail(url) < |url| <==> exists q :: ClosesAt(url, q)
    ensures forall q :: ClosesAt(url, q) ==> Tail(url) == if Escaped(url, 0, q) then q - 1 else q
    ensures -1 <= Tail(url) <= |url|
    ensures 0 <= Tail(url) < |url| ==> IsTail(url, Tail(url)) && ('?' in url ==> '?' in url[..Tail(url)])
  {
    forall q | ClosesAt(url, q) ensures Tail(url) == if Escaped(url, 0, q) then q - 1 else q {
      OnlyLastCloses(url, q);
    }
    if ClosesAt(url, LastQuote(url)) {
      OnlyLastCloses(url, LastQuote(url));
      TailShape(url, LastQuote(url), Tail(url));
    }
  }

  /** The closing structure: an optional backslash, the quote and closing punctuation. */
  ghost predicate IsTail(url: string, tail: int)
    requires 0 <= tail < |url|
  {
    || (IsQuote(url[tail]) && AllClosing(url[tail + 1..]))
    || (url[tail] == '\\' && tail + 1 < |url| && IsQuote(url[tail + 1]) && AllClosing(url[tail + 2..]))
  }

  // ---- splitting and joining ----

  /** strings.Split on one character. */
  function Split(s: string, c: char): (r: seq<string>)
    ensures |r| >= 1
    decreases |s|
  {
    var i := Index(s, c);
    if i < 0 then [s] else [s[..i]] + Split(s[i + 1..], c)
  }

  function Rejoin(ss: seq<string>, c: char): string
    requires |ss| >= 1
  {
    if |ss| == 1 then ss[0] else ss[0] + [c] + Rejoin(ss[1..], c)
  }

  lemma {:induction false} SplitRejoins(s: string, c: char)
    ensures Rejoin(Split(s, c), c) == s
    decreases |s|
  {
    var i := Index(s, c);
    if i >= 0 {
      var head, rest := s[..i], s[i + 1..];
      SplitRejoins(rest, c);
      CutAt(s, i);
      RejoinCons(head, Split(rest, c), c);
    }
  }

  lemma SplitAt(a: string, rest: string, c: char)
    requires c !in a
    ensures Split(a + [c] + rest, c) == [a] + Split(rest, c)
  {
    var s := a + [c] + rest;
    var i := Index(s, c);
    assert s[|a|] == c;
    assert i == |a| by {
      assert forall k :: 0 <= k < |a| ==> s[k] == a[k];
    }
    assert s[..i] == a && s[i + 1..] == rest;
  }

  /** Joining pieces that do not hold the character and splitting again is the identity. */
  lemma {:induction false} SplitJoined(ss: seq<string>, c: char)
    requires ss != [] && forall s :: s in ss ==> c !in s
    ensures Split(Rejoin(ss, c), c) == ss
    decreases |ss|
  {
    assert ss[0] in ss;
    if |ss| == 1 {
      assert Index(ss[0], c) < 0;
    } else {
      SplitJoined(ss[1..], c);
      SplitAt(ss[0], Rejoin(ss[1..], c), c);
    }
  }

  /** One piece more than separators, and none holds one. */
  lemma {:induction false} SplitSize(s: string, c: char)
    ensures |Split(s, c)| == 1 + multiset(s)[c]
    ensures forall t :: t in Split(s, c) ==> c !in t
    decreases |s|
  {
    var i := Index(s, c);
    if i >= 0 {
      SplitSize(s[i + 1..], c);
      assert s == s[..i] + [c] + s[i + 1..];
      assert c !in s[..i];
    }
  }

  lemma {:induction false} RejoinLacks(ss: seq<string>, c: char, d: char)
    requires ss != [] && c != d && forall s :: s in ss ==> d !in s
    ensures d !in Rejoin(ss, c)
    decreases |ss|
  {
    assert ss[0] in ss;
    if |ss| > 1 { RejoinLacks(ss[1..], c, d); }
  }

  lemma CutAt(s: string, i: int)
    requires 0 <= i < |s|
    ensures s[..i] + [s[i]] + s[i + 1..] == s
  {
  }

  lemma RejoinCons(head: string, ss: seq<string>, c: char)
    requires |ss| >= 1
    ensures Rejoin([head] + ss, c) == head + [c] + Rejoin(ss, c)
  {
    assert ([head] + ss)[1..] == ss;
  }

  lemma {:induction false} RejoinAppend(ss: seq<string>, t: string, c: char)
    requires |ss| >= 1
    ensures Rejoin(ss + [t], c) == Rejoin(ss, c) + [c] + t
    decreases |ss|
  {
    if |ss| == 1 {
      assert (ss + [t])[1..] == [t];
    } else {
      assert (ss + [t])[1..] == ss[1..] + [t];
      RejoinAppend(ss[1..], t, c);
    }
  }

  // ---- masking ----

  /** The judgements of the scanner: which parameter values and path segments
      are secrets (with how much of the segment is kept), and which passwords
      are markers already. */
  datatype Rules = Rules(
    hides: (string, string) -> bool,
    secretPath: string -> bool,
    keeps: string -> Option<nat>,
    isMarker: string -> bool)

  lemma JoinTwo(a: Part, b: Part)
    ensures Join([a, b]) == a.text + b.text
    ensures a.Kept? && b.Hidden? ==> Secrets([a, b]) == [b.text]
  {
    assert [a, b][1..] == [b] && [b][1..] == [];
    JoinOne(b);
    if a.Kept? && b.Hidden? { assert Secrets([b]) == [b.text] + []; }
  }

  /** The hidden texts, in order. */
  function Secrets(ps: seq<Part>): seq<string> {
    if ps == [] then [] else (if ps[0].Hidden? then [ps[0].text] else []) + Secrets(ps[1..])
  }

  lemma {:induction false} SecretsAppend(ps: seq<Part>, qs: seq<Part>)
    ensures Secrets(ps + qs) == Secrets(ps) + Secrets(qs)
    decreases |ps|
  {
    if ps == [] {
      assert ps + qs == qs;
    } else {
      assert (ps + qs)[1..] == ps[1..] + qs;
      SecretsAppend(ps[1..], qs);
    }
  }

  /** Adding a separator and one more part list. */
  lemma AddPart(out: seq<Part>, sep: string, one: seq<Part>)
    ensures Join(out + [Kept(sep)] + one) == Join(out) + sep + Join(one)
    ensures Secrets(out + [Kept(sep)] + one) == Secrets(out) + Secrets(one)
  {
    JoinAppend(out, [Kept(sep)]);
    JoinOne(Kept(sep));
    JoinAppend(out + [Kept(sep)], one);
    SecretsAppend(out, [Kept(sep)]);
    SecretsAppend(out + [Kept(sep)], one);
    assert Secrets([Kept(sep)]) == [];
  }

  /** What is secret in a parameter: the value its key says to hide. */
  function ParamSecret(rules: Rules, param: string): seq<string> {
    var eq := Index(param, '=');
    if eq >= 0 && rules.hides(param[..eq], param[eq + 1..]) then [param[eq + 1..]] else []
  }

  function SectionSecrets(rules: Rules, params: seq<string>): seq<string> {
    if params == [] then [] else SectionSecrets(rules, params[..|params| - 1]) + ParamSecret(rules, params[|params| - 1])
  }

  function SegmentSecret(rules: Rules, seg: string): seq<string> {
    var keep := rules.keeps(seg);
    if keep.Some? && keep.value <= |seg| then [seg[keep.value..]] else []
  }

  function SegmentSecrets(rules: Rules, segs: seq<string>): seq<string> {
    if segs == [] then [] else SegmentSecrets(rules, segs[..|segs| - 1]) + SegmentSecret(rules, segs[|segs| - 1])
  }

  function PathSecrets(rules: Rules, path: string): seq<string> {
    if rules.secretPath(path) then SegmentSecrets(rules, Split(path, '/')) else []
  }

  /** The first of `parts` is the path, the others are query sections. */
  function QuerySecrets(rules: Rules, parts: seq<string>): seq<string>
    requires |parts| >= 1
  {
    if |parts| == 1 then PathSecrets(rules, parts[0])
    else QuerySecrets(rules, parts[..|parts| - 1]) + SectionSecrets(rules, Split(parts[|parts| - 1], '&'))
  }

  /** One parameter: its value is hidden alone, behind its key. */
  method MaskParameter(rules: Rules, param: string) returns (out: seq<Part>)
    ensures Join(out) == param && Secrets(out) == ParamSecret(rules, param)
  {
    var eq := Index(param, '=');
    if eq >= 0 {
      var key, val := param[..eq], param[eq + 1..];
      if rules.hides(key, val) {
        out := [Kept(key + "="), Hidden(val)];
        assert key + "=" == param[..eq + 1];
        JoinTwo(out[0], out[1]);
        return;
      }
    }
    JoinOne(Kept(param));
    out := [Kept(param)];
  }

  lemma TakeNext(ss: seq<string>, i: int)
    requires 0 <= i < |ss|
    ensures ss[..i + 1] == ss[..i] + [ss[i]]
  {
  }

  lemma TakeAll(ss: seq<string>)
    ensures ss[..|ss|] == ss
  {
  }

  /** The parts of some parameters: they spell them, and hold their secrets apart. */
  ghost predicate ParametersMasked(rules: Rules, out: seq<Part>, params: seq<string>) {
    params != [] && Join(out) == Rejoin(params, '&') && Secrets(out) == SectionSecrets(rules, params)
  }

  lemma FirstParameter(rules: Rules, one: seq<Part>, params: seq<string>)
    requires params != [] && Join(one) == params[0] && Secrets(one) == ParamSecret(rules, params[0])
    ensures ParametersMasked(rules, one, params[..1])
  {
    assert params[..1] == [params[0]] && params[..1][..0] == [];
  }

  lemma AddParameter(rules: Rules, out: seq<Part>, params: seq<string>, one: seq<Part>, param: string)
    requires ParametersMasked(rules, out, params)
    requires Join(one) == param && Secrets(one) == ParamSecret(rules, param)
    ensures ParametersMasked(rules, out + [Kept("&")] + one, params + [param])
  {
    AddPart(out, "&", one);
    RejoinAppend(params, param, '&');
    assert (params + [param])[..|params|] == params;
  }

  method MaskParameters(rules: Rules, params: seq<string>) returns (out: seq<Part>)
    requires params != []
    ensures ParametersMasked(rules, out, params)
  {
    out := MaskParameter(rules, params[0]);
    FirstParameter(rules, out, params);
    for i := 1 to |params|
      invariant ParametersMasked(rules, out, params[..i])
    {
      var one := MaskParameter(rules, params[i]);
      TakeNext(params, i);
      AddParameter(rules, out, params[..i], one, params[i]);
      out := out + [Kept("&")] + one;
    }
    TakeAll(params);
  }

  method MaskSection(rules: Rules, section: string) returns (out: seq<Part>)
    ensures Join(out) == section && Secrets(out) == SectionSecrets(rules, Split(section, '&'))
  {
    SplitRejoins(section, '&');
    out := MaskParameters(rules, Split(section, '&'));
  }

  method MaskSegment(rules: Rules, seg: string) returns (out: seq<Part>)
    ensures Join(out) == seg && Secrets(out) == SegmentSecret(rules, seg)
  {
    var keep := rules.keeps(seg);
    if keep.Some? && keep.value <= |seg| {
      out := [Kept(seg[..keep.value]), Hidden(seg[keep.value..])];
      JoinTwo(out[0], out[1]);
    } else {
      JoinOne(Kept(seg));
      out := [Kept(seg)];
    }
  }

  /** The parts of some path segments: they spell them, and hold their secrets apart. */
  ghost predicate SegmentsMasked(rules: Rules, out: seq<Part>, segs: seq<string>) {
    segs != [] && Join(out) == Rejoin(segs, '/') && Secrets(out) == SegmentSecrets(rules, segs)
  }

  lemma FirstSegment(rules: Rules, one: seq<Part>, segs: seq<string>)
    requires segs != [] && Join(one) == segs[0] && Secrets(one) == SegmentSecret(rules, segs[0])
    ensures SegmentsMasked(rules, one, segs[..1])
  {
    assert segs[..1] == [segs[0]] && segs[..1][..0] == [];
  }

  lemma AddSegment(rules: Rules, out: seq<Part>, segs: seq<string>, one: seq<Part>, seg: string)
    requires SegmentsMasked(rules, out, segs)
    requires Join(one) == seg && Secrets(one) == SegmentSecret(rules, seg)
    ensures SegmentsMasked(rules, out + [Kept("/")] + one, segs + [seg])
  {
    AddPart(out, "/", one);
    RejoinAppend(segs, seg, '/');
    assert (segs + [seg])[..|segs|] == segs;
  }

  method MaskSegments(rules: Rules, segs: seq<string>) returns (out: seq<Part>)
    requires segs != []
    ensures SegmentsMasked(rules, out, segs)
  {
    out := MaskSegment(rules, segs[0]);
    FirstSegment(rules, out, segs);
    for i := 1 to |segs|
      invariant SegmentsMasked(rules, out, segs[..i])
    {
      var one := MaskSegment(rules, segs[i]);
      TakeNext(segs, i);
      AddSegment(rules, out, segs[..i], one, segs[i]);
      out := out + [Kept("/")] + one;
    }
    TakeAll(segs);
  }

  /** writeURLPath. */
  method MaskPath(rules: Rules, path: string) returns (out: seq<Part>)
    ensures Join(out) == path && Secrets(out) == PathSecrets(rules, path)
  {
    if !rules.secretPath(path) {
      JoinOne(Kept(path));
      return [Kept(path)];
    }
    SplitRejoins(path, '/');
    out := MaskSegments(rules, Split(path, '/'));
  }

  /** The parts of a path and its query sections: they spell them, and hold their secrets apart. */
  ghost predicate QueryMasked(rules: Rules, out: seq<Part>, parts: seq<string>) {
    parts != [] && Join(out) == Rejoin(parts, '?') && Secrets(out) == QuerySecrets(rules, parts)
  }

  lemma FirstPath(rules: Rules, one: seq<Part>, parts: seq<string>)
    requires parts != [] && Join(one) == parts[0] && Secrets(one) == PathSecrets(rules, parts[0])
    ensures QueryMasked(rules, one, parts[..1])
  {
    assert parts[..1] == [parts[0]];
  }

  lemma AddQuery(rules: Rules, out: seq<Part>, parts: seq<string>, one: seq<Part>, section: string)
    requires QueryMasked(rules, out, parts)
    requires Join(one) == section && Secrets(one) == SectionSecrets(rules, Split(section, '&'))
    ensures QueryMasked(rules, out + [Kept("?")] + one, parts + [section])
  {
    AddPart(out, "?", one);
    RejoinAppend(parts, section, '?');
    assert (parts + [section])[..|parts|] == parts;
  }

  /** The path, then each section after a '?'. */
  method MaskParts(rules: Rules, parts: seq<string>) returns (out: seq<Part>)
    requires parts != []
    ensures QueryMasked(rules, out, parts)
  {
    out := MaskPath(rules, parts[0]);
    FirstPath(rules, out, parts);
    for i := 1 to |parts|
      invariant QueryMasked(rules, out, parts[..i])
    {
      var one := MaskSection(rules, parts[i]);
      TakeNext(parts, i);
      AddQuery(rules, out, parts[..i], one, parts[i]);
      out := out + [Kept("?")] + one;
    }
    TakeAll(parts);
  }

  /** A URL without blanks or closing structure. */
  method MaskQuery(rules: Rules, url: string) returns (out: seq<Part>)
    ensures Join(out) == url && Secrets(out) == QuerySecrets(rules, Split(url, '?'))
  {
    SplitRejoins(url, '?');
    out := MaskParts(rules, Split(url, '?'));
  }

  /** The texts the code has no answer for: it slices at -1. */
  ghost predicate Stuck(url: string) {
    && Password(url).None?
    && if '?' !in url then AllClosing(url) else FirstBlank(url) >= 0 && AllClosing(url[..FirstBlank(url)])
  }

  // ---- the tail does not change what came before ----

  lemma {:induction false} IndexFromPrefix(s: string, t: string, c: char, from: int)
    requires t <= s && 0 <= from <= |t| && forall k :: |t| <= k < |s| ==> s[k] != c
    ensures IndexFrom(s, c, from) == IndexFrom(t, c, from)
    decreases |t| - from
  {
    if from < |t| {
      IndexFromPrefix(s, t, c, from + 1);
    }
  }

  lemma {:induction false} LastAtPrefix(s: string, t: string, at: int)
    requires t <= s && 0 <= at < |t| && t[at] == '@' && forall k :: |t| <= k < |s| ==> s[k] != '@'
    ensures LastAt(s, at) == LastAt(t, at) < |t|
    decreases |t| - at
  {
    IndexFromPrefix(s, t, '@', at + 1);
    var next := IndexFrom(t, '@', at + 1);
    if next >= 0 {
      assert s[at + 1..next] == t[at + 1..next];
      if !HasAny(t[at + 1..next], ENDS_HOST) { LastAtPrefix(s, t, next); }
    }
  }

  /** A tail holds no blank, no '@' and no '/'. */
  lemma TailIsPlain(url: string, tail: int)
    requires 0 <= tail < |url| && IsTail(url, tail)
    ensures forall k :: tail <= k < |url| ==> url[k] != '@' && url[k] != '/' && !IsBlank(url[k])
  {
    forall k | tail <= k < |url| ensures url[k] != '@' && url[k] != '/' && !IsBlank(url[k]) {
      if k > tail { assert url[k] == url[tail + 1..][k - tail - 1]; }
      if k > tail + 1 { assert url[k] == url[tail + 2..][k - tail - 2]; }
    }
  }

  lemma UserInfoPrefix(s: string, t: string)
    requires t <= s && (forall k :: |t| <= k < |s| ==> s[k] != '@') && UserInfo(t).Some?
    ensures UserInfo(s) == UserInfo(t)
  {
    SchemePrefix(s, t);
    var auth := SchemeFrom(t, 0) + 3;
    IndexFromPrefix(s, t, '@', auth);
    LastAtPrefix(s, t, IndexFrom(t, '@', auth));
    ColonPrefix(s, t, auth);
  }

  /** Text without '@' after it does not change a password found. */
  lemma PasswordPrefix(s: string, t: string)
    requires t <= s && (forall k :: |t| <= k < |s| ==> s[k] != '@') && Password(t).Some?
    ensures Password(s) == Password(t)
  {
    UserInfoPrefix(s, t);
    var (auth, colon, at) := UserInfo(t).value;
    SliceOfPrefix(s, t, auth, colon);
    SliceOfPrefix(s, t, auth, at);
    SliceOfPrefix(s, t, colon + 1, at);
  }

  lemma SliceOfPrefix(s: string, t: string, i: int, j: int)
    requires t <= s && 0 <= i <= j <= |t|
    ensures s[i..j] == t[i..j]
  {
  }

  lemma {:induction false} ColonPrefix(s: string, t: string, from: int)
    requires t <= s && 0 <= from <= |t| && IndexFrom(t, ':', from) >= 0
    ensures IndexFrom(s, ':', from) == IndexFrom(t, ':', from)
    decreases |t| - from
  {
    if t[from] != ':' { ColonPrefix(s, t, from + 1); }
  }

  lemma SchemePrefix(s: string, t: string)
    requires t <= s && SchemeFrom(t, 0) >= 0
    ensures SchemeFrom(s, 0) == SchemeFrom(t, 0)
  {
    var i, j := SchemeFrom(t, 0), SchemeFrom(s, 0);
    assert SchemeAt(s, i);
    if j < i { assert SchemeAt(t, j); }
  }

  lemma TailKeepsStuck(url: string, tail: int)
    requires 0 <= tail < |url| && IsTail(url, tail) && '?' in url[..tail] && Password(url).None?
    ensures Stuck(url[..tail]) <==> Stuck(url)
  {
    var t := url[..tail];
    TailIsPlain(url, tail);
    if Password(t).Some? { PasswordPrefix(url, t); }
    var i := FirstBlank(url);
    assert i == FirstBlank(t);
    if i >= 0 { assert url[..i] == t[..i]; }
    assert '?' in url by {
      var k :| 0 <= k < tail && t[k] == '?';
      assert url[k] == '?';
    }
  }

  lemma BlankKeepsStuck(url: string)
    requires Password(url).None? && '?' in url && FirstBlank(url) >= 0
    ensures Stuck(url[..FirstBlank(url)]) <==> Stuck(url)
  {
    var p := url[..FirstBlank(url)];
    assert FirstBlank(p) == -1;
    if AllClosing(p) {
      assert '?' !in p;
      assert forall k :: !SchemeAt(p, k);
    }
  }

  /** Behind a password the text starts with '@' and always has an answer. */
  lemma AfterPassword(url: string, end: int)
    requires 0 <= end < |url| && url[end] == '@'
    ensures !Stuck(url[end..])
  {
    var u := url[end..];
    assert u[0] == '@';
    if FirstBlank(u) >= 0 { assert u[..FirstBlank(u)][0] == '@'; }
  }

  lemma JoinLast(front: seq<Part>, p: Part, url: string, k: int)
    requires 0 <= k <= |url| && Join(front) == url[..k] && p.text == url[k..]
    ensures Join(front + [p]) == url
  {
    JoinAppend(front, [p]);
    JoinOne(p);
    assert url[..k] + url[k..] == url;
  }

  /** The text before the password, and the password as a part of its own. */
  function PasswordParts(rules: Rules, url: string, s: int, e: int): seq<Part>
    requires 0 <= s <= e <= |url|
  {
    [Kept(url[..s]), if rules.isMarker(url[s..e]) then Kept(url[s..e]) else Hidden(url[s..e])]
  }

  ghost predicate HidesPassword(rules: Rules, url: string, ps: seq<Part>) {
    Password(url).Some? ==> PasswordParts(rules, url, Password(url).value.0, Password(url).value.1) <= ps
  }

  lemma JoinPassword(rules: Rules, url: string, s: int, e: int, rest: seq<Part>)
    requires 0 <= s <= e <= |url| && Join(rest) == url[e..]
    ensures Join(PasswordParts(rules, url, s, e) + rest) == url
  {
    var head := PasswordParts(rules, url, s, e);
    JoinTwo(head[0], head[1]);
    JoinAppend(head, rest);
    assert url[..s] + url[s..e] + url[e..] == url;
  }

  // ---- what is hidden ----

  /** The secrets of a URL: its password, then those of what is behind it; else
      those of the text before the closing structure and the first blank. */
  ghost function UrlSecrets(rules: Rules, url: string): seq<string>
    requires !Stuck(url)
    decreases |url|
  {
    TailMeans(url);
    match Password(url)
    case Some((s, e)) =>
      AfterPassword(url, e);
      (if rules.isMarker(url[s..e]) then [] else [url[s..e]]) + UrlSecrets(rules, url[e..])
    case None =>
      var tail, i := Tail(url), FirstBlank(url);
      if '?' !in url then PathSecrets(rules, url[..tail])
      else if tail < |url| then
        TailKeepsStuck(url, tail);
        UrlSecrets(rules, url[..tail])
      else if i >= 0 then
        BlankKeepsStuck(url);
        UrlSecrets(rules, url[..i])
      else QuerySecrets(rules, Split(url, '?'))
  }

  /** The text up to the first blank. */
  function UpToBlank(url: string): string { if FirstBlank(url) < 0 then url else url[..FirstBlank(url)] }

  /** A query without the closing structures behind it. */
  ghost function Core(url: string): string
    requires '?' in url
    decreases |url|
  {
    TailMeans(url);
    assert !AllClosing(url) by { var k :| 0 <= k < |url| && url[k] == '?'; assert !IsClosing(url[k]); }
    if Tail(url) < |url| then Core(url[..Tail(url)]) else url
  }

  /** A blank behind it does not change a password found. */
  lemma PasswordUpToBlank(s: string)
    requires Password(UpToBlank(s)).Some?
    ensures Password(s) == Password(UpToBlank(s))
  {
    var t := UpToBlank(s);
    var (start, end) := Password(t).value;
    PasswordIsExact(t, start, end);
    IsPasswordUpToBlank(s, t, start, end);
    PasswordIsExact(s, start, end);
  }

  lemma IsPasswordUpToBlank(s: string, t: string, start: int, end: int)
    requires t == UpToBlank(s) && IsPassword(t, start, end)
    ensures IsPassword(s, start, end)
  {
    SchemePrefix(s, t);
    var auth := SchemeFrom(t, 0) + 3;
    SliceOfPrefix(s, t, auth, start - 1);
    SliceOfPrefix(s, t, auth, end);
    SliceOfPrefix(s, t, start, end);
    UserInfoUpToBlank(s, t, auth, end);
  }

  lemma UserInfoUpToBlank(s: string, t: string, auth: int, at: int)
    requires t == UpToBlank(s) && EndsUserInfo(t, auth, at)
    ensures EndsUserInfo(s, auth, at)
  {
    forall k | auth <= k < at && s[k] == '@' ensures NoHostEnd(s, k, at) {
      assert t[k] == '@' && NoHostEnd(t, k, at);
    }
    forall n | at < n < |s| && s[n] == '@' ensures !NoHostEnd(s, at, n) {
      if n < |t| {
        assert t[n] == '@' && !NoHostEnd(t, at, n);
        var k :| at <= k < n && t[k] in ENDS_HOST;
        assert s[k] in ENDS_HOST;
      } else {
        assert IsBlank(s[|t|]) && s[|t|] in ENDS_HOST;
      }
    }
  }

  lemma TailKeepsBlank(url: string, tail: int)
    requires 0 <= tail < |url| && IsTail(url, tail)
    ensures UpToBlank(url[..tail]) == if FirstBlank(url) < 0 then url[..tail] else UpToBlank(url)
    ensures FirstBlank(url[..tail]) == FirstBlank(url)
  {
    TailIsPlain(url, tail);
    var i, t := FirstBlank(url), url[..tail];
    assert i == FirstBlank(t);
    if i >= 0 { assert t[..i] == url[..i]; }
  }

  /** Without a password, and with its query before the first blank, exactly the
      secrets of path and query sections are hidden, up to the blank and without
      the closing structures. */
  lemma {:induction false} PlainSecrets(rules: Rules, url: string)
    requires Password(url).None? && '?' in UpToBlank(url)
    ensures !Stuck(url) && UrlSecrets(rules, url) == QuerySecrets(rules, Split(Core(UpToBlank(url)), '?'))
    decreases |url|
  {
    var u, tail, i := UpToBlank(url), Tail(url), FirstBlank(url);
    QueryIsNotStuck(url);
    TailMeans(url);
    if tail < |url| {
      TailKeepsBlank(url, tail);
      TailIsPlain(url, tail);
      if Password(url[..tail]).Some? { PasswordPrefix(url, url[..tail]); }
      PlainSecrets(rules, url[..tail]);
    } else if i >= 0 {
      if Password(u).Some? { PasswordUpToBlank(url); }
      assert FirstBlank(u) == -1;
      PlainSecrets(rules, u);
    }
  }

  lemma QueryIsNotStuck(url: string)
    requires '?' in UpToBlank(url)
    ensures '?' in url && !AllClosing(UpToBlank(url)) && !AllClosing(url) && !Stuck(url)
  {
    var u := UpToBlank(url);
    var k :| 0 <= k < |u| && u[k] == '?';
    assert url[k] == '?' && !IsClosing(u[k]);
  }

  lemma SecretsLast(front: seq<Part>, p: Part)
    requires !p.Hidden?
    ensures Secrets(front + [p]) == Secrets(front)
  {
    SecretsAppend(front, [p]);
    assert Secrets([p]) == [];
  }

  lemma SecretsPassword(rules: Rules, url: string, s: int, e: int, rest: seq<Part>)
    requires 0 <= s <= e <= |url|
    ensures Secrets(PasswordParts(rules, url, s, e) + rest) == (if rules.isMarker(url[s..e]) then [] else [url[s..e]]) + Secrets(rest)
  {
    var head := PasswordParts(rules, url, s, e);
    SecretsAppend(head, rest);
    assert head[1..] == [head[1]] && head[1..][1..] == [];
  }

  /** maskURLParameters: no answer exactly on the stuck texts; otherwise the parts
      spell the URL, the password of user:password@ is a part of its own, and the
      hidden parts are the secrets of the URL. */
  method MaskUrl(rules: Rules, url: string) returns (r: Option<seq<Part>>)
    ensures r.None? <==> Stuck(url)
    ensures r.Some? ==> Join(r.value) == url && HidesPassword(rules, url, r.value)
    ensures r.Some? ==> Secrets(r.value) == UrlSecrets(rules, url)
    decreases |url|
  {
    var password := Password(url);
    if password.Some? {
      var (s, e) := password.value;
      AfterPassword(url, e);
      var rest := MaskUrl(rules, url[e..]);
      JoinPassword(rules, url, s, e, rest.value);
      SecretsPassword(rules, url, s, e, rest.value);
      return Some(PasswordParts(rules, url, s, e) + rest.value);
    }
    var tail := ClosingTail(url);
    if '?' !in url {
      if tail < 0 {
        return None;
      }
      var path := MaskPath(rules, url[..tail]);
      JoinLast(path, Kept(url[tail..]), url, tail);
      SecretsLast(path, Kept(url[tail..]));
      return Some(path + [Kept(url[tail..])]);
    }
    if tail < |url| {
      TailKeepsStuck(url, tail);
      var front := MaskUrl(rules, url[..tail]);
      if front.None? {
        return None;
      }
      JoinLast(front.value, Kept(url[tail..]), url, tail);
      SecretsLast(front.value, Kept(url[tail..]));
      return Some(front.value + [Kept(url[tail..])]);
    }
    var i := FirstBlank(url);
    if i >= 0 {
      BlankKeepsStuck(url);
      var front := MaskUrl(rules, url[..i]);
      if front.None? {
        return None;
      }
      JoinLast(front.value, Rest(url[i..]), url, i);
      SecretsLast(front.value, Rest(url[i..]));
      return Some(front.value + [Rest(url[i..])]);
    }
    var out := MaskQuery(rules, url);
    return Some(out);
  }

  /** Without blanks, only text made of closing punctuation has no answer. */
  lemma StuckWithoutBlanks(url: string)
    requires FirstBlank(url) == -1
    ensures Stuck(url) <==> AllClosing(url)
  {
    if AllClosing(url) {
      assert '?' !in url;
      assert forall k :: !SchemeAt(url, k);
    }
  }

  /** Two texts with no answer: the empty one, and a blank before a query. */
  lemma StuckExamples()
    ensures Stuck("") && Stuck(" /a?x=1")
  {
    var s := " /a?x=1";
    assert s[3] == '?';
    assert forall k :: !SchemeAt(s, k);
    assert FirstBlank(s) == 0;
  }
}
