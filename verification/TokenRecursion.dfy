/** The mutual recursion of the token machinery: which call can make which, the
    depth it can reach, and how long a chain of calls can get. */
module TokenRecursion {
  import Tokenizer
  import UrlMask

  const MAX_DEPTH: int := 32

  /** A pending call, with the text it works on and its recursion depth. */
  datatype Call =
    | Line(text: string, depth: int)
    | Segment(text: string, depth: int, quote: Tokenizer.Quote)
    | UserAgent(text: string, depth: int)
    | Append(text: string, depth: int)
    | Logic(text: string, depth: int)
    | EqualPair(text: string, depth: int)
    | ColonPair(text: string, depth: int)
    | Url(text: string, depth: int)

  /** One call can make the other. A text handed on is part of the caller's, or
      a JSON string decoded from it, and never longer. */
  ghost predicate Calls(c: Call, d: Call) {
    && |d.text| <= |c.text|
    && match c
       case Line(_, n) => d.Segment? && d.depth == n
       case UserAgent(_, n) => d.Segment? && d.quote.Out? && d.depth == n
       case Segment(s, n, q) =>
         && d.Append? && d.depth == n
         && exists ps, end :: Tokenizer.Tokenizes(s, 0, 0, q, ps, end) && Tokenizer.Token(d.text) in ps
       case Append(t, n) => d == Logic(t, n)
       case Logic(t, n) =>
         && n <= MAX_DEPTH
         && (|| ((d.Logic? || d.Line? || d.UserAgent? || (d.Segment? && d.quote.Out?)) && d.depth == n + 1)
             || d == EqualPair(t, n) || d == ColonPair(t, n) || d == Url(t, n))
       case EqualPair(t, n) =>
         (d.Logic? || d.Line? || d.UserAgent? || (d.Segment? && d.quote.Out?)) && d.depth == n + 1
       case ColonPair(t, n) => d.Logic? && d.depth == n + 1
       case Url(u, n) => d.depth == n && UrlCalls(u, d)
  }

  /** maskURLParameters calls itself on a shorter text, and the tokenizer on the
      text from the first blank on. */
  ghost predicate UrlCalls(u: string, d: Call) {
    || (d.Url? && UrlMask.Password(u).Some? && d.text == u[UrlMask.Password(u).value.1..])
    || (d.Url? && exists tail :: 0 <= tail < |u| && d.text == u[..tail])
    || (UrlMask.FirstBlank(u) >= 0 && d.Segment? && d.quote.Out? && d.text == u[UrlMask.FirstBlank(u)..])
  }

  /** The longest token the call can still hand on. */
  function Weight(c: Call): nat {
    if c.Segment? && c.quote.Out? && c.text != "" && Tokenizer.IsSeparator(c.text[0]) then |c.text| - 1 else |c.text|
  }

  function Rank(c: Call): nat {
    match c
    case Line(_, _) => 5
    case UserAgent(_, _) => 5
    case Segment(_, _, _) => 4
    case Append(_, _) => 3
    case Logic(_, _) => 2
    case _ => 1
  }

  /** Calls made inside the depth bound stay inside it. */
  ghost predicate InBounds(c: Call) {
    0 <= c.depth <= MAX_DEPTH + 1 && (c.EqualPair? || c.ColonPair? || c.Url? ==> c.depth <= MAX_DEPTH)
  }

  /** The lexicographic measure (depth left, weight, rank), for texts of at most `n` characters. */
  function Measure(c: Call, n: nat): int {
    6 * ((MAX_DEPTH + 1 - c.depth) * (n + 1) + Weight(c)) + Rank(c)
  }

  lemma DepthStep(a: int, n: nat)
    ensures (a - 1) * (n + 1) + (n + 1) == a * (n + 1)
  {
  }

  /** A call one level deeper is smaller whatever its text. */
  lemma DeeperIsSmaller(c: Call, d: Call, n: nat)
    requires d.depth == c.depth + 1 && |d.text| <= n && 0 <= |c.text|
    requires Rank(d) <= 5
    ensures Measure(d, n) < Measure(c, n)
  {
    DepthStep(MAX_DEPTH + 1 - c.depth, n);
  }

  /** Tokens are no longer than their segment, and shorter behind a leading separator. */
  lemma TokenWeight(c: Call, d: Call)
    requires c.Segment? && Calls(c, d)
    ensures Weight(d) <= Weight(c)
  {
    var ps, end :| Tokenizer.Tokenizes(c.text, 0, 0, c.quote, ps, end) && Tokenizer.Token(d.text) in ps;
    Tokenizer.TokensAreWithin(c.text, 0, 0, c.quote, ps, end);
    if c.quote.Out? && c.text != "" && Tokenizer.IsSeparator(c.text[0]) {
      Tokenizer.LeadingSeparatorShortens(c.text, ps, end);
    }
  }

  lemma UrlWeight(c: Call, d: Call)
    requires c.Url? && Calls(c, d)
    ensures Weight(d) < Weight(c)
  {
    var i := UrlMask.FirstBlank(c.text);
    if d.Segment? { assert d.text[0] == c.text[i]; }
  }

  lemma SameDepth(c: Call, d: Call, n: nat)
    requires d.depth == c.depth
    requires Weight(d) < Weight(c) || (Weight(d) <= Weight(c) && Rank(d) < Rank(c))
    ensures Measure(d, n) < Measure(c, n)
  {
  }

  /** Every call shrinks the measure and stays within the depth bound. */
  lemma CallShrinks(c: Call, d: Call, n: nat)
    requires InBounds(c) && |c.text| <= n && Calls(c, d)
    ensures InBounds(d) && |d.text| <= n && Measure(d, n) < Measure(c, n)
  {
    if d.depth == c.depth + 1 {
      DeeperIsSmaller(c, d, n);
    } else if c.Url? {
      UrlWeight(c, d);
      SameDepth(c, d, n);
    } else {
      if c.Segment? { TokenWeight(c, d); }
      SameDepth(c, d, n);
    }
  }

  ghost predicate Chain(cs: seq<Call>) { forall i, j :: 0 <= i && j == i + 1 && j < |cs| ==> Calls(cs[i], cs[j]) }

  lemma {:induction false} ChainShrinks(cs: seq<Call>, n: nat, i: int)
    requires Chain(cs) && 0 <= i < |cs| && InBounds(cs[0]) && |cs[0].text| <= n
    ensures InBounds(cs[i]) && |cs[i].text| <= n && Measure(cs[i], n) <= Measure(cs[0], n) - i
    decreases i
  {
    if i > 0 {
      ChainShrinks(cs, n, i - 1);
      CallShrinks(cs[i - 1], cs[i], n);
    }
  }

  lemma MeasureIsPositive(c: Call, n: nat)
    requires InBounds(c)
    ensures Measure(c, n) >= 1
  {
    assert (MAX_DEPTH + 1 - c.depth) * (n + 1) >= 0;
  }

  /** Scanning a line: every chain of calls ends, no call is deeper than 33, and
      at most 204 calls are pending for each character of the line and one more. */
  lemma RecursionIsBounded(line: string, cs: seq<Call>)
    requires cs != [] && cs[0] == Line(line, 0) && Chain(cs)
    ensures forall i :: 0 <= i < |cs| ==> cs[i].depth <= MAX_DEPTH + 1 && |cs[i].text| <= |line|
    ensures |cs| <= 204 * (|line| + 1)
  {
    forall i | 0 <= i < |cs| ensures cs[i].depth <= MAX_DEPTH + 1 && |cs[i].text| <= |line| {
      ChainShrinks(cs, |line|, i);
    }
    ChainShrinks(cs, |line|, |cs| - 1);
    MeasureIsPositive(cs[|cs| - 1], |line|);
  }
}
