/** The complexity score of a token, and the bound by which the scanner skips
    parts of a compound. Scores are real numbers: rounding is not modelled.

    The logarithm, the character classes, the bigram table and the judgements
    about word shapes are the fields of a `Scorer`. */
module ScoreBound {
  datatype Scorer = Scorer(
    lg: nat -> real,
    upper: char -> bool, lower: char -> bool, digit: char -> bool, symbol: char -> bool,
    disableBigrams: bool, pair: (char, char) -> real,
    wordCompound: string -> bool, camelDigits: string -> bool, camelWords: string -> bool,
    indexedName: string -> bool)

  /** Base-two logarithm, as far as the bound needs it. */
  ghost predicate IsLog(lg: nat -> real) {
    lg(1) == 0.0 && forall m: nat, n: nat :: 1 <= m <= n ==> lg(m) <= lg(n)
  }

  // ---- lengths ----

  predicate IsAscii(c: char) { c as int < 128 }

  /** The bytes of one character in UTF-8. */
  function Width(c: char): nat {
    if c as int < 0x80 then 1 else if c as int < 0x800 then 2 else if c as int < 0x1_0000 then 3 else 4
  }

  function Bytes(s: string): nat { if s == "" then 0 else Bytes(s[..|s| - 1]) + Width(s[|s| - 1]) }

  lemma {:induction false} BytesCover(s: string)
    ensures Bytes(s) >= |s|
    decreases |s|
  {
    if s != "" {
      BytesCover(s[..|s| - 1]);
    }
  }

  lemma {:induction false} BytesAppend(s: string, t: string)
    ensures Bytes(s + t) == Bytes(s) + Bytes(t)
    decreases |t|
  {
    if t == "" {
      assert s + t == s;
    } else {
      assert (s + t)[..|s + t| - 1] == s + t[..|t| - 1];
      BytesAppend(s, t[..|t| - 1]);
    }
  }

  lemma CutInThree(s: string, i: nat, j: nat)
    requires i <= j <= |s|
    ensures s == s[..i] + (s[i..j] + s[j..])
  {
  }

  lemma BytesOfThree(a: string, b: string, c: string)
    ensures Bytes(b) <= Bytes(a + (b + c))
  {
    BytesAppend(a, b + c);
    BytesAppend(b, c);
  }

  lemma BytesInside(s: string, i: nat, j: nat)
    requires i <= j <= |s|
    ensures Bytes(s[i..j]) <= Bytes(s)
  {
    CutInThree(s, i, j);
    BytesOfThree(s[..i], s[i..j], s[j..]);
  }

  // ---- Shannon entropy ----

  /** What one occurrence of `c` adds to the entropy of `s`. */
  function Surprise(lg: nat -> real, s: string): char -> real
    requires s != ""
  {
    c => (lg(|s|) - lg(multiset(s)[c])) / |s| as real
  }

  /** `f` over the positions of `t` that hold a character in `seen`. */
  ghost function Sum(f: char -> real, t: string, seen: set<char>): real
    decreases |t|
  {
    if t == "" then 0.0 else Sum(f, t[..|t| - 1], seen) + (if t[|t| - 1] in seen then f(t[|t| - 1]) else 0.0)
  }

  ghost function Letters(s: string): set<char> { set c | c in s }

  /** Entropy: the mean surprise over all positions. */
  ghost function Entropy(lg: nat -> real, s: string): real {
    if s == "" then 0.0 else Sum(Surprise(lg, s), s, Letters(s))
  }

  lemma MultisetOfLast(t: string)
    requires t != ""
    ensures multiset(t) == multiset(t[..|t| - 1]) + multiset{t[|t| - 1]}
  {
    assert t == t[..|t| - 1] + [t[|t| - 1]];
  }

  ghost function Times(k: nat, d: real): real { if k == 0 then 0.0 else Times(k - 1, d) + d }

  lemma {:induction false} TimesIsProduct(k: nat, d: real)
    ensures Times(k, d) == k as real * d
    decreases k
  {
    if k > 0 {
      TimesIsProduct(k - 1, d);
      assert k as real == (k - 1) as real + 1.0;
      Distribute((k - 1) as real, d);
    }
  }

  lemma Distribute(a: real, d: real)
    ensures (a + 1.0) * d == a * d + d
  {
  }

  lemma {:induction false} SumAdd(f: char -> real, t: string, seen: set<char>, x: char)
    requires x !in seen
    ensures Sum(f, t, seen + {x}) == Sum(f, t, seen) + Times(multiset(t)[x], f(x))
    decreases |t|
  {
    if t != "" {
      SumAdd(f, t[..|t| - 1], seen, x);
      MultisetOfLast(t);
    }
  }

  lemma {:induction false} SumNothing(f: char -> real, t: string)
    ensures Sum(f, t, {}) == 0.0
    decreases |t|
  {
    if t != "" {
      SumNothing(f, t[..|t| - 1]);
    }
  }

  lemma Divided(k: real, n: real, d: real)
    requires n > 0.0
    ensures k / n * d == k * (d / n)
  {
  }

  lemma SurpriseIsBounded(lg: nat -> real, s: string, c: char)
    requires IsLog(lg) && s != "" && c in s
    ensures 0.0 <= Surprise(lg, s)(c) <= lg(|s|) / |s| as real
  {
    var k := multiset(s)[c];
    assert c in multiset(s) && k >= 1;
    CountWithin(s, c);
    assert lg(1) <= lg(k) <= lg(|s|);
    Divide(lg(|s|) - lg(k), lg(|s|), |s| as real);
  }

  lemma {:induction false} CountWithin(s: string, c: char)
    ensures multiset(s)[c] <= |s|
    decreases |s|
  {
    if s != "" {
      MultisetOfLast(s);
      CountWithin(s[..|s| - 1], c);
    }
  }

  lemma Divide(a: real, b: real, n: real)
    requires 0.0 <= a <= b && n > 0.0
    ensures 0.0 <= a / n <= b / n
  {
  }

  lemma {:induction false} SumIsBounded(lg: nat -> real, s: string, t: string, seen: set<char>)
    requires IsLog(lg) && s != "" && forall c :: c in t ==> c in s
    ensures 0.0 <= Sum(Surprise(lg, s), t, seen) <= |t| as real * (lg(|s|) / |s| as real)
    decreases |t|
  {
    assert lg(1) <= lg(|s|);
    Divide(0.0, lg(|s|), |s| as real);
    if t != "" {
      SumIsBounded(lg, s, t[..|t| - 1], seen);
      SurpriseIsBounded(lg, s, t[|t| - 1]);
      Distribute((|t| - 1) as real, lg(|s|) / |s| as real);
      assert |t| as real == (|t| - 1) as real + 1.0;
    }
  }

  /** Entropy never exceeds the logarithm of the number of characters. */
  lemma EntropyIsBounded(lg: nat -> real, s: string)
    requires IsLog(lg) && s != ""
    ensures 0.0 <= Entropy(lg, s) <= lg(|s|)
  {
    SumIsBounded(lg, s, s, Letters(s));
    Whole(lg(|s|), |s| as real);
  }

  /** The bound is tight: distinct characters reach it. */
  lemma DistinctReachesBound(lg: nat -> real, s: string)
    requires IsLog(lg) && s != "" && forall i, j :: 0 <= i < j < |s| ==> s[i] != s[j]
    ensures Entropy(lg, s) == lg(|s|)
  {
    DistinctSum(lg, s, |s|);
    assert s[..|s|] == s;
    TimesIsProduct(|s|, lg(|s|) / |s| as real);
    Whole(lg(|s|), |s| as real);
  }

  lemma {:induction false} DistinctSum(lg: nat -> real, s: string, k: nat)
    requires IsLog(lg) && s != "" && k <= |s| && forall i, j :: 0 <= i < j < |s| ==> s[i] != s[j]
    ensures Sum(Surprise(lg, s), s[..k], Letters(s)) == Times(k, lg(|s|) / |s| as real)
    decreases k
  {
    if k > 0 {
      DistinctSum(lg, s, k - 1);
      assert s[..k][..k - 1] == s[..k - 1];
      OccursOnce(s, k - 1);
    }
  }

  lemma OccursOnce(s: string, k: nat)
    requires k < |s| && forall i, j :: 0 <= i < j < |s| ==> s[i] != s[j]
    ensures multiset(s)[s[k]] == 1
  {
    assert s == s[..k] + [s[k]] + s[k + 1..];
    assert s[k] !in s[..k] && s[k] !in s[k + 1..];
    assert s[k] !in multiset(s[..k]) && s[k] !in multiset(s[k + 1..]);
  }

  lemma Whole(a: real, n: real)
    requires n > 0.0
    ensures n * (a / n) == a
  {
  }

  method CountAscii(token: string) returns (ascii: bool, counts: seq<nat>)
    ensures |counts| == 128
    ensures ascii <==> forall c :: c in token ==> IsAscii(c)
    ensures ascii ==> forall b: nat :: b < 128 ==> counts[b] == multiset(token)[b as char]
  {
    var table := new nat[128](_ => 0);
    for i := 0 to |token|
      invariant forall k :: 0 <= k < i ==> IsAscii(token[k])
      invariant forall b: nat :: b < 128 ==> table[b] == multiset(token[..i])[b as char]
    {
      if !IsAscii(token[i]) {
        assert token[i] in token;
        return false, table[..];
      }
      assert token[..i + 1] == token[..i] + [token[i]];
      table[token[i] as int] := table[token[i] as int] + 1;
    }
    assert token[..|token|] == token;
    ascii, counts := true, table[..];
  }

  ghost function Below(k: nat): set<char>
    requires k <= 128
  {
    if k == 0 then {} else Below(k - 1) + {(k - 1) as char}
  }

  lemma {:induction false} BelowHolds(k: nat, c: char)
    requires k <= 128
    ensures c in Below(k) <==> c as int < k
    decreases k
  {
    if k > 0 {
      BelowHolds(k - 1, c);
    }
  }

  /** Only characters of `t` matter. */
  lemma {:induction false} SumOfSame(f: char -> real, t: string, a: set<char>, b: set<char>)
    requires forall c :: c in t ==> (c in a <==> c in b)
    ensures Sum(f, t, a) == Sum(f, t, b)
    decreases |t|
  {
    if t != "" {
      SumOfSame(f, t[..|t| - 1], a, b);
      assert t[|t| - 1] in t;
    }
  }

  /** One distinct character, added with its count. */
  method AddLetter(lg: nat -> real, s: string, count: nat, c: char, ghost seen: set<char>, before: real)
    returns (entropy: real)
    requires s != "" && c !in seen && count == multiset(s)[c] && before == Sum(Surprise(lg, s), s, seen)
    ensures entropy == Sum(Surprise(lg, s), s, seen + {c})
  {
    LetterAdds(lg, s, count, c, seen);
    entropy := before - Share(lg, count, |s|);
  }

  /** What `k` of `n` characters take from the entropy. */
  function Share(lg: nat -> real, k: nat, n: nat): real
    requires n > 0
  {
    k as real / n as real * (lg(k) - lg(n))
  }

  lemma LetterAdds(lg: nat -> real, s: string, count: nat, c: char, seen: set<char>)
    requires s != "" && c !in seen && count == multiset(s)[c]
    ensures Sum(Surprise(lg, s), s, seen + {c}) == Sum(Surprise(lg, s), s, seen) - Share(lg, count, |s|)
  {
    var f, share := Surprise(lg, s), Share(lg, count, |s|);
    assert Times(count, f(c)) == -share by {
      Contribution(lg, s, count, c);
    }
    SumAdd(f, s, seen, c);
  }

  lemma Contribution(lg: nat -> real, s: string, count: nat, c: char)
    requires s != "" && count == multiset(s)[c]
    ensures Times(count, Surprise(lg, s)(c)) == -Share(lg, count, |s|)
  {
    var d := Surprise(lg, s)(c);
    TimesIsProduct(count, d);
    Shares(count as real, |s| as real, lg(count), lg(|s|));
  }

  lemma Shares(k: real, n: real, a: real, b: real)
    requires n > 0.0
    ensures -(k / n * (a - b)) == k * ((b - a) / n)
  {
    Divided(k, n, b - a);
    assert k / n * (a - b) == -(k / n * (b - a));
  }

  /** calculateShannon: both of its counting paths compute the entropy. */
  method CalculateShannon(lg: nat -> real, token: string) returns (entropy: real)
    ensures entropy == Entropy(lg, token)
  {
    if token == "" {
      return 0.0;
    }
    var ascii, counts := CountAscii(token);
    SumNothing(Surprise(lg, token), token);
    if ascii {
      entropy := 0.0;
      for b := 0 to 128
        invariant entropy == Sum(Surprise(lg, token), token, Below(b))
      {
        BelowHolds(b, b as char);
        if counts[b] != 0 {
          entropy := AddLetter(lg, token, counts[b], b as char, Below(b), entropy);
        } else {
          AbsentAddsNothing(lg, token, Below(b), b as char);
        }
      }
      AllAscii(token);
      SumOfSame(Surprise(lg, token), token, Below(128), Letters(token));
    } else {
      entropy := UnicodeEntropy(lg, token);
    }
  }

  lemma AbsentAddsNothing(lg: nat -> real, s: string, seen: set<char>, c: char)
    requires s != "" && c !in seen && multiset(s)[c] == 0
    ensures Sum(Surprise(lg, s), s, seen + {c}) == Sum(Surprise(lg, s), s, seen)
  {
    SumAdd(Surprise(lg, s), s, seen, c);
  }

  lemma AllAscii(s: string)
    requires forall c :: c in s ==> IsAscii(c)
    ensures forall c :: c in s ==> (c in Below(128) <==> c in Letters(s))
  {
    forall c | c in s
      ensures c in Below(128)
    {
      BelowHolds(128, c);
    }
  }

  /** The map of counts, visited in any order. */
  method UnicodeEntropy(lg: nat -> real, token: string) returns (entropy: real)
    requires token != ""
    ensures entropy == Entropy(lg, token)
  {
    var freq: map<char, nat> := map[];
    for i := 0 to |token|
      invariant forall c :: c in freq <==> c in token[..i]
      invariant forall c :: c in freq ==> freq[c] == multiset(token[..i])[c]
    {
      var c := token[i];
      assert token[..i + 1] == token[..i] + [c];
      freq := freq[c := (if c in freq then freq[c] else 0) + 1];
    }
    assert token[..|token|] == token;
    entropy := 0.0;
    var left := freq.Keys;
    ghost var seen := {};
    SumNothing(Surprise(lg, token), token);
    while exists c :: c in left
      invariant left <= freq.Keys && seen == freq.Keys - left
      invariant entropy == Sum(Surprise(lg, token), token, seen)
      decreases |left|
    {
      var c :| c in left;
      entropy := AddLetter(lg, token, freq[c], c, seen, entropy);
      left := left - {c};
      seen := seen + {c};
    }
    assert left == {};
    assert seen == Letters(token);
  }

  // ---- class bonus ----

  function One(b: bool): nat { if b then 1 else 0 }

  ghost predicate Some(p: char -> bool, s: string) { exists c :: c in s && p(c) }

  /** Half a point for every character class after the first. */
  ghost function Bonus(st: Scorer, s: string): real {
    var classes := One(Some(st.upper, s)) + One(Some(st.lower, s)) + One(Some(st.digit, s)) + One(Some(st.symbol, s));
    if classes > 1 then (classes - 1) as real * 0.5 else 0.0
  }

  lemma SomeNext(p: char -> bool, s: string, i: nat)
    requires i < |s|
    ensures Some(p, s[..i + 1]) <==> Some(p, s[..i]) || p(s[i])
  {
    var front, next := s[..i], s[..i + 1];
    assert next == front + [s[i]];
    if c :| c in front && p(c) {
      assert c in next;
    }
    if p(s[i]) {
      assert s[i] in next;
    }
  }

  /** calculateClassBonus. */
  method CalculateClassBonus(st: Scorer, token: string) returns (bonus: real)
    ensures bonus == Bonus(st, token)
  {
    var hasUpper, hasLower, hasDigit, hasSymbol := false, false, false, false;
    for i := 0 to |token|
      invariant hasUpper <==> Some(st.upper, token[..i])
      invariant hasLower <==> Some(st.lower, token[..i])
      invariant hasDigit <==> Some(st.digit, token[..i])
      invariant hasSymbol <==> Some(st.symbol, token[..i])
    {
      SomeNext(st.upper, token, i);
      SomeNext(st.lower, token, i);
      SomeNext(st.digit, token, i);
      SomeNext(st.symbol, token, i);
      hasUpper := hasUpper || st.upper(token[i]);
      hasLower := hasLower || st.lower(token[i]);
      hasDigit := hasDigit || st.digit(token[i]);
      hasSymbol := hasSymbol || st.symbol(token[i]);
    }
    assert token[..|token|] == token;
    var classes := One(hasUpper) + One(hasLower) + One(hasDigit) + One(hasSymbol);
    bonus := if classes > 1 then (classes - 1) as real * 0.5 else 0.0;
  }

  lemma BonusIsBounded(st: Scorer, s: string)
    ensures 0.0 <= Bonus(st, s) <= 1.5
  {
  }

  // ---- bigrams ----

  function LowerAscii(c: char): char { if 'A' <= c <= 'Z' then (c as int + 32) as char else c }

  /** Position `i` and the one before it hold ASCII characters. */
  predicate IsPair(s: string, i: int)
    requires 0 <= i < |s|
  {
    i > 0 && IsAscii(s[i - 1]) && IsAscii(s[i])
  }

  function Pairs(s: string, i: nat): nat
    requires i <= |s|
  {
    if i == 0 then 0 else Pairs(s, i - 1) + (if IsPair(s, i - 1) then 1 else 0)
  }

  function PairSum(st: Scorer, s: string, i: nat): real
    requires i <= |s|
  {
    if i == 0 then 0.0
    else PairSum(st, s, i - 1) + (if IsPair(s, i - 1) then st.pair(LowerAscii(s[i - 2]), LowerAscii(s[i - 1])) else 0.0)
  }

  /** English pairs lower the score, unlikely ones raise it. */
  function Adjustment(st: Scorer, s: string): real {
    if st.disableBigrams || Bytes(s) <= 3 || Pairs(s, |s|) == 0 then 0.0
    else
      var mean := PairSum(st, s, |s|) / Pairs(s, |s|) as real;
      if mean > -5.8 then -1.5 else if mean < -7.0 then 0.5 else 0.0
  }

  /** The byte loop for pure ASCII tokens. */
  method SumAsciiPairs(st: Scorer, token: string) returns (sum: real, count: nat)
    requires token != "" && forall c :: c in token ==> IsAscii(c)
    ensures sum == PairSum(st, token, |token|) && count == Pairs(token, |token|)
  {
    sum, count := 0.0, 0;
    var prev := LowerAscii(token[0]);
    for i := 1 to |token|
      invariant prev == LowerAscii(token[i - 1]) && count == Pairs(token, i)
      invariant sum == PairSum(st, token, i)
    {
      assert token[i - 1] in token && token[i] in token;
      var cur := LowerAscii(token[i]);
      sum := sum + st.pair(prev, cur);
      count := count + 1;
      prev := cur;
    }
  }

  /** The rune loop, which restarts after every non-ASCII character. */
  method SumRunePairs(st: Scorer, token: string) returns (sum: real, count: nat)
    ensures sum == PairSum(st, token, |token|) && count == Pairs(token, |token|)
  {
    sum, count := 0.0, 0;
    var prev, havePrev := ' ', false;
    for i := 0 to |token|
      invariant havePrev <==> i > 0 && IsAscii(token[i - 1])
      invariant havePrev ==> prev == LowerAscii(token[i - 1])
      invariant count == Pairs(token, i) && sum == PairSum(st, token, i)
    {
      if !IsAscii(token[i]) {
        havePrev := false;
      } else {
        var cur := LowerAscii(token[i]);
        if havePrev {
          sum := sum + st.pair(prev, cur);
          count := count + 1;
        }
        prev, havePrev := cur, true;
      }
    }
  }

  method AllAsciiChars(token: string) returns (b: bool)
    ensures b <==> forall c :: c in token ==> IsAscii(c)
  {
    for i := 0 to |token|
      invariant forall k :: 0 <= k < i ==> IsAscii(token[k])
    {
      if !IsAscii(token[i]) {
        assert token[i] in token;
        return false;
      }
    }
    b := true;
  }

  /** calculateBigramAdjustment: both loops see the same pairs. */
  method CalculateBigramAdjustment(st: Scorer, token: string) returns (r: real)
    ensures r == Adjustment(st, token)
  {
    if st.disableBigrams || Bytes(token) <= 3 {
      return 0.0;
    }
    var sum, count;
    var ascii := AllAsciiChars(token);
    if ascii {
      sum, count := SumAsciiPairs(st, token);
    } else {
      sum, count := SumRunePairs(st, token);
    }
    r := 0.0;
    if count > 0 {
      var mean := sum / count as real;
      if mean > -5.8 {
        r := -1.5;
      } else if mean < -7.0 {
        r := 0.5;
      }
    }
  }

  // ---- one run of characters ----

  ghost function Raw(st: Scorer, s: string): real {
    if s == "" then 0.0 else Entropy(st.lg, s) + Bonus(st, s) + Adjustment(st, s)
  }

  /** calculateRawComplexity. */
  method CalculateRawComplexity(st: Scorer, token: string) returns (r: real)
    ensures r == Raw(st, token)
  {
    if token == "" {
      return 0.0;
    }
    var entropy := CalculateShannon(st.lg, token);
    var bonus := CalculateClassBonus(st, token);
    var bigrams := CalculateBigramAdjustment(st, token);
    r := entropy + bonus + bigrams;
  }

  /** The bound on a run: the logarithm of its byte length, plus two. */
  lemma RawIsBounded(st: Scorer, s: string)
    requires IsLog(st.lg) && s != ""
    ensures Raw(st, s) <= st.lg(Bytes(s)) + 2.0
  {
    EntropyIsBounded(st.lg, s);
    BonusIsBounded(st, s);
    BytesCover(s);
    assert st.lg(|s|) <= st.lg(Bytes(s));
  }

  // ---- camelCase words ----

  /** The index of the next capital after `j`, or the end. */
  function CamelEnd(s: string, j: nat): (e: nat)
    requires j <= |s|
    ensures j <= e <= |s|
    decreases |s| - j
  {
    if j < |s| && !('A' <= s[j] <= 'Z') then CamelEnd(s, j + 1) else j
  }

  function CamelParts(s: string, i: nat): (ps: seq<string>)
    requires i <= |s|
    decreases |s| - i
  {
    if i == |s| then [] else [s[i..CamelEnd(s, i + 1)]] + CamelParts(s, CamelEnd(s, i + 1))
  }

  /** nextCamelPart. */
  method NextCamelPart(token: string, i: nat) returns (part: string, next: nat)
    requires i <= |token|
    ensures next == (if i == |token| then i else CamelEnd(token, i + 1)) && part == token[i..next]
  {
    if i >= |token| {
      return "", |token|;
    }
    var j := i + 1;
    while j < |token| && (token[j] < 'A' || token[j] > 'Z')
      invariant i < j <= |token| && CamelEnd(token, j) == CamelEnd(token, i + 1)
    {
      j := j + 1;
    }
    return token[i..j], j;
  }

  /** The largest of zero and the scores of all parts. */
  ghost function Best(score: string -> real, ps: seq<string>, best: real): real {
    if ps == [] then best else Best(score, ps[1..], if score(ps[0]) > best then score(ps[0]) else best)
  }

  /** The value is reached by a part or is the start value, and no part scores more. */
  lemma {:induction false} BestIsMaximum(score: string -> real, ps: seq<string>, best: real)
    ensures best <= Best(score, ps, best) && forall p :: p in ps ==> score(p) <= Best(score, ps, best)
    ensures Best(score, ps, best) == best || exists p :: p in ps && score(p) == Best(score, ps, best)
    decreases |ps|
  {
    if ps != [] {
      assert ps == [ps[0]] + ps[1..];
      assert ps[0] in ps;
      BestIsMaximum(score, ps[1..], if score(ps[0]) > best then score(ps[0]) else best);
    }
  }

  ghost function RawOf(st: Scorer): string -> real { s => Raw(st, s) }

  ghost function CamelScore(st: Scorer, s: string): real { Best(RawOf(st), CamelParts(s, 0), 0.0) }

  /** camelPartsComplexity. */
  method CamelPartsComplexity(st: Scorer, token: string) returns (best: real)
    ensures best == CamelScore(st, token)
  {
    best := 0.0;
    var p, next := NextCamelPart(token, 0);
    ghost var at: nat := 0;
    while p != ""
      invariant at <= |token| && next == (if at == |token| then at else CamelEnd(token, at + 1))
      invariant p == token[at..next]
      invariant Best(RawOf(st), CamelParts(token, at), best) == CamelScore(st, token)
      decreases |token| - at
    {
      var s := CalculateRawComplexity(st, p);
      assert CamelParts(token, at)[1..] == CamelParts(token, next);
      if s > best {
        best := s;
      }
      at := next;
      p, next := NextCamelPart(token, next);
    }
  }

  lemma {:induction false} CamelPartsInside(s: string, i: nat, p: string)
    requires i <= |s| && p in CamelParts(s, i)
    ensures p != "" && Bytes(p) <= Bytes(s)
    decreases |s| - i
  {
    var e := CamelEnd(s, i + 1);
    if p == s[i..e] {
      BytesInside(s, i, e);
    } else {
      CamelPartsInside(s, e, p);
    }
  }

  lemma {:induction false} BestIsBounded(score: string -> real, ps: seq<string>, best: real, bound: real)
    requires best <= bound && forall p :: p in ps ==> score(p) <= bound
    ensures best <= Best(score, ps, best) <= bound
    decreases |ps|
  {
    if ps != [] {
      assert ps[0] in ps;
      BestIsBounded(score, ps[1..], if score(ps[0]) > best then score(ps[0]) else best, bound);
    }
  }

  lemma CamelIsBounded(st: Scorer, s: string)
    requires IsLog(st.lg) && s != ""
    ensures CamelScore(st, s) <= st.lg(Bytes(s)) + 2.0
  {
    BytesCover(s);
    assert st.lg(1) <= st.lg(Bytes(s));
    forall p | p in CamelParts(s, 0)
      ensures RawOf(st)(p) <= st.lg(Bytes(s)) + 2.0
    {
      CamelPartsInside(s, 0, p);
      RawIsBounded(st, p);
      BytesCover(p);
      assert st.lg(Bytes(p)) <= st.lg(Bytes(s));
    }
    BestIsBounded(RawOf(st), CamelParts(s, 0), 0.0, st.lg(Bytes(s)) + 2.0);
  }

  // ---- compounds ----

  predicate IsJoint(c: char) { c == '-' || c == '.' || c == '_' || c == '/' }

  function RunEnd(s: string, j: nat): (e: nat)
    requires j <= |s|
    ensures j <= e <= |s|
    decreases |s| - j
  {
    if j < |s| && !IsJoint(s[j]) then RunEnd(s, j + 1) else j
  }

  /** The non-empty parts between joints. */
  function CompoundParts(s: string, i: nat): (ps: seq<string>)
    requires i <= |s|
    ensures forall p :: p in ps ==> p != ""
    decreases |s| - i
  {
    if i == |s| then []
    else if IsJoint(s[i]) then CompoundParts(s, i + 1)
    else
      var e := RunEnd(s, i);
      [s[i..e]] + (if e == |s| then [] else CompoundParts(s, e + 1))
  }

  /** nextCompoundPart: the first remaining part, and where the rest starts. */
  method NextCompoundPart(token: string, from: nat) returns (part: string, next: nat)
    requires from <= |token| + 1
    ensures next <= |token| + 1
    ensures
      var rest := if from > |token| then [] else CompoundParts(token, from);
      && (part == "" <==> rest == [])
      && (part != "" ==>
        && from < next && part == rest[0]
        && rest[1..] == if next > |token| then [] else CompoundParts(token, next))
  {
    var i := from;
    while i < |token|
      invariant from <= i <= |token| + 1
      invariant i <= |token| ==> CompoundParts(token, i) == CompoundParts(token, from)
      invariant i > |token| ==> from == i
    {
      var start := i;
      while i < |token| && !IsJoint(token[i])
        invariant start <= i <= |token| && RunEnd(token, i) == RunEnd(token, start)
      {
        i := i + 1;
      }
      if i > start {
        return token[start..i], i + 1;
      }
      i := i + 1;
    }
    return "", |token|;
  }

  ghost function PartScore(st: Scorer, part: string, dotted: bool): real {
    if st.camelDigits(part) || (dotted && st.camelWords(part)) then CamelScore(st, part) else Raw(st, part)
  }

  /** partComplexity. */
  method PartComplexity(st: Scorer, part: string, dotted: bool) returns (r: real)
    ensures r == PartScore(st, part, dotted)
  {
    if st.camelDigits(part) || (dotted && st.camelWords(part)) {
      r := CamelPartsComplexity(st, part);
    } else {
      r := CalculateRawComplexity(st, part);
    }
  }

  /** Whatever the word tests answer, no part scores above its bound. */
  lemma PartIsBounded(st: Scorer, part: string, dotted: bool)
    requires IsLog(st.lg) && part != ""
    ensures PartScore(st, part, dotted) <= st.lg(Bytes(part)) + 2.0
  {
    CamelIsBounded(st, part);
    RawIsBounded(st, part);
  }

  predicate HasNone(s: string, cs: set<char>) { forall i :: 0 <= i < |s| ==> s[i] !in cs }

  predicate Dotted(st: Scorer, token: string) { HasNone(token, {'-', '_', '/'}) || st.indexedName(token) }

  ghost function PartOf(st: Scorer, dotted: bool): string -> real { p => PartScore(st, p, dotted) }

  /** The score of a token with every part of a compound scored. */
  ghost function Complexity(st: Scorer, token: string): real {
    if st.wordCompound(token) then Best(PartOf(st, Dotted(st, token)), CompoundParts(token, 0), 0.0)
    else if st.camelDigits(token) || (HasNone(token, {'-', '.', '_', '/'}) && st.camelWords(token)) then
      CamelScore(st, token)
    else Raw(st, token)
  }

  /** A compound scores as its best part does, and never below zero. */
  lemma CompoundIsMaximum(st: Scorer, token: string)
    requires st.wordCompound(token)
    ensures var r, ps, dotted := Complexity(st, token), CompoundParts(token, 0), Dotted(st, token);
      && 0.0 <= r && (forall p :: p in ps ==> PartScore(st, p, dotted) <= r)
      && (r == 0.0 || exists p :: p in ps && PartScore(st, p, dotted) == r)
  {
    var ps, dotted := CompoundParts(token, 0), Dotted(st, token);
    BestIsMaximum(PartOf(st, dotted), ps, 0.0);
    assert forall p :: p in ps ==> PartOf(st, dotted)(p) == PartScore(st, p, dotted);
  }

  const TABLE: nat := 256

  /** calculateComplexity: skipping a part whose bound cannot beat the best
      part so far never changes the score. */
  method CalculateComplexity(st: Scorer, token: string) returns (best: real)
    requires IsLog(st.lg)
    ensures best == Complexity(st, token)
  {
    if !st.wordCompound(token) {
      if st.camelDigits(token) || (HasNone(token, {'-', '.', '_', '/'}) && st.camelWords(token)) {
        best := CamelPartsComplexity(st, token);
      } else {
        best := CalculateRawComplexity(st, token);
      }
      return;
    }
    best := 0.0;
    var dotted := Dotted(st, token);
    ghost var rest := CompoundParts(token, 0);
    var part, next := NextCompoundPart(token, 0);
    while part != ""
      invariant 0 <= next <= |token| + 1 && (part == "" <==> rest == [])
      invariant part != "" ==> part == rest[0] && rest[1..] == if next > |token| then [] else CompoundParts(token, next)
      invariant Best(PartOf(st, dotted), rest, best) == Complexity(st, token)
      decreases |rest|
    {
      best := ScorePart(st, part, dotted, best);
      rest := rest[1..];
      part, next := NextCompoundPart(token, next);
    }
  }

  /** One turn of the loop: skipped or scored, the best part so far is the same. */
  method ScorePart(st: Scorer, part: string, dotted: bool, before: real) returns (best: real)
    requires IsLog(st.lg) && part != ""
    ensures best == if PartScore(st, part, dotted) > before then PartScore(st, part, dotted) else before
  {
    best := before;
    PartIsBounded(st, part, dotted);
    if Bytes(part) < TABLE && st.lg(Bytes(part)) + 2.0 <= best {
      return;
    }
    var s := PartComplexity(st, part, dotted);
    if s > best {
      best := s;
    }
  }
}
