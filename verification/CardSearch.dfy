/** Card numbers in a line: the issuer table, the checksum, the windowed search
    whose run end only moves forward, and the merge of its ranges.

    The boundary test reads Unicode tables and is a parameter. */
module CardSearch {
  import opened Common

  datatype Range = Range(start: int, end: int)

  type Boundary = (string, int, int) -> bool

  /** isValidBoundary, for a notion of letters and digits: the range lies inside no
      word and no larger number. */
  predicate StandsAlone(letter: char -> bool, digit: char -> bool, line: string, start: int, end: int)
    requires 0 <= start <= end <= |line|
  {
    && (start > 0 ==>
      var r := line[start - 1];
      && !letter(r) && !digit(r)
      && ((r == '-' || r == '.') && start > 1 ==> !letter(line[start - 2]) && !(r == '.' && digit(line[start - 2]))))
    && (end < |line| ==>
      var r := line[end];
      && !letter(r) && !digit(r)
      && ((r == '-' || r == '.') && end + 1 < |line| ==> !letter(line[end + 1]) && !(r == '.' && digit(line[end + 1]))))
  }

  function ValueOf(c: char): int { c as int - '0' as int }

  const MIN_LENGTH: int := 13
  const MAX_LENGTH: int := 19

  // ---- the checksum of ISO/IEC 7812-1 ----

  type Digits = seq<int>

  ghost predicate AreDigits(ds: Digits) { forall i :: 0 <= i < |ds| ==> 0 <= ds[i] <= 9 }

  /** What a digit adds: itself, or the digit sum of its double. */
  function Weighted(d: int, doubled: bool): int {
    if !doubled then d else if 2 * d > 9 then 2 * d - 9 else 2 * d
  }

  /** The checksum read from the left: every second digit from the right is doubled. */
  function LuhnSum(ds: Digits): int {
    if ds == [] then 0 else Weighted(ds[0], |ds| % 2 == 0) + LuhnSum(ds[1..])
  }

  predicate LuhnValid(ds: Digits) { LuhnSum(ds) % 10 == 0 }

  lemma {:induction false} LuhnSumSplit(ds: Digits, k: nat)
    requires k < |ds|
    ensures LuhnSum(ds[k..]) == Weighted(ds[k], (|ds| - k) % 2 == 0) + LuhnSum(ds[k + 1..])
  {
    assert ds[k..][1..] == ds[k + 1..];
  }

  /** validLuhnFromIndices: the same sum, taken from the right. */
  method CheckLuhn(ds: Digits) returns (ok: bool)
    ensures ok == LuhnValid(ds)
  {
    var sum, alternate := 0, false;
    var i := |ds| - 1;
    while i >= 0
      invariant -1 <= i < |ds|
      invariant sum == LuhnSum(ds[i + 1..])
      invariant alternate == ((|ds| - 1 - i) % 2 == 1)
    {
      LuhnSumSplit(ds, i);
      var digit := ds[i];
      if alternate {
        digit := digit * 2;
        if digit > 9 {
          digit := digit - 9;
        }
      }
      sum := sum + digit;
      alternate := !alternate;
      i := i - 1;
    }
    assert ds[0..] == ds;
    ok := sum % 10 == 0;
  }

  /** The digit sum of a number below 100. */
  function DigitSum(x: int): int { x / 10 + x % 10 }

  /** The checksum as ISO/IEC 7812-1 describes it, from the `i`-th digit from the right
      on: every second digit counts with the digit sum of its double. */
  function SumFromRight(ds: Digits, i: nat): int
    requires i <= |ds|
    decreases |ds| - i
  {
    if i == |ds| then 0
    else
      var d := ds[|ds| - 1 - i];
      (if i % 2 == 0 then d else DigitSum(2 * d)) + SumFromRight(ds, i + 1)
  }

  lemma {:induction false} WeightIsDigitSum(d: int, i: nat)
    requires 0 <= d <= 9
    ensures Weighted(d, (i + 1) % 2 == 0) == if i % 2 == 0 then d else DigitSum(2 * d)
  {
  }

  lemma {:induction false} SumOfAll(ds: Digits, i: nat)
    requires AreDigits(ds) && i <= |ds|
    ensures SumFromRight(ds, i) == LuhnSum(ds) - LuhnSum(ds[|ds| - i..])
    decreases |ds| - i
  {
    if i == |ds| {
      assert ds[0..] == ds;
    } else {
      var k := |ds| - 1 - i;
      SumOfAll(ds, i + 1);
      LuhnSumSplit(ds, k);
      WeightIsDigitSum(ds[k], i);
    }
  }

  /** The sum read from the left is the standard's. */
  lemma LuhnIsStandard(ds: Digits)
    requires AreDigits(ds)
    ensures LuhnSum(ds) == SumFromRight(ds, 0)
  {
    SumOfAll(ds, 0);
  }

  /** Every number has exactly one check digit. */
  lemma CheckDigitIsUnique(ds: Digits) returns (d: int)
    requires AreDigits(ds)
    ensures 0 <= d <= 9 && LuhnValid(ds + [d])
    ensures forall x :: 0 <= x <= 9 && x != d ==> !LuhnValid(ds + [x])
  {
    var zero := ds + [0];
    d := (10 - LuhnSum(zero) % 10) % 10;
    assert zero[|ds| := d] == ds + [d];
    LuhnSumUpdate(zero, |ds|, d);
    forall x | 0 <= x <= 9 && x != d ensures !LuhnValid(ds + [x]) {
      assert (ds + [d])[|ds| := x] == ds + [x];
      OneDigitChangesLuhn(ds + [d], |ds|, x);
    }
  }

  lemma {:induction false} LuhnSumUpdate(ds: Digits, k: nat, d: int)
    requires k < |ds|
    ensures LuhnSum(ds[k := d]) == LuhnSum(ds) - Weighted(ds[k], (|ds| - k) % 2 == 0) + Weighted(d, (|ds| - k) % 2 == 0)
    decreases |ds|
  {
    if k > 0 {
      assert ds[k := d][1..] == ds[1..][k - 1 := d];
      LuhnSumUpdate(ds[1..], k - 1, d);
    } else {
      assert ds[0 := d][1..] == ds[1..];
    }
  }

  /** The checksum notices every change of one digit. */
  lemma OneDigitChangesLuhn(ds: Digits, k: nat, d: int)
    requires AreDigits(ds) && k < |ds| && 0 <= d <= 9 && d != ds[k] && LuhnValid(ds)
    ensures !LuhnValid(ds[k := d])
  {
    var doubled := (|ds| - k) % 2 == 0;
    LuhnSumUpdate(ds, k, d);
    WeightsDiffer(ds[k], d, doubled);
    NotBothMultiples(LuhnSum(ds), Weighted(d, doubled) - Weighted(ds[k], doubled));
  }

  lemma WeightsDiffer(x: int, y: int, doubled: bool)
    requires 0 <= x <= 9 && 0 <= y <= 9 && x != y
    ensures Weighted(x, doubled) != Weighted(y, doubled)
    ensures 0 <= Weighted(x, doubled) <= 9 && 0 <= Weighted(y, doubled) <= 9
  {
  }

  lemma NotBothMultiples(sum: int, change: int)
    requires sum % 10 == 0 && change != 0 && -9 <= change <= 9
    ensures (sum + change) % 10 != 0
  {
  }

  // ---- issuers ----

  datatype Issuer = Issuer(lo: int, hi: int, digits: int, lengths: set<int>)

  const ISSUERS: seq<Issuer> := [
    Issuer(4, 4, 1, {13, 16, 19}),
    Issuer(51, 55, 2, {16}),
    Issuer(2221, 2720, 4, {16}),
    Issuer(34, 34, 2, {15}),
    Issuer(37, 37, 2, {15}),
    Issuer(6011, 6011, 4, {16, 19}),
    Issuer(622126, 622925, 6, {16, 19}),
    Issuer(644, 649, 3, {16, 19}),
    Issuer(65, 65, 2, {16, 19}),
    Issuer(3528, 3589, 4, {16, 17, 18, 19}),
    Issuer(300, 305, 3, {14, 15, 16, 17, 18, 19}),
    Issuer(36, 36, 2, {14, 15, 16, 17, 18, 19}),
    Issuer(38, 39, 2, {14, 15, 16, 17, 18, 19}),
    Issuer(62, 62, 2, {16, 17, 18, 19})
  ]

  /** The number the digits spell. */
  function Number(ds: Digits): int {
    if ds == [] then 0 else Number(ds[..|ds| - 1]) * 10 + ds[|ds| - 1]
  }

  predicate Issues(r: Issuer, ds: Digits) {
    |ds| in r.lengths && 0 <= r.digits <= |ds| && r.lo <= Number(ds[..r.digits]) <= r.hi
  }

  predicate HasIssuer(table: seq<Issuer>, ds: Digits) { exists i :: 0 <= i < |table| && Issues(table[i], ds) }

  ghost predicate InRange(table: seq<Issuer>) {
    forall i, n :: 0 <= i < |table| && n in table[i].lengths ==> MIN_LENGTH <= n <= MAX_LENGTH
  }

  lemma IssuersInRange()
    ensures InRange(ISSUERS)
    ensures forall i :: 0 <= i < |ISSUERS| ==> 1 <= ISSUERS[i].digits <= 6
  {
  }

  /** matchesCardBIN. */
  method MatchesIssuer(table: seq<Issuer>, ds: Digits) returns (ok: bool)
    requires forall i :: 0 <= i < |table| ==> 0 <= table[i].digits
    ensures ok == HasIssuer(table, ds)
  {
    var n := |ds|;
    for i := 0 to |table|
      invariant forall k :: 0 <= k < i ==> !Issues(table[k], ds)
    {
      var r := table[i];
      if n in r.lengths && r.digits <= n {
        var p := 0;
        for k := 0 to r.digits
          invariant p == Number(ds[..k])
        {
          assert ds[..k + 1][..k] == ds[..k];
          p := p * 10 + ds[k];
        }
        if r.lo <= p <= r.hi {
          return true;
        }
      }
    }
    return false;
  }

  ghost predicate AllSame(ds: Digits) { forall i :: 0 <= i < |ds| ==> ds[i] == ds[0] }

  /** countDistinctDigits. */
  method CountDistinct(ds: Digits) returns (n: int)
    ensures n < 2 <==> AllSame(ds)
  {
    var seen: set<int> := {};
    n := 0;
    for i := 0 to |ds|
      invariant forall d :: d in seen <==> exists k :: 0 <= k < i && ds[k] == d
      invariant n == |seen|
      invariant n < 2 <==> forall k :: 0 <= k < i ==> ds[k] == ds[0]
      invariant i > 0 ==> n > 0 && ds[0] in seen
      invariant n == 1 ==> i > 0 && seen == {ds[0]}
    {
      if ds[i] !in seen {
        seen := seen + {ds[i]};
        n := n + 1;
      }
    }
  }

  // ---- what the search is for ----

  /** The positions of the ASCII digits among the first `k` characters. */
  function Positions(line: string, k: nat): (r: seq<int>)
    requires k <= |line|
    ensures forall i :: 0 <= i < |r| ==> 0 <= r[i] < k && IsDigit(line[r[i]])
    ensures forall i, j :: 0 <= i < j < |r| ==> r[i] < r[j]
    ensures forall p :: 0 <= p < k && IsDigit(line[p]) ==> p in r
  {
    if k == 0 then []
    else if IsDigit(line[k - 1]) then Positions(line, k - 1) + [k - 1]
    else Positions(line, k - 1)
  }

  function DigitsAt(line: string, at: seq<int>): (ds: Digits)
    requires forall i :: 0 <= i < |at| ==> 0 <= at[i] < |line|
    ensures |ds| == |at|
  {
    seq(|at|, i requires 0 <= i < |at| => ValueOf(line[at[i]]))
  }

  /** Two digits adjacent, or one space or dash apart. */
  predicate Connected(line: string, p: int, q: int)
    requires 0 <= p < q < |line|
  {
    q - p <= 2 && (q - p == 2 ==> line[p + 1] == ' ' || line[p + 1] == '-')
  }

  ghost predicate ArePositions(line: string, at: seq<int>) {
    && (forall i :: 0 <= i < |at| ==> 0 <= at[i] < |line|)
    && (forall i, j :: 0 <= i < j < |at| ==> at[i] < at[j])
  }

  /** Each digit of the window is connected to the next (areDigitsConnected). */
  ghost predicate IsRun(line: string, at: seq<int>, i: int, e: int)
    requires ArePositions(line, at) && 0 <= i <= e <= |at|
  {
    forall k :: i < k < e ==> Connected(line, at[k - 1], at[k])
  }

  /** The checks on one window of digits. */
  ghost predicate IsCard(line: string, at: seq<int>, boundary: Boundary, i: int, n: int)
    requires ArePositions(line, at) && 0 <= i && 0 < n && i + n <= |at|
  {
    var ds := DigitsAt(line, at[i..i + n]);
    && boundary(line, at[i], at[i + n - 1] + 1)
    && !AllSame(ds)
    && HasIssuer(ISSUERS, ds)
    && LuhnValid(ds)
  }

  /** A card of any length: the windows a search without bounds would accept. */
  ghost predicate CardAt(line: string, at: seq<int>, boundary: Boundary, i: int, n: int)
    requires ArePositions(line, at)
  {
    0 <= i && 0 < n && i + n <= |at| && IsRun(line, at, i, i + n) && IsCard(line, at, boundary, i, n)
  }

  /** Every issuer's lengths lie in 13..19, so no card is lost by trying only those. */
  lemma CardLength(line: string, at: seq<int>, boundary: Boundary, i: int, n: int)
    requires ArePositions(line, at) && CardAt(line, at, boundary, i, n)
    ensures MIN_LENGTH <= n <= MAX_LENGTH
  {
    IssuersInRange();
    var ds := DigitsAt(line, at[i..i + n]);
    var k :| 0 <= k < |ISSUERS| && Issues(ISSUERS[k], ds);
  }

  ghost predicate Covers(r: Range, b: int) { r.start <= b < r.end }

  ghost predicate CoveredBy(ranges: seq<Range>, b: int) { exists i :: 0 <= i < |ranges| && Covers(ranges[i], b) }

  /** The byte belongs to some card. */
  ghost predicate CardByte(line: string, at: seq<int>, boundary: Boundary, b: int)
    requires ArePositions(line, at)
  {
    exists i, n :: CardAt(line, at, boundary, i, n) && at[i] <= b <= at[i + n - 1]
  }

  // ---- merging ----

  ghost predicate Ordered(ranges: seq<Range>) {
    && (forall i :: 0 <= i < |ranges| ==> ranges[i].start < ranges[i].end)
    && (forall i, j :: 0 <= i < j < |ranges| ==> ranges[i].start <= ranges[j].start)
  }

  /** Sorted, and a gap between any two. */
  ghost predicate Separated(ranges: seq<Range>) {
    && (forall i :: 0 <= i < |ranges| ==> ranges[i].start < ranges[i].end)
    && (forall i, j :: 0 <= i < j < |ranges| ==> ranges[i].end < ranges[j].start)
  }

  lemma CoveredAppend(ranges: seq<Range>, r: Range, b: int)
    ensures CoveredBy(ranges + [r], b) <==> CoveredBy(ranges, b) || Covers(r, b)
  {
    var all := ranges + [r];
    if CoveredBy(ranges, b) {
      var i :| 0 <= i < |ranges| && Covers(ranges[i], b);
      assert all[i] == ranges[i];
    }
    assert all[|ranges|] == r;
  }

  /** mergeRanges: the same bytes in strictly separated ranges. */
  method MergeRanges(ranges: seq<Range>) returns (merged: seq<Range>)
    requires Ordered(ranges)
    ensures Separated(merged)
    ensures forall b :: CoveredBy(merged, b) <==> CoveredBy(ranges, b)
  {
    if |ranges| == 0 {
      return ranges;
    }
    merged := [];
    var current := ranges[0];
    assert merged + [current] == ranges[..1];
    for i := 1 to |ranges|
      invariant Separated(merged) && current.start < current.end
      invariant forall k :: 0 <= k < |merged| ==> merged[k].end < current.start
      invariant current.start <= ranges[i - 1].start
      invariant forall b :: CoveredBy(merged + [current], b) <==> CoveredBy(ranges[..i], b)
    {
      var next := ranges[i];
      ghost var before, last := merged, current;
      if next.start <= current.end {
        if next.end > current.end {
          current := current.(end := next.end);
        }
      } else {
        merged := merged + [current];
        current := next;
      }
      forall b ensures CoveredBy(merged + [current], b) <==> CoveredBy(ranges[..i + 1], b) {
        assert ranges[..i + 1] == ranges[..i] + [next];
        CoveredAppend(ranges[..i], next, b);
        CoveredAppend(before, last, b);
        CoveredAppend(merged, current, b);
      }
    }
    merged := merged + [current];
    assert ranges[..|ranges|] == ranges;
  }

  // ---- the search ----

  /** Ranges found for the windows that start before digit `i`, and for digit
      `i` the lengths below `n`. */
  ghost predicate Found(line: string, at: seq<int>, boundary: Boundary, ranges: seq<Range>, i: int, n: int)
    requires ArePositions(line, at)
  {
    forall b :: CoveredBy(ranges, b) <==> CardBefore(line, at, boundary, i, n, b)
  }

  ghost predicate CardBefore(line: string, at: seq<int>, boundary: Boundary, i: int, n: int, b: int)
    requires ArePositions(line, at)
  {
    exists j, m :: CardAt(line, at, boundary, j, m) && (j < i || (j == i && m < n)) && at[j] <= b <= at[j + m - 1]
  }

  lemma CardBeforeNext(line: string, at: seq<int>, boundary: Boundary, i: int, n: int, b: int)
    requires ArePositions(line, at) && 0 <= i && 0 < n && i + n <= |at|
    ensures CardBefore(line, at, boundary, i, n + 1, b) <==>
      CardBefore(line, at, boundary, i, n, b) || (CardAt(line, at, boundary, i, n) && at[i] <= b <= at[i + n - 1])
  {
  }

  /** Before window (i, n), either it is a card and its range is added, or nothing changes. */
  lemma FoundStep(line: string, at: seq<int>, boundary: Boundary, ranges: seq<Range>, i: int, n: int)
    requires ArePositions(line, at) && 0 <= i && 0 < n && i + n <= |at| && Found(line, at, boundary, ranges, i, n)
    ensures CardAt(line, at, boundary, i, n) ==>
      Found(line, at, boundary, ranges + [Range(at[i], at[i + n - 1] + 1)], i, n + 1)
    ensures !CardAt(line, at, boundary, i, n) ==> Found(line, at, boundary, ranges, i, n + 1)
  {
    var r := Range(at[i], at[i + n - 1] + 1);
    forall b
      ensures CardAt(line, at, boundary, i, n) ==>
        (CoveredBy(ranges + [r], b) <==> CardBefore(line, at, boundary, i, n + 1, b))
      ensures !CardAt(line, at, boundary, i, n) ==>
        (CoveredBy(ranges, b) <==> CardBefore(line, at, boundary, i, n + 1, b))
    {
      CardBeforeNext(line, at, boundary, i, n, b);
      CoveredAppend(ranges, r, b);
    }
  }

  /** Beyond the run end, the digits or length 19 no window starting at `i` is a card. */
  lemma FoundRest(line: string, at: seq<int>, boundary: Boundary, ranges: seq<Range>, i: int, n: int, runEnd: int)
    requires ArePositions(line, at) && Found(line, at, boundary, ranges, i, n) && 0 <= i < runEnd <= |at|
    requires runEnd == |at| || !Connected(line, at[runEnd - 1], at[runEnd])
    requires n > MAX_LENGTH || i + n > runEnd
    ensures Found(line, at, boundary, ranges, i + 1, MIN_LENGTH)
  {
    forall j, m | CardAt(line, at, boundary, j, m)
      ensures j < i || (j == i && m < n) <==> j < i + 1 || (j == i + 1 && m < MIN_LENGTH)
    {
      CardLength(line, at, boundary, j, m);
    }
    assert forall b :: CardBefore(line, at, boundary, i, n, b) <==> CardBefore(line, at, boundary, i + 1, MIN_LENGTH, b);
  }

  lemma FoundNone(line: string, at: seq<int>, boundary: Boundary)
    requires ArePositions(line, at)
    ensures Found(line, at, boundary, [], 0, MIN_LENGTH)
  {
    forall j, m | CardAt(line, at, boundary, j, m)
      ensures m >= MIN_LENGTH
    {
      CardLength(line, at, boundary, j, m);
    }
  }

  lemma FoundAll(line: string, at: seq<int>, boundary: Boundary, ranges: seq<Range>, i: int)
    requires ArePositions(line, at) && Found(line, at, boundary, ranges, i, MIN_LENGTH) && i > |at| - MIN_LENGTH
    ensures forall b :: CoveredBy(ranges, b) <==> CardByte(line, at, boundary, b)
  {
    forall j, m | CardAt(line, at, boundary, j, m)
      ensures j < i
    {
      CardLength(line, at, boundary, j, m);
    }
  }

  method CollectDigits(line: string) returns (at: seq<int>)
    ensures at == Positions(line, |line|)
  {
    at := [];
    for i := 0 to |line|
      invariant at == Positions(line, i)
    {
      if IsDigit(line[i]) {
        at := at + [i];
      }
    }
  }

  method TryWindow(line: string, at: seq<int>, boundary: Boundary, i: int, n: int) returns (ok: bool)
    requires ArePositions(line, at) && 0 <= i && 0 < n && i + n <= |at|
    ensures ok == IsCard(line, at, boundary, i, n)
  {
    if !boundary(line, at[i], at[i + n - 1] + 1) {
      return false;
    }
    var ds := DigitsAt(line, at[i..i + n]);
    var distinct := CountDistinct(ds);
    if distinct < 2 {
      return false;
    }
    IssuersInRange();
    var issued := MatchesIssuer(ISSUERS, ds);
    if !issued {
      return false;
    }
    ok := CheckLuhn(ds);
  }

  method TryLengths(line: string, at: seq<int>, boundary: Boundary, i: int, runEnd: int, ranges: seq<Range>) returns (out: seq<Range>)
    requires ArePositions(line, at) && 0 <= i < runEnd <= |at| && IsRun(line, at, i, runEnd)
    requires runEnd == |at| || !Connected(line, at[runEnd - 1], at[runEnd])
    requires Found(line, at, boundary, ranges, i, MIN_LENGTH)
    requires Ordered(ranges) && forall k :: 0 <= k < |ranges| ==> ranges[k].start <= at[i]
    ensures Found(line, at, boundary, out, i + 1, MIN_LENGTH)
    ensures Ordered(out) && forall k :: 0 <= k < |out| ==> out[k].start <= at[i]
  {
    var maxLen := MAX_LENGTH;
    if i + maxLen > |at| {
      maxLen := |at| - i;
    }
    if runEnd - i < maxLen {
      maxLen := runEnd - i;
    }
    out := ranges;
    var n := MIN_LENGTH;
    while n <= maxLen
      invariant MIN_LENGTH <= n
      invariant n <= maxLen + 1 || n == MIN_LENGTH
      invariant Found(line, at, boundary, out, i, n)
      invariant Ordered(out) && forall k :: 0 <= k < |out| ==> out[k].start <= at[i]
    {
      FoundStep(line, at, boundary, out, i, n);
      var ok := TryWindow(line, at, boundary, i, n);
      if ok {
        out := out + [Range(at[i], at[i + n - 1] + 1)];
      }
      n := n + 1;
    }
    FoundRest(line, at, boundary, out, i, n, runEnd);
  }

  /** The run of connected digits around `i`, continued from where it stood. */
  method ExtendRun(line: string, at: seq<int>, i: int, from: int) returns (runEnd: int)
    requires ArePositions(line, at) && 0 <= i < |at| && from <= |at|
    requires i < from ==> IsRun(line, at, i, from)
    ensures i < runEnd <= |at| && IsRun(line, at, i, runEnd)
    ensures runEnd == |at| || !Connected(line, at[runEnd - 1], at[runEnd])
  {
    runEnd := from;
    if runEnd < i + 1 {
      runEnd := i + 1;
    }
    while runEnd < |at| && Connected(line, at[runEnd - 1], at[runEnd])
      invariant i < runEnd <= |at| && IsRun(line, at, i, runEnd)
    {
      runEnd := runEnd + 1;
    }
  }

  /** FindLuhnSequences: exactly the bytes of every card, in separated ranges. */
  method FindLuhnSequences(line: string, boundary: Boundary) returns (ranges: seq<Range>)
    ensures ArePositions(line, Positions(line, |line|))
    ensures Separated(ranges)
    ensures forall b :: CoveredBy(ranges, b) <==> CardByte(line, Positions(line, |line|), boundary, b)
  {
    ranges := [];
    var at := CollectDigits(line);
    assert ArePositions(line, at);
    FoundNone(line, at, boundary);
    if |at| < MIN_LENGTH {
      FoundAll(line, at, boundary, ranges, 0);
      return;
    }
    var runEnd, i := 0, 0;
    while i <= |at| - MIN_LENGTH
      invariant 0 <= i <= |at| - MIN_LENGTH + 1 && 0 <= runEnd <= |at|
      invariant i < runEnd ==> IsRun(line, at, i, runEnd)
      invariant Found(line, at, boundary, ranges, i, MIN_LENGTH)
      invariant Ordered(ranges) && forall k :: 0 <= k < |ranges| ==> ranges[k].start <= at[i]
    {
      runEnd := ExtendRun(line, at, i, runEnd);
      ranges := TryLengths(line, at, boundary, i, runEnd, ranges);
      assert at[i] < at[i + 1];
      i := i + 1;
    }
    FoundAll(line, at, boundary, ranges, i);
    ranges := MergeRanges(ranges);
  }
}
