/** Card numbers written in groups: a number whose digits stand side by side or one
    blank or dash apart is found whole. */
module GroupedCards {
  import opened Common
  import opened CardSearch

  /** The digits that a text spells. */
  function DigitsOf(text: string): Digits {
    if text == "" then []
    else DigitsOf(text[..|text| - 1]) + if IsDigit(text[|text| - 1]) then [ValueOf(text[|text| - 1])] else []
  }

  lemma {:induction false} DigitsAppend(a: string, b: string)
    ensures DigitsOf(a + b) == DigitsOf(a) + DigitsOf(b)
    decreases |b|
  {
    if b == "" {
      assert a + b == a;
    } else {
      assert (a + b)[..|a + b| - 1] == a + b[..|b| - 1];
      DigitsAppend(a, b[..|b| - 1]);
    }
  }

  lemma {:induction false} PositionsSpell(line: string, k: nat)
    requires k <= |line|
    ensures DigitsAt(line, Positions(line, k)) == DigitsOf(line[..k])
    decreases k
  {
    if k > 0 {
      assert line[..k][..k - 1] == line[..k - 1];
      PositionsSpell(line, k - 1);
    }
  }

  lemma {:induction false} PositionsGrow(line: string, k: nat, m: nat)
    requires k <= m <= |line|
    ensures Positions(line, k) <= Positions(line, m)
    decreases m
  {
    if k < m { PositionsGrow(line, k, m - 1); }
  }

  /** line[a..e] begins and ends with a digit, and between digits stands at most one blank or dash. */
  ghost predicate IsGrouped(line: string, a: int, e: int) {
    && 0 <= a < e <= |line| && IsDigit(line[a]) && IsDigit(line[e - 1])
    && forall p :: a < p < e - 1 && !IsDigit(line[p]) ==>
         (line[p] == ' ' || line[p] == '-') && IsDigit(line[p - 1]) && IsDigit(line[p + 1])
  }

  ghost predicate IsCardNumber(ds: Digits) { !AllSame(ds) && HasIssuer(ISSUERS, ds) && SumFromRight(ds, 0) % 10 == 0 }

  /** `at` holds the positions of all digits, in order. */
  ghost predicate HoldsDigits(line: string, at: seq<int>) {
    ArePositions(line, at) && (forall p :: 0 <= p < |line| && IsDigit(line[p]) ==> p in at)
  }

  lemma {:induction false} NoDigitBetween(line: string, at: seq<int>, k: int, m: int)
    requires HoldsDigits(line, at) && 0 < k < |at| && at[k - 1] < m < at[k]
    ensures !IsDigit(line[m])
  {
    forall j | 0 <= j < |at| ensures at[j] != m {
      if j < k { assert at[j] <= at[k - 1]; } else { assert at[k] <= at[j]; }
    }
  }

  lemma {:induction false} GroupsConnect(line: string, at: seq<int>, a: int, e: int, k: int)
    requires HoldsDigits(line, at) && IsGrouped(line, a, e) && 0 < k < |at| && a <= at[k - 1] && at[k] < e
    requires IsDigit(line[at[k]])
    ensures Connected(line, at[k - 1], at[k])
  {
    var p, q := at[k - 1], at[k];
    if q > p + 1 {
      NoDigitBetween(line, at, k, p + 1);
      if q > p + 2 { NoDigitBetween(line, at, k, p + 2); }
    }
  }

  /** Positions before `a`, then `a`, and so on up to `e`. */
  lemma {:induction false} Windows(at: seq<int>, first: seq<int>, upto: seq<int>, a: int, e: int)
    requires first + [a] <= upto <= at && upto[|upto| - 1] == e - 1
    ensures at[|first|] == a && at[|upto| - 1] == e - 1 && |first| < |upto| <= |at|
  {
    assert (first + [a])[|first|] == a;
    assert upto[|first|] == a;
  }

  lemma {:induction false} SliceSpells(line: string, at: seq<int>, first: seq<int>, upto: seq<int>, ds: Digits)
    requires ArePositions(line, at) && first <= upto <= at && ArePositions(line, first) && ArePositions(line, upto)
    requires DigitsAt(line, upto) == DigitsAt(line, first) + ds
    ensures DigitsAt(line, at[|first|..|upto|]) == ds
  {
    var xs := DigitsAt(line, at[|first|..|upto|]);
    forall k | 0 <= k < |ds| ensures xs[k] == ds[k] {
      assert xs[k] == DigitsAt(line, upto)[|first| + k];
    }
  }

  lemma {:induction false} PositionsHoldDigits(line: string, k: nat)
    requires k <= |line|
    ensures ArePositions(line, Positions(line, k))
    ensures k == |line| ==> HoldsDigits(line, Positions(line, k))
  {
  }

  lemma {:induction false} DigitIsLast(line: string, k: nat)
    requires 0 < k <= |line| && IsDigit(line[k - 1])
    ensures Positions(line, k) == Positions(line, k - 1) + [k - 1]
    ensures Positions(line, k)[|Positions(line, k)| - 1] == k - 1
  {
  }

  lemma {:induction false} CutPrefixes(line: string, a: nat, e: nat)
    requires a < e <= |line| && IsDigit(line[a]) && IsDigit(line[e - 1])
    ensures Positions(line, a) + [a] <= Positions(line, e) <= Positions(line, |line|)
    ensures Positions(line, e)[|Positions(line, e)| - 1] == e - 1
  {
    DigitIsLast(line, a + 1);
    DigitIsLast(line, e);
    PositionsGrow(line, e, |line|);
    PositionsGrow(line, a + 1, e);
  }

  /** The positions before `a` and those before `e`. */
  lemma {:induction false} Cutting(line: string, at: seq<int>, a: int, e: int) returns (first: seq<int>, upto: seq<int>)
    requires 0 <= a < e <= |line| && IsDigit(line[a]) && IsDigit(line[e - 1]) && at == Positions(line, |line|)
    ensures first + [a] <= upto <= at && upto[|upto| - 1] == e - 1
    ensures ArePositions(line, first) && ArePositions(line, upto)
    ensures DigitsAt(line, upto) == DigitsAt(line, first) + DigitsOf(line[a..e])
  {
    first, upto := Positions(line, a), Positions(line, e);
    CutPrefixes(line, a, e);
    PositionsHoldDigits(line, a);
    PositionsHoldDigits(line, e);
    DigitsBetween(line, a, e);
  }

  /** The window of digits from `a` to `e`. */
  lemma {:induction false} WindowOf(line: string, at: seq<int>, first: seq<int>, upto: seq<int>, a: int, e: int, ds: Digits)
    requires ArePositions(line, at) && ArePositions(line, first) && ArePositions(line, upto)
    requires first + [a] <= upto <= at && upto[|upto| - 1] == e - 1 && DigitsAt(line, upto) == DigitsAt(line, first) + ds
    ensures |first| < |upto| <= |at| && at[|first|] == a && at[|upto| - 1] == e - 1
    ensures DigitsAt(line, at[|first|..|upto|]) == ds
  {
    Windows(at, first, upto, a, e);
    SliceSpells(line, at, first, upto, ds);
  }

  lemma {:induction false} DigitsBetween(line: string, a: nat, e: nat)
    requires a <= e <= |line|
    ensures DigitsAt(line, Positions(line, e)) == DigitsAt(line, Positions(line, a)) + DigitsOf(line[a..e])
  {
    PositionsSpell(line, e);
    PositionsSpell(line, a);
    assert line[..e] == line[..a] + line[a..e];
    DigitsAppend(line[..a], line[a..e]);
  }

  lemma {:induction false} RunOfGroups(line: string, at: seq<int>, a: int, e: int, i: int, n: int)
    requires HoldsDigits(line, at) && (forall k :: 0 <= k < |at| ==> IsDigit(line[at[k]])) && IsGrouped(line, a, e)
    requires 0 <= i && 0 < n && i + n <= |at| && at[i] == a && at[i + n - 1] == e - 1
    ensures IsRun(line, at, i, i + n)
  {
    forall k | i < k < i + n ensures Connected(line, at[k - 1], at[k]) {
      assert at[i] <= at[k - 1] && at[k] <= at[i + n - 1];
      GroupsConnect(line, at, a, e, k);
    }
  }

  lemma {:induction false} GroupedWindow(line: string, at: seq<int>, boundary: Boundary, a: int, e: int, first: seq<int>, upto: seq<int>, ds: Digits)
    requires HoldsDigits(line, at) && (forall k :: 0 <= k < |at| ==> IsDigit(line[at[k]]))
    requires ArePositions(line, first) && ArePositions(line, upto)
    requires first + [a] <= upto <= at && upto[|upto| - 1] == e - 1 && DigitsAt(line, upto) == DigitsAt(line, first) + ds
    requires IsGrouped(line, a, e) && boundary(line, a, e) && IsCardNumber(ds)
    ensures CardAt(line, at, boundary, |first|, |upto| - |first|)
    ensures |first| < |upto| <= |at| && at[|first|] == a && at[|upto| - 1] == e - 1
  {
    WindowOf(line, at, first, upto, a, e, ds);
    assert AreDigits(ds) by { WindowDigits(line, at, |first|, |upto| - |first|); }
    LuhnIsStandard(ds);
    RunOfGroups(line, at, a, e, |first|, |upto| - |first|);
  }

  /** A card number in groups, standing where the boundary test allows it, is found
      whole: every byte of it belongs to a card. */
  lemma {:induction false} GroupedCardIsFound(line: string, at: seq<int>, boundary: Boundary, a: int, e: int, b: int)
    requires at == Positions(line, |line|) && ArePositions(line, at)
    requires IsGrouped(line, a, e) && boundary(line, a, e) && IsCardNumber(DigitsOf(line[a..e])) && a <= b < e
    ensures CardByte(line, at, boundary, b)
  {
    PositionsHoldDigits(line, |line|);
    var first, upto := Cutting(line, at, a, e);
    GroupedWindow(line, at, boundary, a, e, first, upto, DigitsOf(line[a..e]));
    assert CardAt(line, at, boundary, |first|, |upto| - |first|);
  }

  lemma {:induction false} WindowDigits(line: string, at: seq<int>, i: int, n: int)
    requires ArePositions(line, at) && (forall k :: 0 <= k < |at| ==> IsDigit(line[at[k]])) && 0 <= i && 0 <= n && i + n <= |at|
    ensures AreDigits(DigitsAt(line, at[i..i + n]))
  {
  }

  // ---- only such numbers are found ----

  /** The neighbours in a window around a position between them. */
  lemma {:induction false} Around(at: seq<int>, i: int, e: int, p: int) returns (k: int)
    requires 0 <= i < e <= |at| && at[i] < p < at[e - 1] && (forall x, y :: 0 <= x < y < |at| ==> at[x] < at[y])
    requires forall x :: i <= x < e ==> at[x] != p
    ensures i < k < e && at[k - 1] < p < at[k]
    decreases e
  {
    if p < at[e - 2] {
      k := Around(at, i, e - 1, p);
    } else {
      k := e - 1;
    }
  }

  lemma {:induction false} RunIsGrouped(line: string, at: seq<int>, i: int, n: int)
    requires HoldsDigits(line, at) && (forall k :: 0 <= k < |at| ==> IsDigit(line[at[k]]))
    requires 0 <= i && 0 < n && i + n <= |at| && IsRun(line, at, i, i + n)
    ensures IsGrouped(line, at[i], at[i + n - 1] + 1)
  {
    var a, e := at[i], at[i + n - 1] + 1;
    if n > 1 { assert at[i] < at[i + n - 1]; }
    forall p | a < p < e - 1 && !IsDigit(line[p])
      ensures (line[p] == ' ' || line[p] == '-') && IsDigit(line[p - 1]) && IsDigit(line[p + 1])
    {
      var k := Around(at, i, i + n, p);
      assert Connected(line, at[k - 1], at[k]);
    }
  }

  /** Every card found is a number in groups where the boundary test allows it. */
  lemma {:induction false} FoundCardIsGrouped(line: string, at: seq<int>, boundary: Boundary, i: int, n: int)
    requires at == Positions(line, |line|) && ArePositions(line, at) && CardAt(line, at, boundary, i, n)
    ensures
      var a, e := at[i], at[i + n - 1] + 1;
      IsGrouped(line, a, e) && boundary(line, a, e) && IsCardNumber(DigitsOf(line[a..e]))
  {
    PositionsHoldDigits(line, |line|);
    RunIsGrouped(line, at, i, n);
    var a, e := at[i], at[i + n - 1] + 1;
    var first, upto := Cutting(line, at, a, e);
    CardDigits(line, at, boundary, i, n, first, upto, a, e, DigitsOf(line[a..e]));
  }

  lemma {:induction false} CardDigits(line: string, at: seq<int>, boundary: Boundary, i: int, n: int, first: seq<int>, upto: seq<int>,
                                      a: int, e: int, ds: Digits)
    requires HoldsDigits(line, at) && (forall k :: 0 <= k < |at| ==> IsDigit(line[at[k]])) && CardAt(line, at, boundary, i, n)
    requires a == at[i] && e == at[i + n - 1] + 1 && ArePositions(line, first) && ArePositions(line, upto)
    requires first + [a] <= upto <= at && upto[|upto| - 1] == e - 1 && DigitsAt(line, upto) == DigitsAt(line, first) + ds
    ensures IsCardNumber(ds)
  {
    WindowOf(line, at, first, upto, a, e, ds);
    assert |first| == i && |upto| == i + n;
    WindowDigits(line, at, i, n);
    LuhnIsStandard(ds);
  }
}
