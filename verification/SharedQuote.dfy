/** A line in which two cards stand on either side of one quote: the card search
    finds both, both carves claim the quote, and it is written twice. */
module SharedQuote {
  import opened CardSearch
  import opened Carves
  import opened Common

  /** 'CARD'CARD' with the card 4111111111111111. */
  ghost predicate IsTwoCards(line: string) {
    && |line| == 35
    && (forall i :: 0 <= i < 35 ==> line[i] == if i == 0 || i == 17 || i == 34 then '\'' else if i == 1 || i == 18 then '4' else '1')
  }

  lemma TwoCardsText()
    ensures IsTwoCards("'4111111111111111'4111111111111111'")
  {
  }

  function DigitPlaces(): (at: seq<int>)
    ensures |at| == 32 && forall i :: 0 <= i < 32 ==> at[i] == if i < 16 then i + 1 else i + 2
  {
    seq(32, i => if i < 16 then i + 1 else i + 2)
  }

  // ---- the digits ----

  ghost predicate IsSorted(a: seq<int>) { forall i, j :: 0 <= i < j < |a| ==> a[i] < a[j] }

  /** The last element of a sorted sequence is its largest, and the others are the rest. */
  lemma LastOfSorted(a: seq<int>, x: int)
    requires a != [] && IsSorted(a)
    ensures IsSorted(a[..|a| - 1])
    ensures x in a[..|a| - 1] <==> x in a && x != a[|a| - 1]
    ensures x in a ==> x <= a[|a| - 1]
  {
    assert a == a[..|a| - 1] + [a[|a| - 1]];
  }

  ghost predicate SameMembers(a: seq<int>, b: seq<int>) { forall x :: x in a <==> x in b }

  lemma NoMembers(a: seq<int>)
    requires forall x :: x !in a
    ensures a == []
  {
    forall x
      ensures x !in multiset(a)
    {
      assert x !in a;
    }
    assert multiset(a) == multiset{};
  }

  lemma {:induction false} SameSorted(a: seq<int>, b: seq<int>)
    requires IsSorted(a) && IsSorted(b) && SameMembers(a, b)
    ensures a == b
    decreases |a|
  {
    if a == [] {
      NoMembers(b);
    } else if b == [] {
      NoMembers(a);
    } else {
      var a', x, b', y := a[..|a| - 1], a[|a| - 1], b[..|b| - 1], b[|b| - 1];
      assert x in a && y in b;
      LastOfSorted(a, y);
      LastOfSorted(b, x);
      forall z
        ensures z in a' <==> z in b'
      {
        LastOfSorted(a, z);
        LastOfSorted(b, z);
      }
      SameSorted(a', b');
      assert a == a' + [x] && b == b' + [y];
    }
  }

  lemma PlacesOf(line: string, at: seq<int>, ps: seq<int>)
    requires IsTwoCards(line) && at == DigitPlaces()
    requires IsSorted(ps) && forall p :: p in ps <==> 0 <= p < 35 && IsDigit(line[p])
    ensures ps == at
  {
    forall p
      ensures p in ps <==> p in at
    {
      if 0 <= p < 35 && IsDigit(line[p]) {
        assert at[if p < 17 then p - 1 else p - 2] == p;
      }
    }
    SameSorted(ps, at);
  }

  lemma DigitPlacesAreAll(line: string)
    requires IsTwoCards(line)
    ensures ArePositions(line, DigitPlaces()) && Positions(line, |line|) == DigitPlaces()
  {
    var ps := Positions(line, |line|);
    forall p | p in ps
      ensures 0 <= p < 35 && IsDigit(line[p])
    {
      var i :| 0 <= i < |ps| && ps[i] == p;
    }
    PlacesOf(line, DigitPlaces(), ps);
  }

  function Ones(n: nat): (ds: Digits)
    ensures |ds| == n && forall i :: 0 <= i < n ==> ds[i] == 1
  {
    seq(n, i => 1)
  }

  lemma WindowDigits(line: string, at: seq<int>, i: int)
    requires IsTwoCards(line) && at == DigitPlaces() && ArePositions(line, at) && (i == 0 || i == 16)
    ensures DigitsAt(line, at[i..i + 16]) == [4] + Ones(15)
  {
    var ds := DigitsAt(line, at[i..i + 16]);
    forall k | 0 <= k < 16
      ensures ds[k] == ([4] + Ones(15))[k]
    {
      assert at[i..i + 16][k] == at[i + k];
    }
  }

  // ---- the card ----

  lemma {:induction false} LuhnOfOnes(n: nat)
    ensures LuhnSum(Ones(n)) == n + n / 2
    decreases n
  {
    if n > 0 {
      assert Ones(n)[1..] == Ones(n - 1);
      LuhnOfOnes(n - 1);
    }
  }

  lemma VisaIsValid(ds: Digits)
    requires ds == [4] + Ones(15)
    ensures LuhnValid(ds) && HasIssuer(ISSUERS, ds) && !AllSame(ds)
  {
    assert ds[1..] == Ones(15);
    LuhnOfOnes(15);
    assert ds[..1] == [4] && [4][..0] == [];
    assert Number([4]) == 4;
    assert Issues(ISSUERS[0], ds);
    assert ds[1] != ds[0];
  }

  /** isValidBoundary for a notion of letters and digits. */
  function Alone(letter: char -> bool, digit: char -> bool): Boundary {
    (line, start, end) => 0 <= start <= end <= |line| && StandsAlone(letter, digit, line, start, end)
  }

  lemma WindowStands(letter: char -> bool, digit: char -> bool, line: string, start: int)
    requires !letter('\'') && !digit('\'') && IsTwoCards(line) && (start == 1 || start == 18)
    ensures Alone(letter, digit)(line, start, start + 16)
  {
  }

  lemma WindowIsCard(letter: char -> bool, digit: char -> bool, line: string, at: seq<int>, i: int)
    requires !letter('\'') && !digit('\'') && IsTwoCards(line) && at == DigitPlaces() && ArePositions(line, at)
    requires i == 0 || i == 16
    ensures CardAt(line, at, Alone(letter, digit), i, 16)
  {
    WindowDigits(line, at, i);
    VisaIsValid(DigitsAt(line, at[i..i + 16]));
    WindowStands(letter, digit, line, at[i]);
    assert at[i + 16 - 1] + 1 == at[i] + 16;
    assert IsRun(line, at, i, i + 16) by {
      forall k | i < k < i + 16
        ensures Connected(line, at[k - 1], at[k])
      {
      }
    }
  }

  /** No window of connected digits spans the quote in the middle. */
  lemma WindowsEndAtQuote(line: string, at: seq<int>, boundary: Boundary, i: int, n: int)
    requires IsTwoCards(line) && at == DigitPlaces() && ArePositions(line, at) && CardAt(line, at, boundary, i, n)
    ensures i + n <= 16 || i >= 16
  {
    assert line[at[15] + 1] == '\'';
    assert !Connected(line, at[15], at[16]);
  }

  lemma CardBytes(letter: char -> bool, digit: char -> bool, line: string, at: seq<int>, b: int)
    requires !letter('\'') && !digit('\'') && IsTwoCards(line) && at == DigitPlaces() && ArePositions(line, at)
    ensures CardByte(line, at, Alone(letter, digit), b) <==> 1 <= b < 17 || 18 <= b < 34
  {
    var alone := Alone(letter, digit);
    WindowIsCard(letter, digit, line, at, 0);
    WindowIsCard(letter, digit, line, at, 16);
    assert at[0] == 1 && at[0 + 16 - 1] == 16 && at[16] == 18 && at[16 + 16 - 1] == 33;
    if CardByte(line, at, alone, b) {
      var i, n :| CardAt(line, at, alone, i, n) && at[i] <= b <= at[i + n - 1];
      WindowsEndAtQuote(line, at, alone, i, n);
    }
  }

  // ---- the ranges ----

  /** Separated ranges are determined by the bytes they cover. */
  lemma RangeOf(ranges: seq<Range>, lo: int, hi: int) returns (k: int)
    requires Separated(ranges) && lo < hi && (forall b :: lo <= b < hi ==> CoveredBy(ranges, b))
    requires !CoveredBy(ranges, lo - 1) && !CoveredBy(ranges, hi)
    ensures 0 <= k < |ranges| && ranges[k] == Range(lo, hi)
  {
    assert CoveredBy(ranges, lo);
    k :| 0 <= k < |ranges| && Covers(ranges[k], lo);
    var r := ranges[k];
    assert r.start < lo ==> Covers(r, lo - 1);
    assert r.end > hi ==> Covers(r, hi);
    NothingAtEnd(ranges, k);
    assert r.end < hi ==> CoveredBy(ranges, r.end);
  }

  lemma NothingAtEnd(ranges: seq<Range>, k: int)
    requires Separated(ranges) && 0 <= k < |ranges|
    ensures !CoveredBy(ranges, ranges[k].end)
  {
  }

  lemma TwoRanges(cards: seq<Range>)
    requires Separated(cards) && forall b :: CoveredBy(cards, b) <==> 1 <= b < 17 || 18 <= b < 34
    ensures cards == [Range(1, 17), Range(18, 34)]
  {
    var i := RangeOf(cards, 1, 17);
    var j := RangeOf(cards, 18, 34);
    forall k | 0 <= k < |cards|
      ensures cards[k].start == 1 || cards[k].start == 18
    {
      StartIsKnown(cards, i, j, k);
    }
    TwoStarts(cards, i, j);
  }

  lemma StartsGrow(cards: seq<Range>, a: int, b: int)
    requires Separated(cards) && 0 <= a <= b < |cards|
    ensures a < b ==> cards[a].start < cards[b].start
  {
  }

  lemma TwoStarts(cards: seq<Range>, i: int, j: int)
    requires Separated(cards) && forall k :: 0 <= k < |cards| ==> cards[k].start == 1 || cards[k].start == 18
    requires 0 <= i < |cards| && 0 <= j < |cards| && cards[i] == Range(1, 17) && cards[j] == Range(18, 34)
    ensures cards == [Range(1, 17), Range(18, 34)]
  {
    assert i < j;
    assert cards[0].start <= cards[i].start;
    assert i == 0;
    assert cards[0].start < cards[1].start <= cards[j].start;
    assert j == 1;
    StartsGrow(cards, 1, |cards| - 1);
  }

  lemma StartIsKnown(cards: seq<Range>, i: int, j: int, k: int)
    requires Separated(cards) && (forall b :: CoveredBy(cards, b) <==> 1 <= b < 17 || 18 <= b < 34)
    requires 0 <= i < |cards| && 0 <= j < |cards| && 0 <= k < |cards|
    requires cards[i] == Range(1, 17) && cards[j] == Range(18, 34)
    ensures cards[k].start == 1 || cards[k].start == 18
  {
    assert Covers(cards[k], cards[k].start);
    assert CoveredBy(cards, cards[k].start);
  }

  lemma FindsTwo(letter: char -> bool, digit: char -> bool, line: string, at: seq<int>, cards: seq<Range>)
    requires !letter('\'') && !digit('\'') && IsTwoCards(line) && at == DigitPlaces() && ArePositions(line, at)
    requires Separated(cards) && forall b :: CoveredBy(cards, b) <==> CardByte(line, at, Alone(letter, digit), b)
    ensures cards == [Range(1, 17), Range(18, 34)]
  {
    forall b
      ensures CoveredBy(cards, b) <==> 1 <= b < 17 || 18 <= b < 34
    {
      CardBytes(letter, digit, line, at, b);
    }
    TwoRanges(cards);
  }

  lemma SharesQuote(line: string, carves: seq<Carve>)
    requires IsTwoCards(line) && carves == [Carve(Range(1, 17), ""), Carve(Range(18, 34), "")]
    ensures InLine(line, carves) && Shared(line, carves, 1) == 1
  {
  }

  /** The card search on this line finds the two cards, and they share the quote
      between them, so the pieces do not spell the line. */
  lemma SharedQuoteExample(letter: char -> bool, digit: char -> bool, line: string, at: seq<int>, cards: seq<Range>)
    requires !letter('\'') && !digit('\'') && IsTwoCards(line) && Separated(cards)
    requires at == Positions(line, |line|) && ArePositions(line, at)
    requires forall b :: CoveredBy(cards, b) <==> CardByte(line, at, Alone(letter, digit), b)
    ensures cards == [Range(1, 17), Range(18, 34)]
    ensures var carves := [Carve(cards[0], ""), Carve(cards[1], "")]; InLine(line, carves) && Shared(line, carves, 1) == 1
  {
    DigitPlacesAreAll(line);
    FindsTwo(letter, digit, line, at, cards);
    SharesQuote(line, [Carve(cards[0], ""), Carve(cards[1], "")]);
  }
}
