/** The values cut out of a line before it is tokenized: the shaped numbers, the
    merge of shaped numbers and cards, and the line put together again. */
module Carves {
  import opened CardSearch
  import opened Common
  import PhoneShapes

  datatype Shaped = Shaped(range: Range, kind: string)

  /** A carve; the kind of a card is empty. */
  datatype Carve = Carve(range: Range, kind: string)

  // ---- finding shaped numbers ----

  /** The character on the left makes the candidate the tail of something else. */
  predicate Glues(c: char) { IsLetter(c) || IsDigit(c) || c in "+-./@_%" }

  predicate GluedAfter(line: string, end: int)
    requires 0 <= end
  {
    end < |line| &&
    var c := line[end];
    || IsLetter(c) || IsDigit(c) || c in "_@/%+"
    || ((c == '-' || c == '.') && end + 1 < |line| && IsDigit(line[end + 1]))
  }

  /** The token before `i` has a '?' or a "://" in it. */
  predicate InsideUrl(line: string, i: int)
    requires 0 <= i <= |line|
    decreases i
  {
    i > 0 &&
    var c := line[i - 1];
    if c in " \t\"'" then false
    else if c == '?' then true
    else if c == ':' && "://" <= line[i - 1..] then true
    else InsideUrl(line, i - 1)
  }

  /** A character that ends a token going left. */
  predicate EndsToken(c: char) { c == ' ' || c == '\t' || c == '"' || c == '\'' }

  /** The token before `i` reaches back to a '?' or a "://" at `j`. */
  ghost predicate UrlStartsAt(line: string, j: int, i: int) {
    && 0 <= j < i <= |line|
    && (line[j] == '?' || (j + 3 <= |line| && line[j..j + 3] == "://"))
    && forall k :: j <= k < i ==> !EndsToken(line[k])
  }

  lemma {:induction false} InsideUrlMeans(line: string, i: int)
    requires 0 <= i <= |line|
    ensures InsideUrl(line, i) <==> exists j :: UrlStartsAt(line, j, i)
    decreases i
  {
    if i > 0 {
      var c := line[i - 1];
      SchemeStarts(line, i - 1);
      InsideUrlMeans(line, i - 1);
      if UrlStartsAt(line, i - 1, i) {
        assert InsideUrl(line, i);
      } else if EndsToken(c) {
        forall j ensures !UrlStartsAt(line, j, i) {
        }
      } else {
        forall j ensures UrlStartsAt(line, j, i) <==> UrlStartsAt(line, j, i - 1) {
        }
        assert InsideUrl(line, i) == InsideUrl(line, i - 1);
        var m := i - 1;
        if j :| UrlStartsAt(line, j, i) { assert UrlStartsAt(line, j, m); }
        if j :| UrlStartsAt(line, j, m) { assert UrlStartsAt(line, j, i); }
      }
    }
  }

  lemma {:induction false} SchemeStarts(line: string, j: int)
    requires 0 <= j < |line|
    ensures line[j] == ':' && "://" <= line[j..] <==> j + 3 <= |line| && line[j..j + 3] == "://"
  {
    if j + 3 <= |line| { assert line[j..][..3] == line[j..j + 3]; }
    if j + 3 <= |line| && line[j..j + 3] == "://" { assert line[j] == line[j..j + 3][0]; }
  }

  method ScanInsideUrl(line: string, i: int) returns (r: bool)
    requires 0 <= i <= |line|
    ensures r == InsideUrl(line, i)
  {
    var j := i - 1;
    while j >= 0
      invariant -1 <= j < i
      invariant InsideUrl(line, i) == InsideUrl(line, j + 1)
    {
      var c := line[j];
      if c in " \t\"'" {
        return false;
      }
      if c == '?' {
        return true;
      }
      if c == ':' && "://" <= line[j..] {
        return true;
      }
      j := j - 1;
    }
    return false;
  }

  /** The end of the number that starts at a position, or 0, and its kind. */
  type Matcher = (string, int) -> (int, string)

  /** The numbers known by the key before them end inside the line and have a
      kind. The keyed matchers themselves are a parameter. */
  ghost predicate IsKeyed(line: string, keyed: Matcher) {
    forall i :: 0 <= i < |line| && IsDigit(line[i]) ==>
      keyed(line, i).0 == 0 || (i < keyed(line, i).0 <= |line| && keyed(line, i).1 != "")
  }

  /** The number that starts at a candidate: international behind a '+', North
      American at a '(' or a digit, or known by its key. */
  function Shape(keyed: Matcher, line: string, i: int): (int, string)
    requires 0 <= i < |line|
  {
    if line[i] == '+' then (PhoneShapes.International(line, i), "phone")
    else if line[i] == '(' || PhoneShapes.Nanp(line, i) != 0 then (PhoneShapes.Nanp(line, i), "phone")
    else keyed(line, i)
  }

  /** Every match moves forward and ends inside the line. */
  lemma ShapeAdvances(keyed: Matcher, line: string, i: int)
    requires IsKeyed(line, keyed) && 0 <= i < |line| && IsCandidate(line[i])
    ensures Shape(keyed, line, i).0 == 0 || (i < Shape(keyed, line, i).0 <= |line| && Shape(keyed, line, i).1 != "")
  {
    if line[i] == '+' && PhoneShapes.International(line, i) != 0 {
      PhoneShapes.InternationalIsNumber(line, i);
    }
  }

  predicate IsCandidate(c: char) { c == '+' || c == '(' || IsDigit(c) }

  /** A number of its own starts at `p`. */
  predicate Qualifies(line: string, keyed: Matcher, p: int) {
    && 0 <= p < |line|
    && IsCandidate(line[p])
    && (p > 0 ==> !Glues(line[p - 1]))
    && 0 < Shape(keyed, line, p).0
    && !GluedAfter(line, Shape(keyed, line, p).0)
    && !InsideUrl(line, p)
  }

  method SkipRun(line: string, i: int) returns (j: int)
    requires 0 <= i < |line|
    ensures i < j <= |line|
    ensures j == i + 1 || forall p :: i <= p < j ==> IsDigit(line[p])
    ensures if IsDigit(line[i]) then j == |line| || !IsDigit(line[j]) else j == i + 1
  {
    if !IsDigit(line[i]) {
      return i + 1;
    }
    j := i + 1;
    while j < |line| && IsDigit(line[j])
      invariant i < j <= |line|
      invariant forall p :: i <= p < j ==> IsDigit(line[p])
    {
      j := j + 1;
    }
  }

  ghost predicate Disjoint(nums: seq<Shaped>) {
    && (forall i :: 0 <= i < |nums| ==> nums[i].range.start < nums[i].range.end)
    && (forall i, j :: 0 <= i < j < |nums| ==> nums[i].range.end <= nums[j].range.start)
  }

  ghost predicate Inside(nums: seq<Shaped>, p: int) {
    exists i :: 0 <= i < |nums| && nums[i].range.start <= p < nums[i].range.end
  }

  /** Each number found qualifies and runs to its match's end. */
  ghost predicate AreMatches(line: string, keyed: Matcher, nums: seq<Shaped>) {
    forall i :: 0 <= i < |nums| ==>
      && Qualifies(line, keyed, nums[i].range.start)
      && nums[i].range.end == Shape(keyed, line, nums[i].range.start).0
      && nums[i].kind == Shape(keyed, line, nums[i].range.start).1
  }

  lemma InsideAppend(nums: seq<Shaped>, x: Shaped, p: int)
    ensures Inside(nums + [x], p) <==> Inside(nums, p) || x.range.start <= p < x.range.end
  {
    var all := nums + [x];
    if Inside(nums, p) {
      var i :| 0 <= i < |nums| && nums[i].range.start <= p < nums[i].range.end;
      assert all[i] == nums[i];
    }
    assert all[|nums|] == x;
  }

  /** The state of the search at `i`: sorted disjoint matches before `i`, and none missed there. */
  ghost predicate Searched(line: string, keyed: Matcher, nums: seq<Shaped>, i: int) {
    && Disjoint(nums) && AreMatches(line, keyed, nums)
    && (forall k :: 0 <= k < |nums| ==> 0 <= nums[k].range.start && nums[k].range.end <= i)
    && (forall p :: p < i && Qualifies(line, keyed, p) ==> Inside(nums, p))
  }

  /** Skipping a rejected run loses nothing: its later digits are glued to the first. */
  lemma SkipKeeps(line: string, keyed: Matcher, nums: seq<Shaped>, i: int, j: int)
    requires Searched(line, keyed, nums, i) && 0 <= i < j <= |line| && !Qualifies(line, keyed, i)
    requires j == i + 1 || forall p :: i <= p < j ==> IsDigit(line[p])
    ensures Searched(line, keyed, nums, j)
  {
    forall p | i < p < j ensures !Qualifies(line, keyed, p) {
      assert IsDigit(line[p - 1]);
    }
  }

  lemma MatchKeeps(line: string, keyed: Matcher, nums: seq<Shaped>, i: int)
    requires Searched(line, keyed, nums, i) && Qualifies(line, keyed, i) && i < Shape(keyed, line, i).0
    ensures Searched(line, keyed, nums + [Shaped(Range(i, Shape(keyed, line, i).0), Shape(keyed, line, i).1)], Shape(keyed, line, i).0)
  {
    var x := Shaped(Range(i, Shape(keyed, line, i).0), Shape(keyed, line, i).1);
    forall p | p < Shape(keyed, line, i).0 && Qualifies(line, keyed, p) ensures Inside(nums + [x], p) {
      InsideAppend(nums, x, p);
    }
  }

  /** The switch over the candidate's character. */
  method MatchShape(keyed: Matcher, line: string, i: int) returns (end: int, kind: string)
    requires 0 <= i < |line|
    ensures (end, kind) == Shape(keyed, line, i)
  {
    kind := "phone";
    if line[i] == '+' {
      end := PhoneShapes.MatchInternational(line, i);
    } else {
      end := PhoneShapes.MatchNanp(line, i);
      if line[i] != '(' && end == 0 {
        end, kind := keyed(line, i).0, keyed(line, i).1;
      }
    }
  }

  /** findShapedNumbers: sorted disjoint matches, and no number of its own left out. */
  method FindShapedNumbers(line: string, keyed: Matcher) returns (nums: seq<Shaped>)
    requires IsKeyed(line, keyed)
    ensures Disjoint(nums) && AreMatches(line, keyed, nums)
    ensures forall i :: 0 <= i < |nums| ==> 0 <= nums[i].range.start && nums[i].range.end <= |line|
    ensures forall p :: Qualifies(line, keyed, p) ==> Inside(nums, p)
  {
    nums := [];
    var i := 0;
    while i < |line|
      invariant 0 <= i <= |line| && Searched(line, keyed, nums, i)
      decreases |line| - i
    {
      var c := line[i];
      var j;
      if !IsCandidate(c) {
        j := i + 1;
      } else if i > 0 && Glues(line[i - 1]) {
        j := SkipRun(line, i);
      } else {
        var end, kind := MatchShape(keyed, line, i);
        var url := ScanInsideUrl(line, i);
        if end > 0 && !GluedAfter(line, end) && !url {
          ShapeAdvances(keyed, line, i);
          MatchKeeps(line, keyed, nums, i);
          nums := nums + [Shaped(Range(i, end), kind)];
          i := end;
          continue;
        }
        j := SkipRun(line, i);
      }
      SkipKeeps(line, keyed, nums, i, j);
      i := j;
    }
  }

  // ---- merging with the cards ----

  predicate Overlap(a: Range, b: Range) { a.start < b.end && b.start < a.end }

  ghost predicate Apart(cards: seq<Range>) {
    && (forall i :: 0 <= i < |cards| ==> cards[i].start < cards[i].end)
    && (forall i, j :: 0 <= i < j < |cards| ==> cards[i].end <= cards[j].start)
  }

  ghost predicate Clear(card: Range, nums: seq<Shaped>) { forall j :: 0 <= j < |nums| ==> !Overlap(card, nums[j].range) }

  ghost predicate InOrder(out: seq<Carve>) {
    && (forall i :: 0 <= i < |out| ==> out[i].range.start < out[i].range.end)
    && (forall i, j :: 0 <= i < j < |out| ==> out[i].range.end <= out[j].range.start)
  }

  /** A card or a number is among the carves. */
  ghost predicate Holds(out: seq<Carve>, r: Range, kind: string) { Carve(r, kind) in out }

  /** The first `i` cards and `j` numbers are merged. */
  ghost predicate Merged(cards: seq<Range>, nums: seq<Shaped>, i: int, j: int, out: seq<Carve>)
    requires 0 <= i <= |cards| && 0 <= j <= |nums|
  {
    && (forall k :: 0 <= k < j ==> Holds(out, nums[k].range, nums[k].kind))
    && (forall k :: 0 <= k < i && Clear(cards[k], nums) ==> Holds(out, cards[k], ""))
    && (forall c :: c in out ==>
      || (exists k :: 0 <= k < j && c == Carve(nums[k].range, nums[k].kind))
      || (exists k :: 0 <= k < i && c == Carve(cards[k], "") && Clear(cards[k], nums)))
  }

  /** Everything merged so far lies before what is still to come. */
  ghost predicate Behind(cards: seq<Range>, nums: seq<Shaped>, i: int, j: int, out: seq<Carve>)
    requires 0 <= i <= |cards| && 0 <= j <= |nums|
  {
    && (forall k :: 0 <= k < |out| ==>
      && (i < |cards| ==> out[k].range.end <= cards[i].start)
      && (j < |nums| ==> out[k].range.end <= nums[j].range.start))
    && (forall k :: 0 <= k < j && i < |cards| ==> nums[k].range.end <= cards[i].start)
  }

  lemma HoldsAppend(out: seq<Carve>, c: Carve, r: Range, kind: string)
    ensures Holds(out + [c], r, kind) <==> Holds(out, r, kind) || c == Carve(r, kind)
  {
    assert c in [c];
  }

  lemma MergeNumber(cards: seq<Range>, nums: seq<Shaped>, i: int, j: int, out: seq<Carve>)
    requires 0 <= i <= |cards| && 0 <= j < |nums| && Merged(cards, nums, i, j, out)
    ensures Merged(cards, nums, i, j + 1, out + [Carve(nums[j].range, nums[j].kind)])
  {
    var c := Carve(nums[j].range, nums[j].kind);
    forall r: Range, kind: string ensures Holds(out, r, kind) ==> Holds(out + [c], r, kind) { HoldsAppend(out, c, r, kind); }
    HoldsAppend(out, c, nums[j].range, nums[j].kind);
  }

  lemma MergeCard(cards: seq<Range>, nums: seq<Shaped>, i: int, j: int, out: seq<Carve>)
    requires 0 <= i < |cards| && 0 <= j <= |nums| && Merged(cards, nums, i, j, out) && Clear(cards[i], nums)
    ensures Merged(cards, nums, i + 1, j, out + [Carve(cards[i], "")])
  {
    var c := Carve(cards[i], "");
    forall r: Range, kind: string ensures Holds(out, r, kind) ==> Holds(out + [c], r, kind) { HoldsAppend(out, c, r, kind); }
    HoldsAppend(out, c, cards[i], "");
  }

  ghost predicate MergeLoop(cards: seq<Range>, nums: seq<Shaped>, i: int, j: int, out: seq<Carve>) {
    && 0 <= i <= |cards| && 0 <= j <= |nums|
    && Apart(cards) && Disjoint(nums)
    && Merged(cards, nums, i, j, out)
    && InOrder(out) && Behind(cards, nums, i, j, out)
  }

  lemma NumberStep(cards: seq<Range>, nums: seq<Shaped>, i: int, j: int, out: seq<Carve>)
    requires MergeLoop(cards, nums, i, j, out) && j < |nums| && (i >= |cards| || nums[j].range.end <= cards[i].start)
    ensures MergeLoop(cards, nums, i, j + 1, out + [Carve(nums[j].range, nums[j].kind)])
  {
    MergeNumber(cards, nums, i, j, out);
  }

  lemma CardStep(cards: seq<Range>, nums: seq<Shaped>, i: int, j: int, out: seq<Carve>)
    requires MergeLoop(cards, nums, i, j, out) && i < |cards| && (j >= |nums| || cards[i].end <= nums[j].range.start)
    ensures MergeLoop(cards, nums, i + 1, j, out + [Carve(cards[i], "")])
  {
    MergeCard(cards, nums, i, j, out);
  }

  lemma DropStep(cards: seq<Range>, nums: seq<Shaped>, i: int, j: int, out: seq<Carve>)
    requires MergeLoop(cards, nums, i, j, out) && i < |cards| && j < |nums| && Overlap(cards[i], nums[j].range)
    ensures MergeLoop(cards, nums, i + 1, j, out)
  {
  }

  /** mergeCarves: sorted and disjoint; every shaped number stays, and a card
      stays exactly when it overlaps none. */
  method MergeCarves(cards: seq<Range>, nums: seq<Shaped>) returns (out: seq<Carve>)
    requires Apart(cards) && Disjoint(nums)
    ensures InOrder(out) && Merged(cards, nums, |cards|, |nums|, out)
    ensures (forall j :: 0 <= j < |nums| ==> nums[j].kind != "") ==>
      forall k :: 0 <= k < |cards| ==> (Holds(out, cards[k], "") <==> Clear(cards[k], nums))
  {
    out := [];
    var i, j := 0, 0;
    while i < |cards| || j < |nums|
      invariant MergeLoop(cards, nums, i, j, out)
      decreases |cards| + |nums| - i - j
    {
      if j >= |nums| {
        CardStep(cards, nums, i, j, out);
        out := out + [Carve(cards[i], "")];
        i := i + 1;
      } else if i >= |cards| || nums[j].range.end <= cards[i].start {
        NumberStep(cards, nums, i, j, out);
        out := out + [Carve(nums[j].range, nums[j].kind)];
        j := j + 1;
      } else if cards[i].end <= nums[j].range.start {
        CardStep(cards, nums, i, j, out);
        out := out + [Carve(cards[i], "")];
        i := i + 1;
      } else {
        DropStep(cards, nums, i, j, out);
        i := i + 1;
      }
    }
  }

  // ---- the line put together ----

  /** What scanLine writes: a segment for the tokenizer, a quote, or a carved value. */
  datatype Piece = Segment(text: string) | Quote(c: char) | Value(text: string)

  function TextOf(p: Piece): string {
    match p
    case Segment(text) => text
    case Quote(c) => [c]
    case Value(text) => text
  }

  function Join(ps: seq<Piece>): string {
    if ps == [] then [] else Join(ps[..|ps| - 1]) + TextOf(ps[|ps| - 1])
  }

  ghost predicate Within(line: string, carves: seq<Carve>) {
    InOrder(carves) && forall i :: 0 <= i < |carves| ==> 0 <= carves[i].range.start && carves[i].range.end <= |line|
  }

  /** The value is quoted on both sides with one quote. */
  predicate IsQuoted(line: string, r: Range)
    requires 0 <= r.start <= r.end <= |line|
  {
    && r.start > 0 && r.end < |line|
    && (line[r.start - 1] == '"' || line[r.start - 1] == '\'')
    && line[r.end] == line[r.start - 1]
  }

  /** The bytes a carve takes, its quotes included. */
  function Widened(line: string, r: Range): Range
    requires 0 <= r.start <= r.end <= |line|
  {
    if IsQuoted(line, r) then Range(r.start - 1, r.end + 1) else r
  }

  ghost predicate InLine(line: string, carves: seq<Carve>) {
    forall i :: 0 <= i < |carves| ==> 0 <= carves[i].range.start <= carves[i].range.end <= |line|
  }

  /** Where the text written after the first `k` carves ends. */
  function ChunkStart(line: string, carves: seq<Carve>, k: int): int
    requires InLine(line, carves) && 0 <= k <= |carves|
  {
    if k == 0 then 0 else Widened(line, carves[k - 1].range).end
  }

  /** How many bytes carve `k` claims that its left neighbour claimed already. */
  function Shared(line: string, carves: seq<Carve>, k: int): nat
    requires InLine(line, carves) && 0 <= k < |carves|
  {
    var start, chunk := Widened(line, carves[k].range).start, ChunkStart(line, carves, k);
    if start < chunk then chunk - start else 0
  }

  function SharedBelow(line: string, carves: seq<Carve>, k: int): nat
    requires InLine(line, carves) && 0 <= k <= |carves|
  {
    if k == 0 then 0 else SharedBelow(line, carves, k - 1) + Shared(line, carves, k - 1)
  }

  /** The pieces of one carve: the segment before it, and the value in its quotes. */
  function PiecesOf(line: string, r: Range, chunk: int): seq<Piece>
    requires 0 <= r.start <= r.end <= |line| && 0 <= chunk <= |line|
  {
    var w := Widened(line, r);
    (if w.start > chunk then [Segment(line[chunk..w.start])] else []) + InQuotes(line, r)
  }

  function InQuotes(line: string, r: Range): seq<Piece>
    requires 0 <= r.start <= r.end <= |line|
  {
    var v := Value(line[r.start..r.end]);
    if IsQuoted(line, r) then [Quote(line[r.start - 1]), v, Quote(line[r.start - 1])] else [v]
  }

  lemma {:induction false} JoinAppend(ps: seq<Piece>, qs: seq<Piece>)
    ensures Join(ps + qs) == Join(ps) + Join(qs)
    decreases |qs|
  {
    if qs == [] {
      assert ps + qs == ps;
    } else {
      var all, front := ps + qs, qs[..|qs| - 1];
      assert all[..|all| - 1] == ps + front;
      JoinAppend(ps, front);
      Assoc(Join(ps), Join(front), TextOf(qs[|qs| - 1]));
    }
  }

  lemma Assoc(a: string, b: string, c: string)
    ensures (a + b) + c == a + (b + c)
  {
  }

  lemma JoinOne(p: Piece)
    ensures Join([p]) == TextOf(p)
  {
    assert [p][..0] == [];
  }

  lemma JoinThree(a: Piece, b: Piece, c: Piece)
    ensures Join([a, b, c]) == TextOf(a) + TextOf(b) + TextOf(c)
  {
    assert [a, b, c][..2] == [a, b];
    assert [a, b][..1] == [a];
    JoinOne(a);
  }

  lemma QuotedSlice(line: string, i: int, j: int)
    requires 0 < i <= j < |line|
    ensures [line[i - 1]] + line[i..j] + [line[j]] == line[i - 1..j + 1]
  {
  }

  lemma {:induction false} JoinInQuotes(line: string, r: Range)
    requires 0 <= r.start <= r.end <= |line|
    ensures Join(InQuotes(line, r)) == line[Widened(line, r).start..Widened(line, r).end]
  {
    var v := Value(line[r.start..r.end]);
    if IsQuoted(line, r) {
      JoinThree(Quote(line[r.start - 1]), v, Quote(line[r.start - 1]));
      QuotedSlice(line, r.start, r.end);
    } else {
      JoinOne(v);
    }
  }

  lemma {:induction false} JoinPieces(line: string, r: Range, chunk: int)
    requires 0 <= r.start <= r.end <= |line| && 0 <= chunk <= |line|
    ensures var w := Widened(line, r);
      Join(PiecesOf(line, r, chunk)) == (if w.start > chunk then line[chunk..w.start] else []) + line[w.start..w.end]
  {
    var w, value := Widened(line, r), InQuotes(line, r);
    JoinInQuotes(line, r);
    if w.start > chunk {
      var before := Segment(line[chunk..w.start]);
      JoinOne(before);
      JoinAppend([before], value);
      assert PiecesOf(line, r, chunk) == [before] + value;
    } else {
      assert PiecesOf(line, r, chunk) == InQuotes(line, r);
    }
  }

  /** The text written for the first `k` carves. */
  ghost predicate Written(line: string, carves: seq<Carve>, k: int, out: seq<Piece>)
    requires InLine(line, carves) && 0 <= k <= |carves|
  {
    && |Join(out)| == ChunkStart(line, carves, k) + SharedBelow(line, carves, k)
    && (SharedBelow(line, carves, k) == 0 ==> Join(out) == line[..ChunkStart(line, carves, k)])
  }

  lemma WrittenStep(line: string, carves: seq<Carve>, k: int, out: seq<Piece>)
    requires InLine(line, carves) && 0 <= k < |carves| && Written(line, carves, k, out)
    ensures Written(line, carves, k + 1, out + PiecesOf(line, carves[k].range, ChunkStart(line, carves, k)))
  {
    var r, chunk := carves[k].range, ChunkStart(line, carves, k);
    var w := Widened(line, r);
    JoinAppend(out, PiecesOf(line, r, chunk));
    JoinPieces(line, r, chunk);
    PiecesFollow(line, Join(out), chunk, w.start, w.end);
  }

  /** The text of one carve after a text that ended at `chunk`. */
  lemma PiecesFollow(line: string, before: string, chunk: int, start: int, end: int)
    requires 0 <= chunk <= |line| && 0 <= start <= end <= |line|
    ensures
      var after := before + ((if start > chunk then line[chunk..start] else []) + line[start..end]);
      && |after| == |before| + (if start > chunk then start - chunk else 0) + end - start
      && (before == line[..chunk] && start >= chunk ==> after == line[..end])
  {
  }

  /** One carve: its quotes go with it and come back around the value. */
  method CutOne(line: string, r: Range, chunk: int) returns (now: seq<Piece>, end: int)
    requires 0 <= r.start <= r.end <= |line| && 0 <= chunk <= |line|
    ensures now == PiecesOf(line, r, chunk) && end == Widened(line, r).end
  {
    var start;
    start, end := r.start, r.end;
    var quoted := start > 0 && end < |line| && (line[start - 1] == '"' || line[start - 1] == '\'') && line[end] == line[start - 1];
    if quoted {
      start, end := start - 1, end + 1;
    }
    now := [];
    if start > chunk {
      now := now + [Segment(line[chunk..start])];
    }
    if quoted {
      now := now + [Quote(line[start])];
    }
    now := now + [Value(line[r.start..r.end])];
    if quoted {
      now := now + [Quote(line[start])];
    }
  }

  /** scanLine's carve loop. With nothing hidden, the pieces spell the line
      exactly when no two carves claim a byte together; every byte claimed twice
      is written twice. */
  method CutLine(line: string, carves: seq<Carve>) returns (out: seq<Piece>)
    requires InLine(line, carves)
    ensures |Join(out)| == |line| + SharedBelow(line, carves, |carves|)
    ensures Join(out) == line <==> forall k :: 0 <= k < |carves| ==> Shared(line, carves, k) == 0
  {
    out := [];
    var chunk := 0;
    for k := 0 to |carves|
      invariant chunk == ChunkStart(line, carves, k)
      invariant Written(line, carves, k, out)
    {
      WrittenStep(line, carves, k, out);
      var now;
      now, chunk := CutOne(line, carves[k].range, chunk);
      out := out + now;
    }
    WrittenAll(line, carves, out);
    if chunk < |line| {
      out := out + [Segment(line[chunk..])];
    }
  }

  lemma WrittenAll(line: string, carves: seq<Carve>, out: seq<Piece>)
    requires InLine(line, carves) && Written(line, carves, |carves|, out)
    ensures var chunk := ChunkStart(line, carves, |carves|);
      var all := if chunk < |line| then out + [Segment(line[chunk..])] else out;
      && |Join(all)| == |line| + SharedBelow(line, carves, |carves|)
      && (Join(all) == line <==> forall k :: 0 <= k < |carves| ==> Shared(line, carves, k) == 0)
  {
    var chunk := ChunkStart(line, carves, |carves|);
    JoinAppend(out, [Segment(line[chunk..])]);
    JoinOne(Segment(line[chunk..]));
    assert line[..chunk] + line[chunk..] == line;
    NothingShared(line, carves, |carves|);
  }

  lemma {:induction false} NothingShared(line: string, carves: seq<Carve>, k: int)
    requires InLine(line, carves) && 0 <= k <= |carves|
    ensures SharedBelow(line, carves, k) == 0 <==> forall i :: 0 <= i < k ==> Shared(line, carves, i) == 0
    decreases k
  {
    if k > 0 { NothingShared(line, carves, k - 1); }
  }

  // ---- the whole line ----

  /** The ranges of the card search lie in the line, one after the other. */
  lemma CardsInLine(line: string, at: seq<int>, boundary: Boundary, cards: seq<Range>)
    requires ArePositions(line, at) && Separated(cards)
    requires forall b :: CoveredBy(cards, b) <==> CardByte(line, at, boundary, b)
    ensures Apart(cards) && forall k :: 0 <= k < |cards| ==> 0 <= cards[k].start && cards[k].end <= |line|
  {
    forall k | 0 <= k < |cards|
      ensures 0 <= cards[k].start && cards[k].end <= |line|
    {
      assert Covers(cards[k], cards[k].start) && Covers(cards[k], cards[k].end - 1);
      assert CoveredBy(cards, cards[k].start) && CoveredBy(cards, cards[k].end - 1);
      CardByteInLine(line, at, boundary, cards[k].start);
      CardByteInLine(line, at, boundary, cards[k].end - 1);
    }
  }

  lemma CardByteInLine(line: string, at: seq<int>, boundary: Boundary, b: int)
    requires ArePositions(line, at) && CardByte(line, at, boundary, b)
    ensures 0 <= b < |line|
  {
  }

  lemma CarvesInLine(line: string, cards: seq<Range>, nums: seq<Shaped>, carves: seq<Carve>)
    requires InOrder(carves) && Merged(cards, nums, |cards|, |nums|, carves)
    requires forall k :: 0 <= k < |cards| ==> 0 <= cards[k].start && cards[k].end <= |line|
    requires forall k :: 0 <= k < |nums| ==> 0 <= nums[k].range.start && nums[k].range.end <= |line|
    ensures Within(line, carves)
  {
    forall i | 0 <= i < |carves|
      ensures 0 <= carves[i].range.start && carves[i].range.end <= |line|
    {
      assert carves[i] in carves;
    }
  }

  /** scanLine from the search to the pieces: cards, unless the threshold asks for
      a context that the line does not have, and shaped numbers are found,
      merged and cut out, and with nothing hidden the line comes back exactly when
      no two carves claim a byte together. */
  method CarveLine(line: string, boundary: Boundary, keyed: Matcher, confident: bool)
    returns (cards: seq<Range>, nums: seq<Shaped>, carves: seq<Carve>, out: seq<Piece>)
    requires IsKeyed(line, keyed)
    ensures ArePositions(line, Positions(line, |line|))
    ensures forall b :: CoveredBy(cards, b) <==> confident && CardByte(line, Positions(line, |line|), boundary, b)
    ensures AreMatches(line, keyed, nums) && forall p :: Qualifies(line, keyed, p) ==> Inside(nums, p)
    ensures Within(line, carves) && Merged(cards, nums, |cards|, |nums|, carves)
    ensures forall k :: 0 <= k < |cards| ==> (Holds(carves, cards[k], "") <==> Clear(cards[k], nums))
    ensures |Join(out)| == |line| + SharedBelow(line, carves, |carves|)
    ensures Join(out) == line <==> forall k :: 0 <= k < |carves| ==> Shared(line, carves, k) == 0
  {
    cards := FindLuhnSequences(line, boundary);
    CardsInLine(line, Positions(line, |line|), boundary, cards);
    if !confident {
      cards := [];
    }
    nums := FindShapedNumbers(line, keyed);
    NumbersHaveKinds(line, keyed, nums);
    carves := MergeCarves(cards, nums);
    CarvesInLine(line, cards, nums, carves);
    out := CutLine(line, carves);
  }

  lemma NumbersHaveKinds(line: string, keyed: Matcher, nums: seq<Shaped>)
    requires IsKeyed(line, keyed) && AreMatches(line, keyed, nums)
    ensures forall j :: 0 <= j < |nums| ==> nums[j].kind != ""
  {
    forall j | 0 <= j < |nums|
      ensures nums[j].kind != ""
    {
      assert Qualifies(line, keyed, nums[j].range.start);
      ShapeAdvances(keyed, line, nums[j].range.start);
    }
  }
}
