/** The shapes a telephone number is found by: international, grouped and North
    American. Each matcher returns the end of the number, or 0. */
module PhoneShapes {
  import opened Common

  const MIN_DIGITS: int := 8
  const MAX_DIGITS: int := 15
  const MAX_GROUP: int := 8
  const MAX_AREA: int := 4
  const MAX_GROUPS: int := 6

  /** The digits of line[p..q]. */
  function DigitCount(line: string, p: int, q: int): (n: nat)
    requires 0 <= p && q <= |line|
    decreases q - p
  {
    if q <= p then 0 else DigitCount(line, p, q - 1) + if IsDigit(line[q - 1]) then 1 else 0
  }

  function DotCount(line: string, p: int, q: int): (n: nat)
    requires 0 <= p && q <= |line|
    decreases q - p
  {
    if q <= p then 0 else DotCount(line, p, q - 1) + if line[q - 1] == '.' then 1 else 0
  }

  predicate IsSeparator(c: char) { c == ' ' || c == '-' || c == '.' }

  ghost predicate IsPhoneText(line: string, p: int, q: int)
    requires 0 <= p && q <= |line|
  {
    forall i :: p <= i < q ==> IsDigit(line[i]) || IsSeparator(line[i]) || line[i] == '(' || line[i] == ')'
  }

  /** The end of the digits from `k`, at most `most` of them. */
  function DigitsEnd(line: string, k: int, most: int): (end: int)
    requires 0 <= k <= |line| && 0 <= most
    ensures k <= end <= |line| && end - k <= most
    ensures forall i :: k <= i < end ==> IsDigit(line[i])
    ensures end - k < most ==> end == |line| || !IsDigit(line[end])
    decreases most
  {
    if k < |line| && IsDigit(line[k]) && most > 0 then DigitsEnd(line, k + 1, most - 1) else k
  }

  method TakeDigits(line: string, k: int, most: int) returns (end: int)
    requires 0 <= k <= |line| && 0 <= most
    ensures end == DigitsEnd(line, k, most)
  {
    end := k;
    while end < |line| && IsDigit(line[end]) && end - k < most
      invariant k <= end <= |line| && end - k <= most
      invariant DigitsEnd(line, end, most - (end - k)) == DigitsEnd(line, k, most)
    {
      end := end + 1;
    }
  }

  lemma {:induction false} CountDigits(line: string, p: int, k: int, end: int)
    requires 0 <= p <= k <= end <= |line| && forall i :: k <= i < end ==> IsDigit(line[i])
    ensures DigitCount(line, p, end) == DigitCount(line, p, k) + (end - k)
    ensures DotCount(line, p, end) == DotCount(line, p, k)
    decreases end
  {
    if k < end { CountDigits(line, p, k, end - 1); }
  }

  /** What the group loop has matched: up to `end`, counting from `from`. */
  ghost predicate Grouped(line: string, from: int, have: int, end: int, digits: int) {
    && 0 <= from <= |line|
    && (end == 0 ==> digits == have)
    && (end != 0 ==>
      && from < end <= |line|
      && digits == have + DigitCount(line, from, end)
      && IsPhoneText(line, from, end)
      && (IsDigit(line[end - 1]) || line[end - 1] == ')')
      && (line[end - 1] != ')' ==> end == |line| || !IsDigit(line[end])))
  }

  /** Groups read so far: the end of the last, where the next starts, the digits
      and the dots counted, and whether the next needs no separator. */
  datatype Reading = Reading(end: int, next: int, digits: int, sep: char, dots: int, groups: int, free: bool)

  /** The position after a separator that fits the reading, or None. */
  function AfterSeparator(line: string, r: Reading): (k: Option<int>)
    requires 0 <= r.next <= |line|
  {
    if r.next < |line| && IsSeparator(line[r.next]) then
      if r.sep == '\0' || r.sep == line[r.next] then Some(r.next + 1) else None
    else if r.groups > 0 && !r.free then None
    else Some(r.next)
  }

  /** The reading with the separator before `k` noted. */
  function Noted(line: string, r: Reading, k: int): Reading
    requires 0 <= r.next <= k <= |line|
  {
    if k == r.next then r
    else r.(sep := line[r.next], dots := r.dots + if line[r.next] == '.' then 1 else 0)
  }

  predicate IsArea(line: string, k: int)
    requires 0 <= k < |line| && line[k] == '('
  {
    var e := DigitsEnd(line, k + 1, MAX_AREA);
    e > k + 1 && e < |line| && line[e] == ')'
  }

  predicate IsGroup(line: string, k: int)
    requires 0 <= k <= |line|
  {
    var e := DigitsEnd(line, k, MAX_GROUP);
    e > k && !(e < |line| && IsDigit(line[e]))
  }

  /** An area code in parentheses; a space and a digit may follow without a separator. */
  function WithArea(line: string, r: Reading, k: int): Reading
    requires 0 <= k < |line| && line[k] == '(' && IsArea(line, k)
  {
    var e := DigitsEnd(line, k + 1, MAX_AREA) + 1;
    var free := e + 1 < |line| && line[e] == ' ' && IsDigit(line[e + 1]);
    Reading(e, if free then e + 1 else e, r.digits + (e - k - 2), '\0', r.dots, r.groups + 1, free)
  }

  function WithGroup(line: string, r: Reading, k: int): Reading
    requires 0 <= k <= |line|
  {
    var e := DigitsEnd(line, k, MAX_GROUP);
    Reading(e, e, r.digits + (e - k), r.sep, r.dots, r.groups + 1, false)
  }

  ghost predicate InLine(line: string, r: Reading) { 0 <= r.next <= |line| && 0 <= r.groups <= MAX_GROUPS }

  /** One more group, if there is one; a separator is noted either way. */
  function Step(line: string, parens: bool, r: Reading): (Reading, bool)
    requires InLine(line, r)
  {
    if AfterSeparator(line, r).None? then (r, false)
    else
      var k := AfterSeparator(line, r).value;
      var r' := Noted(line, r, k);
      if parens && r.groups == 0 && k < |line| && line[k] == '(' then
        if IsArea(line, k) then (WithArea(line, r', k), true) else (r', false)
      else if IsGroup(line, k) then (WithGroup(line, r', k), true)
      else (r', false)
  }

  /** The reading after as many groups as follow, six at most. */
  function Read(line: string, parens: bool, r: Reading): Reading
    requires InLine(line, r)
    decreases MAX_GROUPS - r.groups
  {
    if r.groups == MAX_GROUPS then r
    else
      var (r', more) := Step(line, parens, r);
      if more then Read(line, parens, r') else r'
  }

  function Start(from: int, have: int): Reading { Reading(0, from, have, '\0', 0, 0, false) }

  /** The end of the groups from `from` and the digits with them, or (0, 0). */
  function Groups(line: string, from: int, have: int, parens: bool): (int, int)
    requires 0 <= from <= |line|
  {
    var r := Read(line, parens, Start(from, have));
    if r.end == 0 || r.dots == 1 then (0, 0) else (r.end, r.digits)
  }

  /** The digits of a group or of an area code, behind the separator. */
  method TakeGroup(line: string, parens: bool, r: Reading, k: int) returns (r': Reading, more: bool)
    requires 0 <= k <= |line|
    ensures (r', more) ==
      if parens && r.groups == 0 && k < |line| && line[k] == '(' then
        if IsArea(line, k) then (WithArea(line, r, k), true) else (r, false)
      else if IsGroup(line, k) then (WithGroup(line, r, k), true)
      else (r, false)
  {
    r', more := r, false;
    if parens && r.groups == 0 && k < |line| && line[k] == '(' {
      var e := TakeDigits(line, k + 1, MAX_AREA);
      if e == k + 1 || e >= |line| || line[e] != ')' {
        return;
      }
      var d := e - (k + 1);
      e := e + 1;
      r' := Reading(e, e, r.digits + d, '\0', r.dots, r.groups + 1, false);
      if e < |line| && line[e] == ' ' && e + 1 < |line| && IsDigit(line[e + 1]) {
        r' := r'.(next := e + 1, free := true);
      }
    } else {
      var e := TakeDigits(line, k, MAX_GROUP);
      if e == k || (e < |line| && IsDigit(line[e])) {
        return;
      }
      r' := Reading(e, e, r.digits + (e - k), r.sep, r.dots, r.groups + 1, false);
    }
    more := true;
  }

  /** One turn of the group loop. */
  method TakeStep(line: string, parens: bool, r: Reading) returns (r': Reading, more: bool)
    requires InLine(line, r)
    ensures (r', more) == Step(line, parens, r)
  {
    r' := r;
    var k := r.next;
    if k < |line| && IsSeparator(line[k]) {
      if r.sep == '\0' {
        r' := r'.(sep := line[k]);
      } else if line[k] != r.sep {
        return r', false;
      }
      if line[k] == '.' {
        r' := r'.(dots := r.dots + 1);
      }
      k := k + 1;
    } else if r.groups > 0 && !r.free {
      return r', false;
    }
    r', more := TakeGroup(line, parens, r', k);
  }

  /** matchPhoneGroups. */
  method MatchGroups(line: string, from: int, have: int, parens: bool) returns (end: int, digits: int)
    requires 0 <= from <= |line|
    ensures (end, digits) == Groups(line, from, have, parens)
  {
    var r := Start(from, have);
    var more := true;
    while more && r.groups < MAX_GROUPS
      invariant InLine(line, r)
      invariant (if more then Read(line, parens, r) else r) == Read(line, parens, Start(from, have))
      decreases more, MAX_GROUPS - r.groups
    {
      r, more := TakeStep(line, parens, r);
    }
    if r.end == 0 || r.dots == 1 {
      return 0, 0;
    }
    return r.end, r.digits;
  }

  /** A reading counts the digits it passed, and its dots. */
  ghost predicate Counts(line: string, from: int, have: int, r: Reading) {
    && InLine(line, r) && Grouped(line, from, have, r.end, r.digits)
    && from <= r.next && (r.end == 0 ==> r.next == from)
    && (r.end != 0 ==> r.next == r.end || (r.next == r.end + 1 && r.next < |line| && IsDigit(line[r.next])))
    && DigitCount(line, from, r.next) == r.digits - have && IsPhoneText(line, from, r.next)
    && r.dots == DotCount(line, from, r.next) == DotCount(line, from, if r.end == 0 then from else r.end)
    && (r.groups == 0 ==> r.end == 0)
    && (r.end != 0 && line[r.end - 1] == ')' ==> r.digits <= have + MAX_AREA)
  }

  lemma GroupCounts(line: string, from: int, have: int, r: Reading, k: int)
    requires Counts(line, from, have, r) && r.groups < MAX_GROUPS
    requires AfterSeparator(line, r) == Some(k) && IsGroup(line, k)
    ensures Counts(line, from, have, WithGroup(line, Noted(line, r, k), k))
  {
    SeparatorCounts(line, from, have, r, k);
    CountDigits(line, from, k, DigitsEnd(line, k, MAX_GROUP));
  }

  lemma AreaCounts(line: string, from: int, have: int, r: Reading, k: int)
    requires Counts(line, from, have, r) && r.groups < MAX_GROUPS
    requires r.groups == 0 && AfterSeparator(line, r) == Some(k) && k < |line| && line[k] == '(' && IsArea(line, k)
    ensures Counts(line, from, have, WithArea(line, Noted(line, r, k), k))
  {
    var e := DigitsEnd(line, k + 1, MAX_AREA);
    CountArea(line, from, k, e);
    AreaText(line, from, k, e);
    SeparatorCounts(line, from, have, r, k);
  }

  /** A separator holds no digit, and a dot if it is one. */
  lemma SeparatorCounts(line: string, from: int, have: int, r: Reading, k: int)
    requires Counts(line, from, have, r) && AfterSeparator(line, r) == Some(k)
    ensures r.next <= k <= |line| && IsPhoneText(line, from, k)
    ensures DigitCount(line, from, k) == r.digits - have && DotCount(line, from, k) == Noted(line, r, k).dots
  {
  }

  lemma AreaText(line: string, from: int, k: int, e: int)
    requires 0 <= from <= k < e < |line| && line[k] == '(' && line[e] == ')' && IsPhoneText(line, from, k)
    requires forall i :: k < i < e ==> IsDigit(line[i])
    ensures IsPhoneText(line, from, e + 1) && (e + 1 < |line| && line[e + 1] == ' ' ==> IsPhoneText(line, from, e + 2))
  {
  }

  /** Parentheses around digits count for nothing themselves. */
  lemma CountArea(line: string, from: int, k: int, e: int)
    requires 0 <= from <= k < e < |line| && line[k] == '(' && line[e] == ')' && forall i :: k < i < e ==> IsDigit(line[i])
    ensures DigitCount(line, from, e + 1) == DigitCount(line, from, k) + (e - k - 1)
    ensures DotCount(line, from, e + 1) == DotCount(line, from, k)
    ensures e + 1 < |line| && line[e + 1] == ' ' ==>
      && DigitCount(line, from, e + 2) == DigitCount(line, from, e + 1)
      && DotCount(line, from, e + 2) == DotCount(line, from, e + 1)
  {
    CountDigits(line, from, k + 1, e);
    assert DigitCount(line, from, k + 1) == DigitCount(line, from, k);
  }

  /** The reading of the last group that was there, without a separator noted behind it. */
  function Settled(line: string, parens: bool, r: Reading): Reading
    requires InLine(line, r)
    decreases MAX_GROUPS - r.groups
  {
    if r.groups < MAX_GROUPS && Step(line, parens, r).1 then Settled(line, parens, Step(line, parens, r).0) else r
  }

  /** A dot follows that the code counts: it fits the separator and a group might follow it. */
  predicate DotFollows(line: string, r: Reading) {
    && r.groups < MAX_GROUPS && 0 <= r.next < |line| && line[r.next] == '.'
    && (r.sep == '\0' || r.sep == '.')
  }

  lemma StepCounts(line: string, from: int, have: int, parens: bool, r: Reading)
    requires Counts(line, from, have, r) && r.groups < MAX_GROUPS && Step(line, parens, r).1
    ensures Counts(line, from, have, Step(line, parens, r).0)
  {
    var k := AfterSeparator(line, r).value;
    if parens && r.groups == 0 && k < |line| && line[k] == '(' {
      AreaCounts(line, from, have, r, k);
    } else {
      GroupCounts(line, from, have, r, k);
    }
  }

  /** A step that reads no group changes nothing but counts the dot it passed. */
  lemma StopCounts(line: string, parens: bool, r: Reading)
    requires InLine(line, r) && r.groups < MAX_GROUPS && !Step(line, parens, r).1
    ensures var r' := Step(line, parens, r).0;
      r'.end == r.end && r'.digits == r.digits && r'.dots == r.dots + if DotFollows(line, r) then 1 else 0
  {
  }

  lemma {:induction false} ReadSettles(line: string, from: int, have: int, parens: bool, r: Reading)
    requires Counts(line, from, have, r)
    ensures Counts(line, from, have, Settled(line, parens, r))
    ensures var f, g := Read(line, parens, r), Settled(line, parens, r);
      f.end == g.end && f.digits == g.digits && f.dots == g.dots + if DotFollows(line, g) then 1 else 0
    decreases MAX_GROUPS - r.groups
  {
    if r.groups < MAX_GROUPS {
      if Step(line, parens, r).1 {
        StepCounts(line, from, have, parens, r);
        ReadSettles(line, from, have, parens, Step(line, parens, r).0);
      } else {
        StopCounts(line, parens, r);
      }
    }
  }

  /** A match: the digits counted are the digits matched, it ends in a digit or in
      the ')' of an area code alone, and not inside a run of digits. */
  lemma GroupsCount(line: string, from: int, have: int, parens: bool)
    requires 0 <= from <= |line|
    ensures
      var (end, digits) := Groups(line, from, have, parens);
      end != 0 ==>
        && Grouped(line, from, have, end, digits)
        && (line[end - 1] == ')' ==> digits <= have + MAX_AREA)
  {
    ReadSettles(line, from, have, parens, Start(from, have));
  }

  /** When the groups read are accepted: the dots in them and the dot that follows,
      counted together, must not be exactly one. So one dot inside is accepted
      exactly if another follows, and a match without dots is refused exactly if
      one follows. */
  lemma GroupsAccept(line: string, from: int, have: int, parens: bool)
    requires 0 <= from <= |line|
    ensures
      var g := Settled(line, parens, Start(from, have));
      && Grouped(line, from, have, g.end, g.digits)
      && (Groups(line, from, have, parens).0 != 0 <==>
        && g.end != 0
        && (DotCount(line, from, g.end) == 0 ==> !DotFollows(line, g))
        && (DotCount(line, from, g.end) == 1 ==> DotFollows(line, g)))
      && (Groups(line, from, have, parens).0 != 0 ==> Groups(line, from, have, parens) == (g.end, g.digits))
      && (g.end != 0 && DotFollows(line, g) ==> g.next == g.end)
  {
    ReadSettles(line, from, have, parens, Start(from, have));
  }

  ghost predicate IsNumber(line: string, i: int, end: int, least: int, most: int) {
    && 0 <= i < end <= |line|
    && least <= DigitCount(line, i, end) <= most
    && IsDigit(line[end - 1])
    && (end == |line| || !IsDigit(line[end]))
  }

  lemma {:induction false} CountJoins(line: string, p: int, q: int, r: int)
    requires 0 <= p <= q <= r <= |line|
    ensures DigitCount(line, p, r) == DigitCount(line, p, q) + DigitCount(line, q, r)
    decreases r
  {
    if q < r { CountJoins(line, p, q, r - 1); }
  }

  function InRange(digits: int, end: int): int { if MIN_DIGITS <= digits <= MAX_DIGITS then end else 0 }

  /** The end of the number behind a '+': a run of more than three digits is the
      whole number, a shorter one is the country code of a grouped number. */
  function International(line: string, i: int): int
    requires 0 <= i < |line|
  {
    var run := DigitsEnd(line, i + 1, |line|) - (i + 1);
    if run == 0 then 0
    else if run > 3 then InRange(run, i + 1 + run)
    else var (e, digits) := Groups(line, i + 1 + run, run, true); InRange(digits, e)
  }

  /** matchInternationalPhone. */
  method MatchInternational(line: string, i: int) returns (end: int)
    requires 0 <= i < |line|
    ensures end == International(line, i)
  {
    var j := TakeDigits(line, i + 1, 3);
    var cc := j - (i + 1);
    RunOf(line, i + 1, j, DigitsEnd(line, i + 1, |line|));
    if cc == 0 {
      return 0;
    }
    if j < |line| && IsDigit(line[j]) {
      var e := TakeDigits(line, j, |line|);
      RunOf(line, i + 1, e, DigitsEnd(line, i + 1, |line|));
      var digits := cc + (e - j);
      if digits < MIN_DIGITS || digits > MAX_DIGITS {
        return 0;
      }
      return e;
    }
    var e, more := MatchGroups(line, j, cc, true);
    if e == 0 || more < MIN_DIGITS || more > MAX_DIGITS {
      return 0;
    }
    return e;
  }

  /** A match has 8 to 15 digits, starts with one behind the '+', ends with one, and none follows it. */
  lemma InternationalIsNumber(line: string, i: int)
    requires 0 <= i < |line| && line[i] == '+' && International(line, i) != 0
    ensures IsNumber(line, i, International(line, i), MIN_DIGITS, MAX_DIGITS) && IsDigit(line[i + 1])
  {
    var j, end := DigitsEnd(line, i + 1, |line|), International(line, i);
    CountDigits(line, i, i + 1, j);
    if j - (i + 1) <= 3 {
      GroupsCount(line, j, j - (i + 1), true);
      CountJoins(line, i, j, end);
    }
  }

  /** Two digit runs from one place: the one that no digit follows is the longer. */
  lemma RunOf(line: string, k: int, e: int, full: int)
    requires 0 <= k <= e <= |line| && k <= full <= |line|
    requires forall i :: k <= i < e ==> IsDigit(line[i])
    requires (forall i :: k <= i < full ==> IsDigit(line[i])) && (full == |line| || !IsDigit(line[full]))
    ensures e <= full && (e == |line| || !IsDigit(line[e]) ==> e == full)
  {
    assert !(full < e);
    assert !(e < full && (e == |line| || !IsDigit(line[e])));
  }

  predicate IsDigitGroup(line: string, j: int, k: int) {
    0 <= j && 0 <= k && j + k <= |line| && forall m :: j <= m < j + k ==> IsDigit(line[m])
  }

  predicate IsNanpGroup(line: string, j: int) { IsDigitGroup(line, j, 3) && line[j] >= '2' }

  /** The North American layouts: the area code in parentheses, or one separator throughout. */
  predicate IsNanp(line: string, i: int, end: int) {
    0 <= i < end <= |line| &&
    if line[i] == '(' then
      && IsNanpGroup(line, i + 1) && i + 4 < |line| && line[i + 4] == ')'
      && (NanpTail(line, i + 5, end) || (i + 5 < |line| && line[i + 5] == ' ' && NanpTail(line, i + 6, end)))
    else
      && IsNanpGroup(line, i) && i + 3 < |line| && (line[i + 3] == '-' || line[i + 3] == '.')
      && IsNanpGroup(line, i + 4) && i + 7 < |line| && line[i + 7] == line[i + 3]
      && IsDigitGroup(line, i + 8, 4) && end == i + 12
  }

  predicate NanpTail(line: string, j: int, end: int) {
    && IsNanpGroup(line, j) && j + 3 < |line| && IsSeparator(line[j + 3])
    && IsDigitGroup(line, j + 4, 4) && end == j + 8
  }

  /** The end of the number in one of the layouts that no digit follows, or 0. */
  function Nanp(line: string, i: int): (end: int)
    requires 0 <= i < |line|
    ensures end != 0 ==> IsNanp(line, i, end) && (end == |line| || !IsDigit(line[end]))
    ensures end == 0 ==> forall e :: IsNanp(line, i, e) ==> e < |line| && IsDigit(line[e])
  {
    var end := if line[i] != '(' then i + 12 else if i + 5 < |line| && line[i + 5] == ' ' then i + 14 else i + 13;
    if IsNanp(line, i, end) && (end == |line| || !IsDigit(line[end])) then end else 0
  }

  /** matchNANPPhone. */
  method MatchNanp(line: string, i: int) returns (end: int)
    requires 0 <= i < |line|
    ensures end == Nanp(line, i)
  {
    var j := i;
    var paren := false;
    if line[j] == '(' {
      paren := true;
      j := j + 1;
    }
    if !IsNanpGroup(line, j) {
      return 0;
    }
    j := j + 3;
    var sep: char := '\0';
    if paren {
      if j >= |line| || line[j] != ')' {
        return 0;
      }
      j := j + 1;
      if j < |line| && line[j] == ' ' {
        j := j + 1;
      }
    } else {
      if j >= |line| || (line[j] != '-' && line[j] != '.') {
        return 0;
      }
      sep := line[j];
      j := j + 1;
    }
    if !IsNanpGroup(line, j) {
      return 0;
    }
    j := j + 3;
    if j >= |line| || !(if paren then IsSeparator(line[j]) else line[j] == sep) {
      return 0;
    }
    j := j + 1;
    if !IsDigitGroup(line, j, 4) || (j + 4 < |line| && IsDigit(line[j + 4])) {
      return 0;
    }
    assert paren ==> NanpTail(line, j - 4, j + 4);
    return j + 4;
  }

  /** Every North American layout spells ten digits. */
  lemma NanpHasTenDigits(line: string, i: int, end: int)
    requires IsNanp(line, i, end)
    ensures DigitCount(line, i, end) == 10
  {
    if line[i] == '(' {
      var j := if NanpTail(line, i + 5, end) then i + 5 else i + 6;
      CountDigits(line, i, i + 1, i + 4);
      assert DigitCount(line, i, i + 1) == 0 + DigitCount(line, i, i);
      assert DigitCount(line, i, j) == 3;
      CountDigits(line, i, j, j + 3);
      CountDigits(line, i, j + 4, j + 8);
    } else {
      CountDigits(line, i, i, i + 3);
      CountDigits(line, i, i + 4, i + 7);
      CountDigits(line, i, i + 8, i + 12);
    }
  }

  // ---- examples ----

  lemma DigitsEndAt(line: string, k: int, most: int, e: int)
    requires 0 <= k <= e <= |line| && e - k <= most
    requires (forall i :: k <= i < e ==> IsDigit(line[i])) && (e - k == most || e == |line| || !IsDigit(line[e]))
    ensures DigitsEnd(line, k, most) == e
  {
    var d := DigitsEnd(line, k, most);
    assert !(d < e) && !(e < d);
  }

  /** A country code, one separator and one group, and what the end of the group meets. */
  lemma OneGroup(line: string, from: int, have: int, end: int)
    requires 0 <= from && from + 1 < end <= |line| && line[from] == '.' && end - from <= 9
    requires (forall i :: from < i < end ==> IsDigit(line[i])) && (end == |line| || line[end] == '.')
    requires end == |line| || end + 1 == |line|
    ensures Groups(line, from, have, true) == if end == |line| then (0, 0) else (end, have + end - from - 1)
  {
    var r := Start(from, have);
    var r1 := Reading(end, end, have + end - from - 1, '.', 1, 1, false);
    GroupStep(line, from, have, end);
    ReadStep(line, true, r);
    LastStep(line, r1);
    ReadStep(line, true, r1);
  }

  lemma GroupStep(line: string, from: int, have: int, end: int)
    requires 0 <= from && from + 1 < end <= |line| && line[from] == '.' && end - from <= 9
    requires (forall i :: from < i < end ==> IsDigit(line[i])) && (end == |line| || !IsDigit(line[end]))
    ensures Step(line, true, Start(from, have)) == (Reading(end, end, have + end - from - 1, '.', 1, 1, false), true)
  {
    DigitsEndAt(line, from + 1, MAX_GROUP, end);
  }

  lemma ReadStep(line: string, parens: bool, r: Reading)
    requires InLine(line, r) && r.groups < MAX_GROUPS
    ensures Read(line, parens, r) ==
      var (r', more) := Step(line, parens, r);
      if more then Read(line, parens, r') else r'
  {
  }

  /** One dot is refused, and the same number with a full stop behind it is accepted. */
  lemma SingleDotExample()
    ensures International("+49.1234567", 0) == 0 && International("+49.1234567.", 0) == 11
  {
    var bare, stopped := "+49.1234567", "+49.1234567.";
    DigitsEndAt(bare, 1, |bare|, 3);
    OneGroup(bare, 3, 2, 11);
    DigitsEndAt(stopped, 1, |stopped|, 3);
    OneGroup(stopped, 3, 2, 11);
  }

  /** An area code and one group: the separator is still open at the end of the group. */
  lemma AreaAndGroup(line: string, from: int, have: int, end: int)
    requires 0 <= from && from + 6 < end <= |line| && line[from] == ' ' && line[from + 1] == '('
    requires IsDigit(line[from + 2]) && IsDigit(line[from + 3]) && line[from + 4] == ')' && line[from + 5] == ' '
    requires (forall i :: from + 5 < i < end ==> IsDigit(line[i])) && end - from <= 14
    requires end == |line| || (line[end] == '.' && end + 1 == |line|)
    ensures Groups(line, from, have, true) == if end == |line| then (end, have + end - from - 4) else (0, 0)
  {
    var r, r1 := Start(from, have), Reading(from + 5, from + 6, have + 2, '\0', 0, 1, true);
    AreaStep(line, from, have);
    ReadStep(line, true, r);
    ReadStep(line, true, r1);
    var r2 := Reading(end, end, have + end - from - 4, '\0', 0, 2, false);
    FreeStep(line, r1, end);
    LastStep(line, r2);
    ReadStep(line, true, r2);
  }

  lemma AreaStep(line: string, from: int, have: int)
    requires 0 <= from && from + 6 < |line| && line[from] == ' ' && line[from + 1] == '('
    requires IsDigit(line[from + 2]) && IsDigit(line[from + 3]) && line[from + 4] == ')' && line[from + 5] == ' '
    requires IsDigit(line[from + 6])
    ensures Step(line, true, Start(from, have)) == (Reading(from + 5, from + 6, have + 2, '\0', 0, 1, true), true)
  {
    DigitsEndAt(line, from + 2, MAX_AREA, from + 4);
  }

  lemma FreeStep(line: string, r: Reading, end: int)
    requires InLine(line, r) && 0 < r.groups < MAX_GROUPS && r.free && r.next < end <= |line| && end - r.next <= MAX_GROUP
    requires (forall i :: r.next <= i < end ==> IsDigit(line[i])) && (end == |line| || !IsDigit(line[end]))
    ensures Step(line, true, r) == (Reading(end, end, r.digits + end - r.next, r.sep, r.dots, r.groups + 1, false), true)
  {
    DigitsEndAt(line, r.next, MAX_GROUP, end);
  }

  lemma LastStep(line: string, r: Reading)
    requires InLine(line, r) && 0 < r.groups < MAX_GROUPS && !r.free && (r.sep == '\0' || r.sep == '.')
    requires r.next == |line| || (r.next + 1 == |line| && line[r.next] == '.')
    ensures Step(line, true, r).0.end == r.end && Step(line, true, r).0.digits == r.digits && !Step(line, true, r).1
    ensures Step(line, true, r).0.dots == r.dots + if r.next == |line| then 0 else 1
  {
    if r.next < |line| {
      DigitsEndAt(line, r.next + 1, MAX_GROUP, r.next + 1);
    }
  }

  /** A number without dots is refused when a full stop ends the sentence behind it. */
  lemma FullStopExample()
    ensures International("+49 (30) 1234567", 0) == 16 && International("+49 (30) 1234567.", 0) == 0
  {
    var bare, stopped := "+49 (30) 1234567", "+49 (30) 1234567.";
    DigitsEndAt(bare, 1, |bare|, 3);
    AreaAndGroup(bare, 3, 2, 16);
    DigitsEndAt(stopped, 1, |stopped|, 3);
    AreaAndGroup(stopped, 3, 2, 16);
  }
}
