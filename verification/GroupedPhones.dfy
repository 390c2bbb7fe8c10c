/** Telephone numbers built from a country code and groups with one separator: they
    are found whole, and only as far as the separator stays the same. */
module GroupedPhones {
  import opened Common
  import opened PhoneShapes

  ghost predicate AllDigits(line: string, i: int, j: int)
    requires 0 <= i && j <= |line|
  {
    forall k :: i <= k < j ==> '0' <= line[k] <= '9'
  }

  /** From `p` to `e` stand groups of these lengths, each behind `sep`; another
      separator, another character or the end of the line follows. */
  ghost predicate GroupsAt(line: string, p: int, sep: char, lens: seq<int>, e: int)
    decreases |lens|
  {
    && 0 <= p <= e <= |line|
    && if lens == [] then p == e && (e < |line| ==> line[e] != sep && !('0' <= line[e] <= '9'))
       else
         var q := p + 1 + lens[0];
         && 1 <= lens[0] <= 8 && q <= |line| && line[p] == sep && AllDigits(line, p + 1, q)
         && GroupsAt(line, q, sep, lens[1..], e)
  }

  function Total(lens: seq<int>): int { if lens == [] then 0 else lens[0] + Total(lens[1..]) }

  predicate IsSep(c: char) { c == ' ' || c == '-' || c == '.' }

  /** No digit follows a group. */
  lemma {:induction false} GroupIsEnded(line: string, p: int, sep: char, lens: seq<int>, e: int)
    requires GroupsAt(line, p, sep, lens, e) && IsSep(sep)
    ensures p == |line| || !IsDigit(line[p])
  {
  }

  lemma {:induction false} OneMoreGroup(line: string, parens: bool, r: Reading, sep: char, n: int)
    requires InLine(line, r) && IsSep(sep) && (r.sep == '\0' || r.sep == sep)
    requires 1 <= n <= 8 && r.next + 1 + n <= |line| && line[r.next] == sep && AllDigits(line, r.next + 1, r.next + 1 + n)
    requires r.next + 1 + n == |line| || !IsDigit(line[r.next + 1 + n])
    ensures
      var q := r.next + 1 + n;
      Step(line, parens, r) == (Reading(q, q, r.digits + n, sep, r.dots + (if sep == '.' then 1 else 0), r.groups + 1, false), true)
  {
    DigitsEndAt(line, r.next + 1, MAX_GROUP, r.next + 1 + n);
    assert IsDigit(line[r.next + 1]);
  }

  lemma {:induction false} GroupsStop(line: string, parens: bool, r: Reading, sep: char)
    requires InLine(line, r) && IsSep(sep) && r.sep == sep && 0 < r.groups && !r.free
    requires r.next < |line| ==> line[r.next] != sep
    ensures Read(line, parens, r) == r
  {
  }

  /** The loop reads exactly the groups with the same separator. */
  lemma {:induction false} GroupsAreRead(line: string, parens: bool, r: Reading, sep: char, lens: seq<int>, e: int)
    requires InLine(line, r) && IsSep(sep) && GroupsAt(line, r.next, sep, lens, e) && r.groups + |lens| <= 6
    requires if lens == [] then r.sep == sep && 0 < r.groups && !r.free && r.end == r.next else r.sep == '\0' || r.sep == sep
    ensures Read(line, parens, r) ==
      Reading(e, e, r.digits + Total(lens), sep, r.dots + (if sep == '.' then |lens| else 0), r.groups + |lens|, false)
    decreases |lens|
  {
    if lens == [] {
      GroupsStop(line, parens, r, sep);
    } else {
      var n := lens[0];
      var q := r.next + 1 + n;
      GroupIsEnded(line, q, sep, lens[1..], e);
      OneMoreGroup(line, parens, r, sep, n);
      ReadStep(line, parens, r);
      var next := Reading(q, q, r.digits + n, sep, r.dots + (if sep == '.' then 1 else 0), r.groups + 1, false);
      GroupsAreRead(line, parens, next, sep, lens[1..], e);
    }
  }

  /** A country code of up to three digits and one to six groups of up to eight: the
      number is found whole exactly if it has 8 to 15 digits and more than one dot or none. */
  lemma {:induction false} BuiltNumberIsFound(line: string, cc: int, sep: char, lens: seq<int>, e: int)
    requires line != "" && 1 <= cc <= 3 && cc < |line| && AllDigits(line, 1, 1 + cc) && IsSep(sep)
    requires 1 <= |lens| <= 6 && GroupsAt(line, 1 + cc, sep, lens, e)
    ensures International(line, 0) == if 8 <= cc + Total(lens) <= 15 && !(sep == '.' && |lens| == 1) then e else 0
  {
    var from := 1 + cc;
    GroupIsEnded(line, from, sep, lens, e);
    DigitsEndAt(line, 1, |line|, from);
    GroupsAreRead(line, true, Start(from, cc), sep, lens, e);
    assert e > 0 by { GroupsGrow(line, from, sep, lens, e); }
  }

  lemma {:induction false} GroupsGrow(line: string, p: int, sep: char, lens: seq<int>, e: int)
    requires GroupsAt(line, p, sep, lens, e)
    ensures p + Total(lens) + |lens| == e
    decreases |lens|
  {
    if lens != [] { GroupsGrow(line, p + 1 + lens[0], sep, lens[1..], e); }
  }
}
