/** Backslash escapes, counted by the run of backslashes before a character. */
module Escapes {

  /** The backslashes directly before `j`, back to `lo`. */
  function Backslashes(s: string, lo: int, j: int): nat
    requires 0 <= lo && j <= |s|
    decreases j - lo
  {
    if lo < j && s[j - 1] == '\\' then 1 + Backslashes(s, lo, j - 1) else 0
  }

  /** An odd number of backslashes escapes the character behind them. */
  predicate Escaped(s: string, lo: int, j: int)
    requires 0 <= lo && j <= |s|
  {
    Backslashes(s, lo, j) % 2 == 1
  }

  /** Every double quote in `body` is escaped, and nothing escapes the one behind it. */
  ghost predicate IsQuotedBody(body: string) {
    (forall j :: 0 <= j < |body| && body[j] == '"' ==> Escaped(body, 0, j)) && !Escaped(body, 0, |body|)
  }

  lemma {:induction false} ShiftBackslashes(front: string, body: string, back: string, j: int)
    requires 0 <= j <= |body|
    ensures Backslashes(front + body + back, |front|, |front| + j) == Backslashes(body, 0, j)
    decreases j
  {
    if j > 0 {
      var s := front + body + back;
      assert s[|front| + j - 1] == body[j - 1];
      ShiftBackslashes(front, body, back, j - 1);
    }
  }
}
