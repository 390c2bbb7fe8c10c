/** The version diff of the panel: a longest-common-subsequence table held in
    16-bit cells, and the walk that turns it into an edit script.

    The functions take the remaining suffixes of the two files, so row `i` and
    column `j` of the table stand for `a[i..]` and `b[j..]`. */
module LineDiff {

  type Line = string

  datatype Edit = Keep(line: Line) | Add(line: Line) | Del(line: Line)

  const CELL: int := 65536

  // ---- what a diff means ----

  /** The lines a script keeps or deletes: the first file. */
  function Before(s: seq<Edit>): seq<Line> {
    if s == [] then []
    else (if s[0].Add? then [] else [s[0].line]) + Before(s[1..])
  }

  /** The lines a script keeps or adds: the second file. */
  function After(s: seq<Edit>): seq<Line> {
    if s == [] then []
    else (if s[0].Del? then [] else [s[0].line]) + After(s[1..])
  }

  function Kept(s: seq<Edit>): seq<Line> {
    if s == [] then []
    else (if s[0].Keep? then [s[0].line] else []) + Kept(s[1..])
  }

  ghost predicate Subsequence(s: seq<Line>, a: seq<Line>) {
    || s == []
    || (a != [] && s[0] == a[0] && Subsequence(s[1..], a[1..]))
    || (a != [] && Subsequence(s, a[1..]))
  }

  ghost predicate Common(s: seq<Line>, a: seq<Line>, b: seq<Line>) { Subsequence(s, a) && Subsequence(s, b) }

  /** The script keeps as many lines as any common subsequence. */
  ghost predicate Minimal(script: seq<Edit>, a: seq<Line>, b: seq<Line>) {
    forall s :: Common(s, a, b) ==> |s| <= |Kept(script)|
  }

  // ---- the table ----

  function Max(x: int, y: int): int { if x >= y then x else y }
  function Min(x: int, y: int): int { if x <= y then x else y }

  /** A cell: every sum is stored in a Uint16Array, so it wraps at 65536. */
  function Cell(a: seq<Line>, b: seq<Line>): (r: int)
    ensures 0 <= r < CELL
    decreases |a| + |b|
  {
    if a == [] || b == [] then 0
    else if a[0] == b[0] then (Cell(a[1..], b[1..]) + 1) % CELL
    else Max(Cell(a[1..], b), Cell(a, b[1..]))
  }

  /** The length of a longest common subsequence. */
  ghost function Lcs(a: seq<Line>, b: seq<Line>): (r: int)
    ensures 0 <= r <= |a| && r <= |b|
    decreases |a| + |b|
  {
    if a == [] || b == [] then 0
    else if a[0] == b[0] then Lcs(a[1..], b[1..]) + 1
    else Max(Lcs(a[1..], b), Lcs(a, b[1..]))
  }

  /** The walk over the table. */
  function Script(a: seq<Line>, b: seq<Line>): seq<Edit>
    decreases |a| + |b|
  {
    if a == [] && b == [] then []
    else if a != [] && b != [] && a[0] == b[0] then [Keep(a[0])] + Script(a[1..], b[1..])
    else if b != [] && (a == [] || Cell(a, b[1..]) >= Cell(a[1..], b)) then [Add(b[0])] + Script(a, b[1..])
    else [Del(a[0])] + Script(a[1..], b)
  }

  // ---- the source's loops ----

  /** The cell for the lines from `i` and from `j` on. */
  function TableCell(a: seq<Line>, b: seq<Line>, i: int, j: int): int
    requires 0 <= i <= |a| && 0 <= j <= |b|
    decreases |a| - i + |b| - j
  {
    if i == |a| || j == |b| then 0
    else if a[i] == b[j] then (TableCell(a, b, i + 1, j + 1) + 1) % CELL
    else Max(TableCell(a, b, i + 1, j), TableCell(a, b, i, j + 1))
  }

  lemma {:induction false} TableHoldsCells(a: seq<Line>, b: seq<Line>, i: int, j: int)
    requires 0 <= i <= |a| && 0 <= j <= |b|
    ensures TableCell(a, b, i, j) == Cell(a[i..], b[j..])
    decreases |a| - i + |b| - j
  {
    if i < |a| && j < |b| {
      CellAt(a, b, i, j);
      TableHoldsCells(a, b, i + 1, j + 1);
      TableHoldsCells(a, b, i + 1, j);
      TableHoldsCells(a, b, i, j + 1);
    }
  }

  /** Rows from `i` down are filled. */
  ghost predicate RowsFilled(dp: array2<int>, a: seq<Line>, b: seq<Line>, i: int)
    reads dp
    requires dp.Length0 == |a| + 1 && dp.Length1 == |b| + 1
  {
    forall x, y :: 0 <= x <= |a| && i <= x && 0 <= y <= |b| ==> dp[x, y] == TableCell(a, b, x, y)
  }

  lemma CellAt(a: seq<Line>, b: seq<Line>, i: int, j: int)
    requires 0 <= i < |a| && 0 <= j < |b|
    ensures Cell(a[i..], b[j..]) ==
      if a[i] == b[j] then (Cell(a[i + 1..], b[j + 1..]) + 1) % CELL
      else Max(Cell(a[i + 1..], b[j..]), Cell(a[i..], b[j + 1..]))
  {
    assert a[i..][1..] == a[i + 1..] && b[j..][1..] == b[j + 1..];
  }

  /** The inner loop: one row, from the right. */
  method FillRow(dp: array2<int>, a: seq<Line>, b: seq<Line>, i: int)
    requires dp.Length0 == |a| + 1 && dp.Length1 == |b| + 1 && 0 <= i < |a|
    requires RowsFilled(dp, a, b, i + 1) && forall x :: 0 <= x <= i ==> dp[x, |b|] == 0
    modifies dp
    ensures RowsFilled(dp, a, b, i) && forall x :: 0 <= x < i ==> dp[x, |b|] == 0
  {
    var m := |b|;
    var j := m - 1;
    while j >= 0
      invariant -1 <= j < m
      invariant RowsFilled(dp, a, b, i + 1)
      invariant forall x :: 0 <= x <= i ==> dp[x, m] == 0
      invariant forall y :: j < y <= m ==> dp[i, y] == TableCell(a, b, i, y)
    {
      dp[i, j] := if a[i] == b[j] then (dp[i + 1, j + 1] + 1) % CELL else Max(dp[i + 1, j], dp[i, j + 1]);
      j := j - 1;
    }
  }

  method FillTable(a: seq<Line>, b: seq<Line>) returns (dp: array2<int>)
    ensures fresh(dp) && dp.Length0 == |a| + 1 && dp.Length1 == |b| + 1
    ensures RowsFilled(dp, a, b, 0)
  {
    var n, m := |a|, |b|;
    dp := new int[n + 1, m + 1]((i, j) => 0);
    var i := n - 1;
    while i >= 0
      invariant -1 <= i < n
      invariant RowsFilled(dp, a, b, i + 1)
      invariant forall x :: 0 <= x <= i ==> dp[x, m] == 0
    {
      FillRow(dp, a, b, i);
      i := i - 1;
    }
  }

  lemma ScriptAt(a: seq<Line>, b: seq<Line>, i: int, j: int)
    requires 0 <= i <= |a| && 0 <= j <= |b| && (i < |a| || j < |b|)
    ensures Script(a[i..], b[j..]) ==
      if i < |a| && j < |b| && a[i] == b[j] then [Keep(a[i])] + Script(a[i + 1..], b[j + 1..])
      else if j < |b| && (i >= |a| || Cell(a[i..], b[j + 1..]) >= Cell(a[i + 1..], b[j..]))
      then [Add(b[j])] + Script(a[i..], b[j + 1..])
      else [Del(a[i])] + Script(a[i + 1..], b[j..])
    ensures var s := Script(a[i..], b[j..]);
      s[1..] == Script(if s[0].Add? then a[i..] else a[i + 1..], if s[0].Del? then b[j..] else b[j + 1..])
  {
    assert i < |a| ==> a[i..][1..] == a[i + 1..];
    assert j < |b| ==> b[j..][1..] == b[j + 1..];
  }

  lemma NeighboursHold(a: seq<Line>, b: seq<Line>, i: int, j: int)
    requires 0 <= i <= |a| && 0 <= j <= |b|
    ensures i < |a| ==> TableCell(a, b, i + 1, j) == Cell(a[i + 1..], b[j..])
    ensures j < |b| ==> TableCell(a, b, i, j + 1) == Cell(a[i..], b[j + 1..])
  {
    if i < |a| {
      TableHoldsCells(a, b, i + 1, j);
    }
    if j < |b| {
      TableHoldsCells(a, b, i, j + 1);
    }
  }

  method WalkTable(a: seq<Line>, b: seq<Line>, dp: array2<int>) returns (out: seq<Edit>)
    requires dp.Length0 == |a| + 1 && dp.Length1 == |b| + 1 && RowsFilled(dp, a, b, 0)
    ensures out == Script(a, b)
  {
    var n, m := |a|, |b|;
    out := [];
    var i, j := 0, 0;
    while i < n || j < m
      invariant 0 <= i <= n && 0 <= j <= m
      invariant out + Script(a[i..], b[j..]) == Script(a, b)
      decreases n + m - i - j
    {
      ScriptAt(a, b, i, j);
      NeighboursHold(a, b, i, j);
      ghost var rest := Script(a[i..], b[j..]);
      if i < n && j < m && a[i] == b[j] {
        out := Append(out, Keep(a[i]), rest);
        i, j := i + 1, j + 1;
      } else if j < m && (i >= n || dp[i, j + 1] >= dp[i + 1, j]) {
        out := Append(out, Add(b[j]), rest);
        j := j + 1;
      } else {
        out := Append(out, Del(a[i]), rest);
        i := i + 1;
      }
    }
  }

  function Append(out: seq<Edit>, e: Edit, ghost rest: seq<Edit>): (r: seq<Edit>)
    ensures rest != [] && rest[0] == e ==> r + rest[1..] == out + rest
  {
    out + [e]
  }

  /** diffLines: the edit script of the two files. It always rebuilds both,
      and is minimal for files whose shorter one has at most 65535 lines. */
  method DiffLines(a: seq<Line>, b: seq<Line>) returns (out: seq<Edit>)
    ensures out == Script(a, b)
    ensures Before(out) == a && After(out) == b
    ensures Common(Kept(out), a, b)
    ensures Min(|a|, |b|) < CELL ==> Minimal(out, a, b)
  {
    var dp := FillTable(a, b);
    out := WalkTable(a, b, dp);
    ScriptRebuilds(a, b);
    if Min(|a|, |b|) < CELL { SmallDiffIsMinimal(a, b); }
  }

  // ---- the script ----

  lemma {:induction false} ScriptRebuilds(a: seq<Line>, b: seq<Line>)
    ensures Before(Script(a, b)) == a && After(Script(a, b)) == b
    ensures Common(Kept(Script(a, b)), a, b)
    decreases |a| + |b|
  {
    var s := Script(a, b);
    if a == [] && b == [] {
    } else {
      assert s == [s[0]] + s[1..];
      if a != [] && b != [] && a[0] == b[0] {
        ScriptRebuilds(a[1..], b[1..]);
        assert Kept(s) == [a[0]] + Kept(s[1..]);
        assert Kept(s)[1..] == Kept(s[1..]);
      } else if s[0].Add? {
        ScriptRebuilds(a, b[1..]);
        assert Kept(s) == Kept(s[1..]);
      } else {
        ScriptRebuilds(a[1..], b);
        assert Kept(s) == Kept(s[1..]);
      }
    }
  }

  lemma {:induction false} DropFirst(s: seq<Line>, a: seq<Line>)
    requires Subsequence(s, a) && s != []
    ensures a != [] && Subsequence(s[1..], a[1..])
    decreases |a|
  {
    if !(s[0] == a[0] && Subsequence(s[1..], a[1..])) {
      DropFirst(s, a[1..]);
      Widen(s[1..], a[1..]);
    }
  }

  lemma Widen(s: seq<Line>, a: seq<Line>)
    requires a != [] && Subsequence(s, a[1..])
    ensures Subsequence(s, a)
  {
  }

  /** No common subsequence is longer than Lcs. */
  lemma {:induction false} LcsIsLongest(s: seq<Line>, a: seq<Line>, b: seq<Line>)
    requires Common(s, a, b)
    ensures |s| <= Lcs(a, b)
    decreases |a| + |b|
  {
    if s != [] {
      DropFirst(s, a);
      DropFirst(s, b);
      if a[0] == b[0] {
        LcsIsLongest(s[1..], a[1..], b[1..]);
      } else if s[0] != a[0] {
        LcsIsLongest(s, a[1..], b);
      } else {
        LcsIsLongest(s, a, b[1..]);
      }
    }
  }

  /** Below 65536 common lines the 16-bit cells hold the true lengths. */
  lemma {:induction false} CellIsLcs(a: seq<Line>, b: seq<Line>)
    requires Lcs(a, b) < CELL
    ensures Cell(a, b) == Lcs(a, b)
    decreases |a| + |b|
  {
    if a != [] && b != [] {
      if a[0] == b[0] {
        CellIsLcs(a[1..], b[1..]);
      } else {
        CellIsLcs(a[1..], b);
        CellIsLcs(a, b[1..]);
      }
    }
  }

  /** The walk keeps Lcs lines when no cell along it wraps. */
  lemma {:induction false} ScriptKeepsLcs(a: seq<Line>, b: seq<Line>)
    requires Lcs(a, b) < CELL
    ensures |Kept(Script(a, b))| == Lcs(a, b)
    decreases |a| + |b|
  {
    var s := Script(a, b);
    if a != [] || b != [] {
      assert s == [s[0]] + s[1..];
      if a != [] && b != [] && a[0] == b[0] {
        ScriptKeepsLcs(a[1..], b[1..]);
      } else if a == [] {
        ScriptKeepsLcs(a, b[1..]);
      } else if b == [] {
        ScriptKeepsLcs(a[1..], b);
      } else {
        CellIsLcs(a[1..], b);
        CellIsLcs(a, b[1..]);
        ScriptKeepsLcs(a[1..], b);
        ScriptKeepsLcs(a, b[1..]);
      }
    }
  }

  lemma SmallDiffIsMinimal(a: seq<Line>, b: seq<Line>)
    requires Lcs(a, b) < CELL
    ensures Minimal(Script(a, b), a, b)
  {
    ScriptKeepsLcs(a, b);
    forall s | Common(s, a, b) ensures |s| <= |Kept(Script(a, b))| {
      LcsIsLongest(s, a, b);
    }
  }

  // ---- where 16 bits stop being enough ----

  function Adds(b: seq<Line>): seq<Edit> { if b == [] then [] else [Add(b[0])] + Adds(b[1..]) }

  function Dels(a: seq<Line>): seq<Edit> { if a == [] then [] else [Del(a[0])] + Dels(a[1..]) }

  /** Where nothing is kept, what was added comes before what was deleted. */
  lemma {:induction false} ReplacedLines(a: seq<Line>, b: seq<Line>)
    requires forall x :: x in a ==> x !in b
    ensures Script(a, b) == Adds(b) + Dels(a)
    decreases |a| + |b|
  {
    if b != [] {
      if a != [] {
        assert a[0] in a && b[0] in b;
        NothingCommon(a, b[1..]);
        NothingCommon(a[1..], b);
      }
      ReplacedLines(a, b[1..]);
    } else if a != [] {
      ReplacedLines(a[1..], b);
    }
  }

  function Copies(x: Line, k: nat): (r: seq<Line>)
    ensures |r| == k && forall i :: 0 <= i < k ==> r[i] == x
  {
    seq(k, i => x)
  }

  /** `p` copies of s, then `k` of a line the other file does not have. */
  function Block(s: Line, p: nat, u: Line, k: nat): (r: seq<Line>)
    ensures |r| == p + k
    ensures forall x :: x in r ==> x == s || x == u
  {
    Copies(s, p) + Copies(u, k)
  }

  lemma BlockHead(s: Line, p: nat, u: Line, k: nat)
    ensures p > 0 ==> Block(s, p, u, k)[0] == s && Block(s, p, u, k)[1..] == Block(s, p - 1, u, k)
    ensures p == 0 ==> Block(s, p, u, k) == Copies(u, k)
  {
  }

  lemma {:induction false} NothingCommon(a: seq<Line>, b: seq<Line>)
    requires forall x :: x in a ==> x !in b
    ensures Cell(a, b) == 0
    decreases |a| + |b|
  {
    if a != [] && b != [] {
      assert a[0] in a && b[0] in b;
      NothingCommon(a[1..], b);
      NothingCommon(a, b[1..]);
    }
  }

  lemma {:induction false} CellOfBlocks(s: Line, u: Line, v: Line, p: nat, q: nat, k: nat, l: nat)
    requires s != u && s != v && u != v && Min(p, q) <= CELL
    ensures Cell(Block(s, p, u, k), Block(s, q, v, l)) == Min(p, q) % CELL
    decreases p
  {
    if p == 0 || q == 0 {
      BlockHead(s, p, u, k);
      BlockHead(s, q, v, l);
      NothingCommon(Block(s, p, u, k), Block(s, q, v, l));
    } else {
      BlockHead(s, p, u, k);
      BlockHead(s, q, v, l);
      CellOfBlocks(s, u, v, p - 1, q - 1, k, l);
      CellOfHeads(Block(s, p, u, k), Block(s, q, v, l));
      CellPlusOne(Min(p, q) - 1);
    }
  }

  lemma CellOfHeads(a: seq<Line>, b: seq<Line>)
    requires a != [] && b != [] && a[0] == b[0]
    ensures Cell(a, b) == (Cell(a[1..], b[1..]) + 1) % CELL
  {
  }

  lemma CellPlusOne(n: nat)
    requires n < CELL
    ensures (n % CELL + 1) % CELL == (n + 1) % CELL
  {
  }

  /** A foreign first line in the second file does not change the cell. */
  lemma {:induction false} CellOfShifted(s: Line, u: Line, v: Line, y: Line, p: nat, q: nat, k: nat, l: nat)
    requires s != u && s != v && u != v && y != s && y != u && p <= q && p < CELL
    ensures Cell(Block(s, p, u, k), [y] + Block(s, q, v, l)) == p
    decreases p
  {
    var a, b := Block(s, p, u, k), [y] + Block(s, q, v, l);
    assert b[1..] == Block(s, q, v, l);
    BlockHead(s, p, u, k);
    if p == 0 {
      NothingCommon(a, b);
    } else {
      CellOfBlocks(s, u, v, p, q, k, l);
      CellOfShifted(s, u, v, y, p - 1, q, k, l);
    }
  }

  lemma {:induction false} CellSymmetric(a: seq<Line>, b: seq<Line>)
    ensures Cell(a, b) == Cell(b, a)
    decreases |a| + |b|
  {
    if a != [] && b != [] {
      if a[0] == b[0] {
        CellSymmetric(a[1..], b[1..]);
      } else {
        CellSymmetric(a[1..], b);
        CellSymmetric(a, b[1..]);
      }
    }
  }

  lemma {:induction false} SubsequenceOfBlock(t: seq<Line>, s: Line, p: nat, u: Line, k: nat)
    requires Subsequence(t, Block(s, p, u, k)) && u !in t && s != u
    ensures |t| <= p
    decreases p + k
  {
    if t != [] {
      var a := Block(s, p, u, k);
      BlockHead(s, p, u, k);
      DropFirst(t, a);
      if p > 0 {
        SubsequenceOfBlock(t[1..], s, p - 1, u, k);
      } else {
        BlockHead(s, 0, u, k - 1);
        assert a[1..] == Copies(u, k - 1);
        SubsequenceOfBlock(t[1..], s, 0, u, k - 1);
        if t[0] == a[0] { assert false; }
        assert Subsequence(t, a[1..]);
        SubsequenceOfBlock(t, s, 0, u, k - 1);
      }
    }
  }

  lemma {:induction false} SubsequenceMembers(t: seq<Line>, a: seq<Line>, x: Line)
    requires Subsequence(t, a) && x in t
    ensures x in a
    decreases |a|
  {
    if t[0] == a[0] && Subsequence(t[1..], a[1..]) {
      if x != t[0] { SubsequenceMembers(t[1..], a[1..], x); }
    } else {
      SubsequenceMembers(t, a[1..], x);
    }
  }

  lemma {:induction false} CopiesInBlock(s: Line, p: nat, u: Line, k: nat)
    ensures Subsequence(Copies(s, p), Block(s, p, u, k))
    decreases p
  {
    if p > 0 {
      BlockHead(s, p, u, k);
      CopiesInBlock(s, p - 1, u, k);
      assert Copies(s, p)[1..] == Copies(s, p - 1);
    }
  }

  /** Second file longer: the cell after its first line wraps to 0, so the
      walk deletes a line it should keep. */
  lemma WrapLosesALine(s: Line, u: Line, v: Line, y: Line, k: nat, l: nat)
    requires s != u && s != v && u != v && y != s && y != u
    ensures !Minimal(Script(Block(s, CELL, u, k), [y] + Block(s, CELL, v, l)), Block(s, CELL, u, k), [y] + Block(s, CELL, v, l))
  {
    var a, b := Block(s, CELL, u, k), [y] + Block(s, CELL, v, l);
    var best := Copies(s, CELL);
    BlockHead(s, CELL, u, k);
    assert b[1..] == Block(s, CELL, v, l);
    CellOfBlocks(s, u, v, CELL, CELL, k, l);
    CellOfShifted(s, u, v, y, CELL - 1, CELL, k, l);
    var script := Script(a, b);
    assert script == [Del(s)] + Script(a[1..], b);
    assert script[1..] == Script(a[1..], b);
    var kept := Kept(script);
    assert kept == Kept(Script(a[1..], b));
    ScriptRebuilds(a[1..], b);
    if u in kept { SubsequenceMembers(kept, b, u); assert false; }
    SubsequenceOfBlock(kept, s, CELL - 1, u, k);
    CopiesInBlock(s, CELL, u, k);
    CopiesInBlock(s, CELL, v, l);
    assert Common(best, a, b);
  }

  /** First file longer: the same with the roles exchanged. */
  lemma WrapLosesALineFirst(s: Line, u: Line, v: Line, y: Line, k: nat)
    requires s != u && s != v && u != v && y != s && y != v
    ensures !Minimal(Script([y] + Block(s, CELL, u, k), Block(s, CELL, v, 0)), [y] + Block(s, CELL, u, k), Block(s, CELL, v, 0))
  {
    var a, b := [y] + Block(s, CELL, u, k), Block(s, CELL, v, 0);
    var best := Copies(s, CELL);
    BlockHead(s, CELL, v, 0);
    assert a[1..] == Block(s, CELL, u, k);
    CellOfBlocks(s, u, v, CELL, CELL, k, 0);
    CellOfShifted(s, v, u, y, CELL - 1, CELL, 0, k);
    CellSymmetric(a, b[1..]);
    var script := Script(a, b);
    assert script == [Add(s)] + Script(a, b[1..]);
    assert script[1..] == Script(a, b[1..]);
    var kept := Kept(script);
    assert kept == Kept(Script(a, b[1..]));
    ScriptRebuilds(a, b[1..]);
    assert |kept| <= CELL - 1 by { SubsequenceLength(kept, b[1..]); }
    CopiesInBlock(s, CELL, u, k);
    CopiesInBlock(s, CELL, v, 0);
    assert Common(best, a, b);
  }

  lemma {:induction false} SubsequenceLength(t: seq<Line>, a: seq<Line>)
    requires Subsequence(t, a)
    ensures |t| <= |a|
    decreases |a|
  {
    if t != [] {
      DropFirst(t, a);
      SubsequenceLength(t[1..], a[1..]);
    }
  }

  lemma {:induction false} FullLcsIsEqual(a: seq<Line>, b: seq<Line>)
    requires |a| == |b| == Lcs(a, b)
    ensures a == b
    decreases |a|
  {
    if a != [] {
      if a[0] == b[0] {
        FullLcsIsEqual(a[1..], b[1..]);
        assert a == [a[0]] + a[1..] && b == [b[0]] + b[1..];
      }
    }
  }

  lemma {:induction false} DiffOfEqual(a: seq<Line>)
    ensures |Kept(Script(a, a))| == |a|
    decreases |a|
  {
    if a != [] {
      DiffOfEqual(a[1..]);
      assert Script(a, a)[1..] == Script(a[1..], a[1..]);
    }
  }

  lemma SquareDiffIsMinimal(a: seq<Line>, b: seq<Line>)
    requires |a| == |b| == CELL
    ensures Minimal(Script(a, b), a, b)
  {
    if Lcs(a, b) < CELL {
      SmallDiffIsMinimal(a, b);
    } else {
      FullLcsIsEqual(a, b);
      DiffOfEqual(a);
      forall s | Common(s, a, b) ensures |s| <= |Kept(Script(a, b))| {
        SubsequenceLength(s, a);
      }
    }
  }

  /** The file sizes for which every diff is minimal, exactly. */
  lemma MinimalSizes(n: nat, m: nat)
    ensures (forall a, b :: |a| == n && |b| == m ==> Minimal(Script(a, b), a, b))
      <==> Min(n, m) < CELL || n == m == CELL
  {
    if Min(n, m) < CELL || n == m == CELL {
      forall a: seq<Line>, b: seq<Line> | |a| == n && |b| == m ensures Minimal(Script(a, b), a, b) {
        if Min(n, m) < CELL { SmallDiffIsMinimal(a, b); } else { SquareDiffIsMinimal(a, b); }
      }
    } else if m > CELL {
      var k, l := n - CELL, m - CELL - 1;
      WrapLosesALine("s", "u", "v", "y", k, l);
      var a, b := Block("s", CELL, "u", k), ["y"] + Block("s", CELL, "v", l);
      assert |a| == n && |b| == m && !Minimal(Script(a, b), a, b);
    } else {
      var k := n - CELL - 1;
      WrapLosesALineFirst("s", "u", "v", "y", k);
      var a, b := ["y"] + Block("s", CELL, "u", k), Block("s", CELL, "v", 0);
      assert |a| == n && |b| == m && !Minimal(Script(a, b), a, b);
    }
  }
}
