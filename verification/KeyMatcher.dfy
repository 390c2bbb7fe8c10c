/** The sensitive-key matcher: an Aho-Corasick automaton compiled into a flat
    table of row offsets, and the search that walks it.

    A trie node is named by the bytes that lead to it. `off` maps each node to
    the offset of its row, so a state of the automaton is `off[w]` for some
    node `w`; the root is the empty word at offset 0. */
module KeyMatcher {

  type byte = x: int | 0 <= x < 256
  type Bytes = seq<byte>

  datatype Matcher = Matcher(cls: seq<int>, next: seq<int>, hit: seq<bool>, always: bool)

  // ---- what a search means ----

  ghost predicate OccursAt(text: Bytes, p: Bytes, i: int) {
    0 <= i <= |text| - |p| && text[i..i + |p|] == p
  }

  ghost predicate Contains(text: Bytes, p: Bytes) { exists i :: OccursAt(text, p, i) }

  predicate IsUpper(b: byte) { 65 <= b <= 90 }

  function FoldByte(b: byte): byte { if IsUpper(b) then b + 32 else b }

  function Fold(s: Bytes): (r: Bytes) { seq(|s|, i requires 0 <= i < |s| => FoldByte(s[i])) }

  ghost predicate IsAscii(s: Bytes) { forall i :: 0 <= i < |s| ==> s[i] < 128 }

  ghost predicate NoUpper(s: Bytes) { forall i :: 0 <= i < |s| ==> !IsUpper(s[i]) }

  /** What the matcher relies on in `strings.ToLower`: in front of any text a capital
      becomes the small letter of the same place in the alphabet and every other
      ASCII byte stays, and no lowered text holds a capital. */
  ghost predicate IsLowering(lower: Bytes -> Bytes) {
    && (forall b: byte, q: Bytes :: 'A' as int <= b <= 'Z' as int ==> lower([b] + q) == [b - 'A' as int + 'a' as int] + lower(q))
    && (forall b: byte, q: Bytes :: b < 128 && !('A' as int <= b <= 'Z' as int) ==> lower([b] + q) == [b] + lower(q))
    && (forall s: Bytes, i :: 0 <= i < |lower(s)| ==> !('A' as int <= lower(s)[i] <= 'Z' as int))
    && lower([]) == []
  }

  /** An ASCII prefix is lowered by folding it byte by byte. */
  lemma {:induction false} LowerIsFold(lower: Bytes -> Bytes, p: Bytes, q: Bytes)
    requires IsLowering(lower) && IsAscii(p)
    ensures lower(p + q) == Fold(p) + lower(q)
    decreases |p|
  {
    if p == [] {
      assert p + q == q && Fold(p) + lower(q) == lower(q);
    } else {
      var b, rest := p[0], p[1..] + q;
      assert p + q == [b] + rest;
      assert lower([b] + rest) == [FoldByte(b)] + lower(rest);
      LowerIsFold(lower, p[1..], q);
      assert Fold(p) == [FoldByte(b)] + Fold(p[1..]);
    }
  }

  // ---- suffixes that are nodes ----

  ghost predicate PrefixClosed(nodes: set<Bytes>) {
    && [] in nodes
    && forall w: Bytes, b: byte :: w + [b] in nodes ==> w in nodes
  }

  /** The longest suffix of `u` that is a node. */
  ghost function LongestNode(u: Bytes, nodes: set<Bytes>): (r: Bytes)
    requires [] in nodes
    ensures r in nodes && |r| <= |u|
    decreases |u|
  {
    if u in nodes then u else LongestNode(u[1..], nodes)
  }

  /** Some pattern is a suffix of `u`. */
  ghost predicate EndsInPattern(u: Bytes, pats: set<Bytes>)
    decreases |u|
  {
    u in pats || (u != [] && EndsInPattern(u[1..], pats))
  }

  /** Reading one more byte needs only the longest node, not the whole text. */
  lemma {:induction false} LongestNodeStep(u: Bytes, b: byte, nodes: set<Bytes>)
    requires PrefixClosed(nodes)
    ensures LongestNode(u + [b], nodes) == LongestNode(LongestNode(u, nodes) + [b], nodes)
    decreases |u|
  {
    if u !in nodes {
      assert (u + [b])[1..] == u[1..] + [b];
      LongestNodeStep(u[1..], b, nodes);
    }
  }

  lemma {:induction false} EndsInPatternOfNode(u: Bytes, pats: set<Bytes>, nodes: set<Bytes>)
    requires [] in nodes && pats <= nodes
    ensures EndsInPattern(u, pats) == EndsInPattern(LongestNode(u, nodes), pats)
    decreases |u|
  {
    if u !in nodes {
      EndsInPatternOfNode(u[1..], pats, nodes);
    }
  }

  lemma {:induction false} EndsInPatternIsSuffix(u: Bytes, pats: set<Bytes>)
    ensures EndsInPattern(u, pats) <==> exists k :: 0 <= k <= |u| && u[k..] in pats
    decreases |u|
  {
    if u in pats {
      assert u[0..] == u;
    } else if u != [] {
      EndsInPatternIsSuffix(u[1..], pats);
      if EndsInPattern(u, pats) {
        var k :| 0 <= k <= |u[1..]| && u[1..][k..] in pats;
        assert u[k + 1..] == u[1..][k..];
      }
      if k :| 0 <= k <= |u| && u[k..] in pats {
        assert k > 0;
        assert u[1..][k - 1..] == u[k..];
      }
    } else {
      assert forall k :: 0 <= k <= |u| ==> u[k..] == u;
    }
  }

  // ---- the table ----

  /** `cls` numbers the bytes of the patterns 1..n-1; `rep` lists the byte of each class. */
  ghost predicate Classes(cls: seq<int>, n: int, rep: Bytes) {
    && |cls| == 256
    && |rep| == n
    && 1 <= n
    && (forall b: byte :: 0 <= cls[b] < n)
    && (forall c :: 0 <= c < n ==> cls[rep[c]] == c)
    && (forall b: byte :: cls[b] > 0 ==> rep[cls[b]] == b)
  }

  /** Each node has a row of its own inside the table. */
  ghost predicate Rows(off: map<Bytes, int>, n: int, size: int) {
    && [] in off && off[[]] == 0
    && (forall w :: w in off ==> 0 <= off[w] && off[w] + n <= size)
    && (forall v, w :: v in off && w in off && v != w ==> off[v] + n <= off[w] || off[w] + n <= off[v])
  }

  /** Nodes use only bytes that have a class. */
  ghost predicate Spelled(off: map<Bytes, int>, cls: seq<int>)
    requires |cls| == 256
  {
    forall w, b: byte :: w + [b] in off ==> cls[b] > 0
  }

  ghost function Child(off: map<Bytes, int>, w: Bytes, b: byte): int {
    if w + [b] in off then off[w + [b]] else -1
  }

  ghost function Goto(off: map<Bytes, int>, w: Bytes, b: byte): (s: int)
    requires [] in off
    ensures exists v :: v in off && s == off[v]
  {
    off[LongestNode(w + [b], off.Keys)]
  }

  ghost predicate TrieRow(next: seq<int>, cls: seq<int>, n: int, off: map<Bytes, int>, w: Bytes)
    requires |cls| == 256 && (forall b: byte :: 0 <= cls[b] < n) && Rows(off, n, |next|) && w in off
  {
    forall b: byte :: next[off[w] + cls[b]] == Child(off, w, b)
  }

  ghost predicate DoneRow(next: seq<int>, cls: seq<int>, n: int, off: map<Bytes, int>, w: Bytes)
    requires |cls| == 256 && (forall b: byte :: 0 <= cls[b] < n) && Rows(off, n, |next|) && w in off
  {
    forall b: byte :: next[off[w] + cls[b]] == Goto(off, w, b)
  }

  ghost predicate Classed(cls: seq<int>, n: int) {
    |cls| == 256 && 1 <= n && forall b: byte :: 0 <= cls[b] < n
  }

  /** The trie of `pats`: every edge in its cell, -1 where there is none, and
      a hit exactly at the patterns. */
  ghost predicate Trie(next: seq<int>, hit: seq<bool>, cls: seq<int>, n: int, off: map<Bytes, int>, pats: set<Bytes>) {
    && Classed(cls, n)
    && |hit| == |next|
    && Rows(off, n, |next|)
    && PrefixClosed(off.Keys)
    && Spelled(off, cls)
    && pats <= off.Keys
    && (forall w {:trigger TrieRow(next, cls, n, off, w)} :: w in off ==> TrieRow(next, cls, n, off, w))
    && (forall w {:trigger hit[off[w]]} :: w in off ==> hit[off[w]] == (w in pats))
  }

  method NewState(next: seq<int>, hit: seq<bool>, n: int) returns (next': seq<int>, hit': seq<bool>, s: int)
    requires 1 <= n && |hit| == |next|
    ensures s == |next| && |next'| == |hit'| == s + n
    ensures forall i :: 0 <= i < s ==> next'[i] == next[i] && hit'[i] == hit[i]
    ensures forall i :: s <= i < s + n ==> next'[i] == -1 && !hit'[i]
  {
    s := |next|;
    next' := next;
    for c := 0 to n
      invariant |next'| == s + c
      invariant forall i :: 0 <= i < s ==> next'[i] == next[i]
      invariant forall i :: s <= i < s + c ==> next'[i] == -1
    {
      next' := next' + [-1];
    }
    hit' := hit + seq(n, i => false);
  }

  lemma LastByte(v: Bytes, d: byte, w: Bytes, b: byte)
    ensures v + [d] == w + [b] ==> v == w && d == b
  {
    if v + [d] == w + [b] {
      assert v == (v + [d])[..|v|] && d == (v + [d])[|v|];
      assert w == (w + [b])[..|w|] && b == (w + [b])[|w|];
    }
  }

  lemma AddNodeShape(off: map<Bytes, int>, cls: seq<int>, n: int, size: int, w: Bytes, b: byte)
    requires Classed(cls, n) && Rows(off, n, size) && PrefixClosed(off.Keys) && Spelled(off, cls)
    requires w in off && cls[b] > 0 && w + [b] !in off && 0 <= size
    ensures Rows(off[w + [b] := size], n, size + n)
    ensures PrefixClosed(off[w + [b] := size].Keys)
    ensures Spelled(off[w + [b] := size], cls)
  {
    var x := w + [b];
    var off' := off[x := size];
    assert off'.Keys == off.Keys + {x};
    forall v: Bytes, d: byte | v + [d] in off' ensures cls[d] > 0 && v in off' {
      LastByte(v, d, w, b);
    }
  }

  /** Only the cell of (w, b) and the fresh row differ from the old trie. */
  lemma AddNodeCell(next: seq<int>, cls: seq<int>, n: int, off: map<Bytes, int>, rep: Bytes,
                    w: Bytes, b: byte, next': seq<int>, v: Bytes, d: byte)
    requires Classes(cls, n, rep) && Rows(off, n, |next|) && PrefixClosed(off.Keys)
    requires w in off && cls[b] > 0 && w + [b] !in off
    requires v in off ==> next[off[v] + cls[d]] == Child(off, v, d)
    requires |next'| == |next| + n && v in off[w + [b] := |next|]
    requires forall i :: 0 <= i < |next| && i != off[w] + cls[b] ==> next'[i] == next[i]
    requires next'[off[w] + cls[b]] == |next|
    requires forall i :: |next| <= i < |next| + n ==> next'[i] == -1
    ensures next'[off[w + [b] := |next|][v] + cls[d]] == Child(off[w + [b] := |next|], v, d)
  {
    LastByte(v, d, w, b);
    if v == w + [b] {
      assert v + [d] !in off;
    } else if v == w && cls[d] == cls[b] {
      assert d == rep[cls[d]] == b;
    }
  }

  /** Hanging a fresh row under (w, b) extends the trie by the node w + [b]. */
  lemma AddNode(next: seq<int>, hit: seq<bool>, cls: seq<int>, n: int, off: map<Bytes, int>, pats: set<Bytes>,
                rep: Bytes, w: Bytes, b: byte, next': seq<int>, hit': seq<bool>)
    requires Trie(next, hit, cls, n, off, pats) && Classes(cls, n, rep)
    requires w in off && cls[b] > 0 && w + [b] !in off
    requires |next'| == |hit'| == |next| + n
    requires forall i :: 0 <= i < |next| && i != off[w] + cls[b] ==> next'[i] == next[i]
    requires forall i :: 0 <= i < |next| ==> hit'[i] == hit[i]
    requires next'[off[w] + cls[b]] == |next|
    requires forall i :: |next| <= i < |next| + n ==> next'[i] == -1 && !hit'[i]
    ensures Trie(next', hit', cls, n, off[w + [b] := |next|], pats)
  {
    var off' := off[w + [b] := |next|];
    AddNodeShape(off, cls, n, |next|, w, b);
    forall v | v in off' ensures TrieRow(next', cls, n, off', v) {
      forall d: byte ensures next'[off'[v] + cls[d]] == Child(off', v, d) {
        assert v in off ==> TrieRow(next, cls, n, off, v);
        AddNodeCell(next, cls, n, off, rep, w, b, next', v, d);
      }
    }
  }

  /** One step of an insertion: follow the edge of `b` from `w`, adding it when it is missing. */
  method Descend(next: seq<int>, hit: seq<bool>, cls: seq<int>, n: int, s: int, c: int,
                 ghost off: map<Bytes, int>, ghost pats: set<Bytes>, ghost rep: Bytes, ghost w: Bytes, ghost b: byte)
    returns (next': seq<int>, hit': seq<bool>, s': int, ghost off': map<Bytes, int>)
    requires Trie(next, hit, cls, n, off, pats) && Classes(cls, n, rep)
    requires w in off && s == off[w] && c == cls[b] > 0
    ensures Trie(next', hit', cls, n, off', pats)
    ensures w + [b] in off' && s' == off'[w + [b]]
    ensures |next'| <= |next| + n
  {
    next', hit', off' := next, hit, off;
    assert TrieRow(next, cls, n, off, w);
    if next[s + c] < 0 {
      next', hit', s' := NewState(next, hit, n);
      next' := next'[s + c := s'];
      AddNode(next, hit, cls, n, off, pats, rep, w, b, next', hit');
      off' := off[w + [b] := s'];
    } else {
      s' := next[s + c];
    }
  }

  lemma MarkPattern(next: seq<int>, hit: seq<bool>, cls: seq<int>, n: int, off: map<Bytes, int>, pats: set<Bytes>, p: Bytes)
    requires Trie(next, hit, cls, n, off, pats) && p in off
    ensures Trie(next, hit[off[p] := true], cls, n, off, pats + {p})
  {
  }

  method InsertPattern(next: seq<int>, hit: seq<bool>, cls: seq<int>, n: int, p: Bytes,
                       ghost off: map<Bytes, int>, ghost pats: set<Bytes>, ghost rep: Bytes)
    returns (next': seq<int>, hit': seq<bool>, ghost off': map<Bytes, int>)
    requires Trie(next, hit, cls, n, off, pats) && Classes(cls, n, rep)
    requires forall i :: 0 <= i < |p| ==> cls[p[i]] > 0
    ensures Trie(next', hit', cls, n, off', pats + {p})
    ensures n <= 231 ==> |next'| <= |next| + 231 * |p|
  {
    next', hit', off' := next, hit, off;
    var s := 0;
    for i := 0 to |p|
      invariant Trie(next', hit', cls, n, off', pats)
      invariant p[..i] in off' && s == off'[p[..i]]
      invariant n <= 231 ==> |next'| <= |next| + 231 * i
    {
      assert p[..i + 1] == p[..i] + [p[i]];
      next', hit', s, off' := Descend(next', hit', cls, n, s, cls[p[i]], off', pats, rep, p[..i], p[i]);
    }
    assert p[..|p|] == p;
    MarkPattern(next', hit', cls, n, off', pats, p);
    hit' := hit'[s := true];
  }

  // ---- breadth-first closing of the trie ----

  /** The queue holds, in order of length, exactly the nodes next to be closed. */
  ghost predicate Frontier(words: seq<Bytes>, done: set<Bytes>, nodes: set<Bytes>) {
    && [] in done && done <= nodes
    && (forall i :: 0 <= i < |words| ==> words[i] in nodes && words[i] !in done)
    && (forall i, j :: 0 <= i < j < |words| ==> words[i] != words[j])
    && (forall i, j :: 0 <= i < j < |words| ==> |words[i]| <= |words[j]|)
    && (forall i :: 0 <= i < |words| ==> |words[i]| <= |words[0]| + 1)
    && (forall v: Bytes, b: byte :: v + [b] in nodes && v in done ==> v + [b] in done || v + [b] in words)
    && (forall v: Bytes, b: byte :: v + [b] in done || v + [b] in words ==> v in done)
    && (words != [] ==> forall v :: v in nodes && |v| < |words[0]| ==> v in done)
  }

  ghost predicate Kids(kids: seq<Bytes>, w: Bytes, nodes: set<Bytes>) {
    && (forall i :: 0 <= i < |kids| ==> kids[i] in nodes && |kids[i]| == |w| + 1 && kids[i][..|w|] == w)
    && (forall i, j :: 0 <= i < j < |kids| ==> kids[i] != kids[j])
    && (forall b: byte :: w + [b] in nodes ==> w + [b] in kids)
  }

  lemma SplitLast(u: Bytes, w: Bytes) returns (b: byte)
    requires |u| == |w| + 1 && u[..|w|] == w
    ensures u == w + [b]
  {
    b := u[|w|];
  }

  lemma KidsAreNew(words: seq<Bytes>, done: set<Bytes>, nodes: set<Bytes>, kids: seq<Bytes>, i: int)
    requires Frontier(words, done, nodes) && words != [] && Kids(kids, words[0], nodes) && 0 <= i < |kids|
    ensures kids[i] !in done && kids[i] !in words && kids[i] != words[0]
  {
    var b := SplitLast(kids[i], words[0]);
  }

  lemma FrontierOrder(words: seq<Bytes>, done: set<Bytes>, nodes: set<Bytes>, kids: seq<Bytes>)
    requires Frontier(words, done, nodes) && words != [] && Kids(kids, words[0], nodes)
    ensures var q := words[1..] + kids;
      && (forall i :: 0 <= i < |q| ==> q[i] in nodes && q[i] !in done + {words[0]})
      && (forall i, j :: 0 <= i < j < |q| ==> q[i] != q[j] && |q[i]| <= |q[j]|)
      && (forall i :: 0 <= i < |q| ==> |q[i]| <= |q[0]| + 1)
  {
    forall i | 0 <= i < |kids| ensures kids[i] !in done && kids[i] !in words && kids[i] != words[0] {
      KidsAreNew(words, done, nodes, kids, i);
    }
    var q := words[1..] + kids;
    forall i | 0 <= i < |q|
      ensures q[i] == if i + 1 < |words| then words[i + 1] else kids[i + 1 - |words|]
    {
    }
  }

  lemma FrontierEdges(words: seq<Bytes>, done: set<Bytes>, nodes: set<Bytes>, kids: seq<Bytes>, v: Bytes, b: byte)
    requires Frontier(words, done, nodes) && words != [] && Kids(kids, words[0], nodes)
    ensures var q := words[1..] + kids; var done' := done + {words[0]};
      && (v + [b] in nodes && v in done' ==> v + [b] in done' || v + [b] in q)
      && (v + [b] in done' || v + [b] in q ==> v in done')
  {
    var q := words[1..] + kids;
    if v + [b] in q {
      var i :| 0 <= i < |q| && q[i] == v + [b];
      if i + 1 < |words| {
        assert words[i + 1] == v + [b];
      } else {
        assert kids[i + 1 - |words|] == v + [b];
        var d := SplitLast(v + [b], words[0]);
        LastByte(v, b, words[0], d);
      }
    }
    if v + [b] in nodes && v in done && v + [b] in words && v + [b] != words[0] {
      var i :| 0 <= i < |words| && words[i] == v + [b];
      assert q[i - 1] == v + [b];
    }
    if v == words[0] && v + [b] in nodes {
      var i :| 0 <= i < |kids| && kids[i] == v + [b];
      assert q[|words| - 1 + i] == v + [b];
    }
  }

  lemma FrontierLevel(words: seq<Bytes>, done: set<Bytes>, nodes: set<Bytes>, kids: seq<Bytes>, v: Bytes)
    requires Frontier(words, done, nodes) && words != [] && Kids(kids, words[0], nodes) && PrefixClosed(nodes)
    requires words[1..] + kids != [] && v in nodes && |v| < |(words[1..] + kids)[0]|
    ensures v in done + {words[0]}
  {
    var q := words[1..] + kids;
    assert q[0] == if 1 < |words| then words[1] else kids[0];
    if |v| == |words[0]| && v !in done {
      var b := SplitLast(v, v[..|v| - 1]);
      assert v == v[..|v| - 1] + [b];
      assert v[..|v| - 1] in done;
      assert v in words;
      var i :| 0 <= i < |words| && words[i] == v;
    }
  }

  /** Closing the head of the queue and appending its children keeps the order. */
  lemma FrontierStep(words: seq<Bytes>, done: set<Bytes>, nodes: set<Bytes>, kids: seq<Bytes>)
    requires Frontier(words, done, nodes) && words != [] && Kids(kids, words[0], nodes) && PrefixClosed(nodes)
    ensures Frontier(words[1..] + kids, done + {words[0]}, nodes)
  {
    var q := words[1..] + kids;
    var done' := done + {words[0]};
    FrontierOrder(words, done, nodes, kids);
    forall v: Bytes, b: byte
      ensures v + [b] in nodes && v in done' ==> v + [b] in done' || v + [b] in q
      ensures v + [b] in done' || v + [b] in q ==> v in done'
    {
      FrontierEdges(words, done, nodes, kids, v, b);
    }
    if q != [] {
      forall v | v in nodes && |v| < |q[0]| ensures v in done' {
        FrontierLevel(words, done, nodes, kids, v);
      }
    }
  }

  /** When the queue is empty every node has been closed. */
  lemma {:induction false} EmptyFrontier(done: set<Bytes>, nodes: set<Bytes>, v: Bytes)
    requires Frontier([], done, nodes) && PrefixClosed(nodes) && v in nodes
    ensures v in done
    decreases |v|
  {
    if v != [] {
      var b := SplitLast(v, v[..|v| - 1]);
      assert v == v[..|v| - 1] + [b];
      EmptyFrontier(done, nodes, v[..|v| - 1]);
    }
  }

  /** The half-closed table: rows and hits of `done` are final, the others are still the trie's. */
  ghost predicate HalfClosed(next: seq<int>, hit: seq<bool>, cls: seq<int>, n: int, off: map<Bytes, int>,
                             pats: set<Bytes>, done: set<Bytes>)
  {
    && Classed(cls, n)
    && |hit| == |next|
    && Rows(off, n, |next|)
    && PrefixClosed(off.Keys)
    && Spelled(off, cls)
    && pats <= off.Keys
    && (forall w :: w in off ==> if w in done then DoneRow(next, cls, n, off, w) else TrieRow(next, cls, n, off, w))
    && (forall w :: w in off ==> hit[off[w]] == if w in done then EndsInPattern(w, pats) else w in pats)
  }

  /** A suffix link: the longest proper suffix of `w` that is a node. */
  ghost function Link(off: map<Bytes, int>, w: Bytes): int
    requires [] in off && w != []
  {
    off[LongestNode(w[1..], off.Keys)]
  }

  ghost predicate Linked(queue: seq<int>, words: seq<Bytes>, fail: map<int, int>, off: map<Bytes, int>) {
    && [] in off
    && |queue| == |words|
    && forall i :: 0 <= i < |words| ==>
      && words[i] in off && words[i] != []
      && queue[i] == off[words[i]]
      && queue[i] in fail && fail[queue[i]] == Link(off, words[i])
  }

  /** What the missing edge and the child's suffix link of (w, b) both are. */
  lemma GotoOfLink(off: map<Bytes, int>, w: Bytes, b: byte)
    requires PrefixClosed(off.Keys) && w != []
    ensures var f := LongestNode(w[1..], off.Keys);
      && (w + [b] !in off ==> Goto(off, w, b) == Goto(off, f, b))
      && (w + [b] in off ==> Goto(off, w, b) == off[w + [b]] && Link(off, w + [b]) == Goto(off, f, b))
  {
    assert (w + [b])[1..] == w[1..] + [b];
    LongestNodeStep(w[1..], b, off.Keys);
  }

  /** The state of one row-filling loop after the cells of classes below `c`. */
  ghost predicate Filled(next: seq<int>, next': seq<int>, cls: seq<int>, n: int, off: map<Bytes, int>, w: Bytes, c: int)
    requires Classed(cls, n) && Rows(off, n, |next|) && w in off && |next'| == |next|
  {
    && (forall i :: 0 <= i < |next| && !(off[w] <= i < off[w] + c) ==> next'[i] == next[i])
    && (forall b: byte :: cls[b] < c ==> next'[off[w] + cls[b]] == Goto(off, w, b))
  }

  /** The children met so far, in class order. */
  ghost predicate KidsBelow(kids: seq<Bytes>, cls: seq<int>, off: map<Bytes, int>, w: Bytes, c: int)
    requires |cls| == 256
  {
    && (forall i :: 0 <= i < |kids| ==> kids[i] in off && |kids[i]| == |w| + 1 && kids[i][..|w|] == w && cls[kids[i][|w|]] < c)
    && (forall i, j :: 0 <= i < j < |kids| ==> kids[i] != kids[j])
    && (forall b: byte :: cls[b] < c && w + [b] in off ==> w + [b] in kids)
  }

  lemma KidsBelowStep(kids: seq<Bytes>, cls: seq<int>, n: int, rep: Bytes, off: map<Bytes, int>, w: Bytes, c: int)
    requires Classes(cls, n, rep) && Spelled(off, cls) && KidsBelow(kids, cls, off, w, c) && 0 <= c < n
    ensures w + [rep[c]] in off ==> KidsBelow(kids + [w + [rep[c]]], cls, off, w, c + 1)
    ensures w + [rep[c]] !in off ==> KidsBelow(kids, cls, off, w, c + 1)
  {
    forall b: byte | cls[b] < c + 1 && w + [b] in off
      ensures w + [b] in kids || b == rep[c]
    {
      if cls[b] == c { assert rep[cls[b]] == b; }
    }
  }

  /** Cell `c` of row `w` is still the trie's, and the link's row already final. */
  lemma FilledReads(next: seq<int>, next': seq<int>, cls: seq<int>, n: int, rep: Bytes, off: map<Bytes, int>, w: Bytes, c: int)
    requires Classes(cls, n, rep) && Rows(off, n, |next|) && PrefixClosed(off.Keys)
    requires w in off && w != [] && 0 <= c < n && |next'| == |next| && Filled(next, next', cls, n, off, w, c)
    requires TrieRow(next, cls, n, off, w) && DoneRow(next, cls, n, off, LongestNode(w[1..], off.Keys))
    ensures next'[off[w] + c] == Child(off, w, rep[c])
    ensures next'[Link(off, w) + c] == Goto(off, LongestNode(w[1..], off.Keys), rep[c])
  {
    var f := LongestNode(w[1..], off.Keys);
    assert f != w;
    assert cls[rep[c]] == c;
    assert next[off[f] + cls[rep[c]]] == Goto(off, f, rep[c]);
    assert next[off[w] + cls[rep[c]]] == Child(off, w, rep[c]);
  }

  lemma FilledStep(next: seq<int>, next': seq<int>, cls: seq<int>, n: int, rep: Bytes, off: map<Bytes, int>, w: Bytes, c: int)
    requires Classes(cls, n, rep) && Rows(off, n, |next|) && Spelled(off, cls)
    requires w in off && 0 <= c < n && |next'| == |next| && Filled(next, next', cls, n, off, w, c)
    requires forall b: byte :: cls[b] == c && c == 0 ==> Goto(off, w, b) == Goto(off, w, rep[0])
    ensures Filled(next, next'[off[w] + c := Goto(off, w, rep[c])], cls, n, off, w, c + 1)
  {
    var next'' := next'[off[w] + c := Goto(off, w, rep[c])];
    forall b: byte | cls[b] < c + 1 ensures next''[off[w] + cls[b]] == Goto(off, w, b) {
      if cls[b] == c > 0 { assert rep[cls[b]] == b; }
    }
  }

  /** Bytes outside every pattern all lead to the root. */
  lemma {:induction false} GotoOfUnclassed(off: map<Bytes, int>, cls: seq<int>, w: Bytes, b: byte)
    requires |cls| == 256 && PrefixClosed(off.Keys) && Spelled(off, cls) && cls[b] == 0
    ensures Goto(off, w, b) == off[[]]
    decreases |w|
  {
    assert w + [b] !in off;
    if w == [] {
      assert (w + [b])[1..] == [];
    } else {
      assert (w + [b])[1..] == w[1..] + [b];
      GotoOfUnclassed(off, cls, w[1..], b);
    }
  }

  lemma FillCell(next: seq<int>, next': seq<int>, cls: seq<int>, n: int, rep: Bytes, off: map<Bytes, int>, w: Bytes, c: int)
    requires Classes(cls, n, rep) && Rows(off, n, |next|) && Spelled(off, cls) && PrefixClosed(off.Keys)
    requires w in off && 0 <= c < n && |next'| == |next| && Filled(next, next', cls, n, off, w, c)
    ensures Filled(next, next'[off[w] + c := Goto(off, w, rep[c])], cls, n, off, w, c + 1)
  {
    forall b: byte | cls[b] == 0 ensures Goto(off, w, b) == off[[]] {
      GotoOfUnclassed(off, cls, w, b);
    }
    FilledStep(next, next', cls, n, rep, off, w, c);
  }

  lemma LinkedStep(queue: seq<int>, words: seq<Bytes>, fail: map<int, int>, off: map<Bytes, int>, n: int, size: int, x: Bytes)
    requires Rows(off, n, size) && 1 <= n && Linked(queue, words, fail, off) && x in off && x != [] && x !in words
    ensures Linked(queue + [off[x]], words + [x], fail[off[x] := Link(off, x)], off)
  {
  }

  /** The row-filling loop of node `w` between two cells. */
  ghost predicate RowLoop(next: seq<int>, next': seq<int>, cls: seq<int>, n: int, rep: Bytes, off: map<Bytes, int>, w: Bytes,
                          c: int, queue: seq<int>, fail: map<int, int>, words: seq<Bytes>, kids: seq<Bytes>)
  {
    && Classes(cls, n, rep) && Rows(off, n, |next|) && PrefixClosed(off.Keys) && Spelled(off, cls)
    && w in off && w != [] && TrieRow(next, cls, n, off, w)
    && DoneRow(next, cls, n, off, LongestNode(w[1..], off.Keys))
    && (forall b: byte :: w + [b] !in words)
    && |next'| == |next| && Filled(next, next', cls, n, off, w, c)
    && KidsBelow(kids, cls, off, w, c)
    && Linked(queue, words + kids, fail, off)
  }

  lemma RowLoopStep(next: seq<int>, next': seq<int>, cls: seq<int>, n: int, rep: Bytes, off: map<Bytes, int>, w: Bytes,
                    c: int, queue: seq<int>, fail: map<int, int>, words: seq<Bytes>, kids: seq<Bytes>)
    requires RowLoop(next, next', cls, n, rep, off, w, c, queue, fail, words, kids) && 0 <= c < n
    ensures next'[off[w] + c] < 0 ==>
      RowLoop(next, next'[off[w] + c := next'[Link(off, w) + c]], cls, n, rep, off, w, c + 1, queue, fail, words, kids)
    ensures var t := next'[off[w] + c];
      t >= 0 ==>
        RowLoop(next, next', cls, n, rep, off, w, c + 1, queue + [t], fail[t := next'[Link(off, w) + c]], words, kids + [w + [rep[c]]])
  {
    var x := w + [rep[c]];
    FilledReads(next, next', cls, n, rep, off, w, c);
    KidsBelowStep(kids, cls, n, rep, off, w, c);
    GotoOfLink(off, w, rep[c]);
    FillCell(next, next', cls, n, rep, off, w, c);
    if x in off {
      assert next'[off[w] + c := off[x]] == next';
      assert x !in kids by {
        assert x[|w|] == rep[c];
      }
      LinkedStep(queue, words + kids, fail, off, n, |next|, x);
      assert words + kids + [x] == words + (kids + [x]);
    }
  }

  lemma KidsBelowAll(kids: seq<Bytes>, cls: seq<int>, n: int, off: map<Bytes, int>, w: Bytes)
    requires Classed(cls, n) && KidsBelow(kids, cls, off, w, n)
    ensures Kids(kids, w, off.Keys)
  {
  }

  method FillRow(next: seq<int>, cls: seq<int>, n: int, s: int, f: int, queue: seq<int>, fail: map<int, int>,
                 ghost rep: Bytes, ghost off: map<Bytes, int>, ghost w: Bytes, ghost words: seq<Bytes>)
    returns (next': seq<int>, queue': seq<int>, fail': map<int, int>, ghost kids: seq<Bytes>)
    requires RowLoop(next, next, cls, n, rep, off, w, 0, queue, fail, words, [])
    requires s == off[w] && f == Link(off, w)
    ensures RowLoop(next, next', cls, n, rep, off, w, n, queue', fail', words, kids)
  {
    next', queue', fail', kids := next, queue, fail, [];
    for c := 0 to n
      invariant RowLoop(next, next', cls, n, rep, off, w, c, queue', fail', words, kids)
    {
      RowLoopStep(next, next', cls, n, rep, off, w, c, queue', fail', words, kids);
      var t := next'[s + c];
      if t < 0 {
        next' := next'[s + c := next'[f + c]];
      } else {
        fail' := fail'[t := next'[f + c]];
        queue' := queue' + [t];
        kids := kids + [w + [rep[c]]];
      }
    }
  }

  /** Filling the row of `w` and inheriting the hit of its link makes `w` final. */
  lemma CloseNode(next: seq<int>, next': seq<int>, hit: seq<bool>, cls: seq<int>, n: int, off: map<Bytes, int>,
                  pats: set<Bytes>, done: set<Bytes>, w: Bytes)
    requires HalfClosed(next, hit, cls, n, off, pats, done)
    requires w in off && w !in done && w != [] && LongestNode(w[1..], off.Keys) in done
    requires |next'| == |next| && Filled(next, next', cls, n, off, w, n)
    ensures HalfClosed(next', hit[off[w] := hit[off[w]] || hit[Link(off, w)]], cls, n, off, pats, done + {w})
  {
    var f := LongestNode(w[1..], off.Keys);
    EndsInPatternOfNode(w[1..], pats, off.Keys);
    assert EndsInPattern(w, pats) == (hit[off[w]] || hit[off[f]]);
    forall v | v in off
      ensures if v in done + {w} then DoneRow(next', cls, n, off, v) else TrieRow(next', cls, n, off, v)
    {
      KeepRow(next, next', cls, n, off, w, v);
    }
  }

  lemma KeepRow(next: seq<int>, next': seq<int>, cls: seq<int>, n: int, off: map<Bytes, int>, w: Bytes, v: Bytes)
    requires Classed(cls, n) && Rows(off, n, |next|) && v in off && w in off
    requires |next'| == |next| && Filled(next, next', cls, n, off, w, n)
    ensures v == w ==> DoneRow(next', cls, n, off, v)
    ensures v != w && DoneRow(next, cls, n, off, v) ==> DoneRow(next', cls, n, off, v)
    ensures v != w && TrieRow(next, cls, n, off, v) ==> TrieRow(next', cls, n, off, v)
  {
    if v != w {
      forall b: byte ensures next'[off[v] + cls[b]] == next[off[v] + cls[b]] {
      }
    }
  }

  /** The first loop: the root's missing edges return to the root. */
  ghost predicate RootLoop(next: seq<int>, next': seq<int>, cls: seq<int>, n: int, rep: Bytes, off: map<Bytes, int>,
                           c: int, queue: seq<int>, fail: map<int, int>, kids: seq<Bytes>)
  {
    && Classes(cls, n, rep) && Rows(off, n, |next|) && PrefixClosed(off.Keys) && Spelled(off, cls)
    && TrieRow(next, cls, n, off, [])
    && |next'| == |next| && Filled(next, next', cls, n, off, [], c)
    && KidsBelow(kids, cls, off, [], c)
    && Linked(queue, kids, fail, off)
  }

  lemma RootLoopStep(next: seq<int>, next': seq<int>, cls: seq<int>, n: int, rep: Bytes, off: map<Bytes, int>,
                     c: int, queue: seq<int>, fail: map<int, int>, kids: seq<Bytes>)
    requires RootLoop(next, next', cls, n, rep, off, c, queue, fail, kids) && 0 <= c < n
    ensures next'[c] < 0 ==> RootLoop(next, next'[c := 0], cls, n, rep, off, c + 1, queue, fail, kids)
    ensures var t := next'[c];
      t >= 0 ==> RootLoop(next, next', cls, n, rep, off, c + 1, queue + [t], fail[t := 0], kids + [[rep[c]]])
  {
    var x := [rep[c]];
    assert [] + x == x && x[1..] == [];
    assert next[off[[]] + cls[rep[c]]] == Child(off, [], rep[c]);
    KidsBelowStep(kids, cls, n, rep, off, [], c);
    FillCell(next, next', cls, n, rep, off, [], c);
    if x in off {
      assert next'[c := off[x]] == next';
      assert x !in kids by { assert x[0] == rep[c]; }
      LinkedStep(queue, kids, fail, off, n, |next|, x);
    }
  }

  method FillRoot(next: seq<int>, cls: seq<int>, n: int, ghost rep: Bytes, ghost off: map<Bytes, int>)
    returns (next': seq<int>, queue: seq<int>, fail: map<int, int>, ghost kids: seq<Bytes>)
    requires Classes(cls, n, rep) && Rows(off, n, |next|) && PrefixClosed(off.Keys) && Spelled(off, cls)
    requires TrieRow(next, cls, n, off, [])
    ensures RootLoop(next, next', cls, n, rep, off, n, queue, fail, kids)
  {
    next', queue, fail, kids := next, [], map[], [];
    for c := 0 to n
      invariant RootLoop(next, next', cls, n, rep, off, c, queue, fail, kids)
    {
      RootLoopStep(next, next', cls, n, rep, off, c, queue, fail, kids);
      var t := next'[c];
      if t < 0 {
        next' := next'[c := 0];
      } else {
        fail := fail[t := 0];
        queue := queue + [t];
        kids := kids + [[rep[c]]];
      }
    }
  }

  lemma RootClosed(next: seq<int>, next': seq<int>, hit: seq<bool>, cls: seq<int>, n: int, rep: Bytes, off: map<Bytes, int>,
                   pats: set<Bytes>, queue: seq<int>, fail: map<int, int>, kids: seq<Bytes>)
    requires Trie(next, hit, cls, n, off, pats)
    requires RootLoop(next, next', cls, n, rep, off, n, queue, fail, kids)
    ensures HalfClosed(next', hit, cls, n, off, pats, {[]})
    ensures Frontier(kids, {[]}, off.Keys)
  {
    forall v | v in off ensures if v in {[]} then DoneRow(next', cls, n, off, v) else TrieRow(next', cls, n, off, v) {
      assert TrieRow(next, cls, n, off, v);
      KeepRow(next, next', cls, n, off, [], v);
    }
    RootFrontier(kids, cls, n, off);
  }

  lemma RootFrontier(kids: seq<Bytes>, cls: seq<int>, n: int, off: map<Bytes, int>)
    requires Classed(cls, n) && KidsBelow(kids, cls, off, [], n) && [] in off
    ensures Frontier(kids, {[]}, off.Keys)
  {
    forall v: Bytes, b: byte | v + [b] in {[]} || v + [b] in kids ensures v == [] {
    }
  }

  /** The whole breadth-first pass: the trie becomes the automaton. */
  method CloseTrie(next: seq<int>, hit: seq<bool>, cls: seq<int>, n: int,
                   ghost rep: Bytes, ghost off: map<Bytes, int>, ghost pats: set<Bytes>)
    returns (next': seq<int>, hit': seq<bool>)
    requires Trie(next, hit, cls, n, off, pats) && Classes(cls, n, rep)
    ensures HalfClosed(next', hit', cls, n, off, pats, off.Keys) && |next'| == |next|
  {
    hit' := hit;
    var queue, fail;
    ghost var words;
    assert TrieRow(next, cls, n, off, []);
    next', queue, fail, words := FillRoot(next, cls, n, rep, off);
    RootClosed(next, next', hit, cls, n, rep, off, pats, queue, fail, words);
    ghost var done: set<Bytes> := {[]};
    while |queue| > 0
      invariant HalfClosed(next', hit', cls, n, off, pats, done)
      invariant Frontier(words, done, off.Keys)
      invariant Linked(queue, words, fail, off)
      invariant |next'| == |next|
      decreases off.Keys - done
    {
      next', hit', queue, fail, done, words := CloseHead(next', hit', cls, n, queue, fail, rep, off, pats, done, words);
    }
    forall v | v in off ensures v in done {
      EmptyFrontier(done, off.Keys, v);
    }
    assert done == off.Keys;
  }

  method CloseHead(next: seq<int>, hit: seq<bool>, cls: seq<int>, n: int, queue: seq<int>, fail: map<int, int>,
                   ghost rep: Bytes, ghost off: map<Bytes, int>, ghost pats: set<Bytes>, ghost done: set<Bytes>, ghost words: seq<Bytes>)
    returns (next': seq<int>, hit': seq<bool>, queue': seq<int>, fail': map<int, int>, ghost done': set<Bytes>, ghost words': seq<Bytes>)
    requires HalfClosed(next, hit, cls, n, off, pats, done) && Classes(cls, n, rep)
    requires Frontier(words, done, off.Keys) && Linked(queue, words, fail, off) && |queue| > 0
    ensures HalfClosed(next', hit', cls, n, off, pats, done')
    ensures Frontier(words', done', off.Keys) && Linked(queue', words', fail', off)
    ensures |next'| == |next|
    ensures done' == done + {words[0]} && words[0] !in done && words[0] in off
  {
    ghost var w := words[0];
    var s := queue[0];
    var f := fail[s];
    hit' := hit[s := hit[s] || hit[f]];
    HeadReady(next, cls, n, rep, off, hit, pats, done, queue, fail, words);
    ghost var kids;
    next', queue', fail', kids := FillRow(next, cls, n, s, f, queue[1..], fail, rep, off, w, words[1..]);
    CloseNode(next, next', hit, cls, n, off, pats, done, w);
    KidsBelowAll(kids, cls, n, off, w);
    FrontierStep(words, done, off.Keys, kids);
    done', words' := done + {w}, words[1..] + kids;
  }

  /** The suffix link of the head is shorter than the head, so it is closed already. */
  lemma HeadReady(next: seq<int>, cls: seq<int>, n: int, rep: Bytes, off: map<Bytes, int>, hit: seq<bool>,
                  pats: set<Bytes>, done: set<Bytes>, queue: seq<int>, fail: map<int, int>, words: seq<Bytes>)
    requires HalfClosed(next, hit, cls, n, off, pats, done) && Classes(cls, n, rep)
    requires Frontier(words, done, off.Keys) && Linked(queue, words, fail, off) && words != []
    ensures LongestNode(words[0][1..], off.Keys) in done
    ensures RowLoop(next, next, cls, n, rep, off, words[0], 0, queue[1..], fail, words[1..], [])
  {
    var w := words[0];
    assert w in off && w !in done;
    assert words[1..] + [] == words[1..];
    forall b: byte ensures w + [b] !in words[1..] {
      assert w + [b] in words ==> w in done;
    }
  }

  // ---- byte classes ----

  function Interval(lo: int, hi: int): (r: set<byte>)
    requires 0 <= lo <= hi <= 256
    ensures forall b: byte :: b in r <==> lo <= b < hi
    ensures |r| == hi - lo
    decreases hi - lo
  {
    if lo == hi then {} else {lo as byte} + Interval(lo + 1, hi)
  }

  lemma {:induction false} DistinctBytes(s: Bytes)
    requires forall i, j :: 0 <= i < j < |s| ==> s[i] != s[j]
    ensures |set i | 0 <= i < |s| :: s[i]| == |s|
    decreases |s|
  {
    if s != [] {
      var t := s[..|s| - 1];
      DistinctBytes(t);
      assert (set i | 0 <= i < |s| :: s[i]) == (set i | 0 <= i < |t| :: t[i]) + {s[|s| - 1]};
    }
  }

  lemma Outside(lo: int, hi: int) returns (r: set<byte>)
    requires 0 <= lo <= hi <= 256
    ensures forall b: byte :: b in r <==> b < lo || hi <= b
    ensures |r| == lo + 256 - hi
  {
    assert Interval(0, lo) !! Interval(hi, 256);
    r := Interval(0, lo) + Interval(hi, 256);
  }

  lemma SubsetSize(a: set<byte>, b: set<byte>)
    requires a <= b
    ensures |a| <= |b|
  {
    assert b == a + (b - a);
  }

  /** No entry holds A-Z, so at most 230 bytes get a class: the uint8 never wraps. */
  lemma ClassCount(cls: seq<int>, n: int, rep: Bytes)
    requires Classes(cls, n, rep) && (forall c :: 1 <= c < n ==> !IsUpper(rep[c]))
    ensures n <= 231
  {
    var s := rep[1..];
    forall i, j | 0 <= i < j < |s| ensures s[i] != s[j] {
      assert cls[rep[i + 1]] == i + 1 && cls[rep[j + 1]] == j + 1;
    }
    DistinctBytes(s);
    var others := Outside(65, 91);
    SubsetSize(set i | 0 <= i < |s| :: s[i], others);
  }

  lemma NewClass(cls: seq<int>, n: int, rep: Bytes, b: byte)
    requires Classes(cls, n, rep) && cls[b] == 0 && b != rep[0]
    ensures Classes(cls[b := n], n + 1, rep + [b])
  {
  }

  method AssignClasses(pats: seq<Bytes>) returns (cls: seq<int>, n: int, ghost rep: Bytes)
    requires forall i :: 0 <= i < |pats| ==> NoUpper(pats[i])
    ensures Classes(cls, n, rep) && n <= 231
    ensures forall i, j :: 0 <= i < |pats| && 0 <= j < |pats[i]| ==> cls[pats[i][j]] > 0
  {
    cls, n, rep := seq(256, i => 0), 1, [65];
    for i := 0 to |pats|
      invariant Classes(cls, n, rep) && rep[0] == 65 && forall c :: 1 <= c < n ==> !IsUpper(rep[c])
      invariant forall k, j :: 0 <= k < i && 0 <= j < |pats[k]| ==> cls[pats[k][j]] > 0
    {
      var p := pats[i];
      for j := 0 to |p|
        invariant Classes(cls, n, rep) && rep[0] == 65 && forall c :: 1 <= c < n ==> !IsUpper(rep[c])
        invariant forall k, j :: 0 <= k < i && 0 <= j < |pats[k]| ==> cls[pats[k][j]] > 0
        invariant forall k :: 0 <= k < j ==> cls[p[k]] > 0
      {
        if cls[p[j]] == 0 {
          ClassCount(cls, n, rep);
          NewClass(cls, n, rep, p[j]);
          cls := cls[p[j] := n % 256];
          n := n + 1;
          rep := rep + [p[j]];
        }
      }
    }
    ClassCount(cls, n, rep);
  }

  // ---- the matcher ----

  ghost function Patterns(keys: seq<Bytes>): set<Bytes> {
    set i | 0 <= i < |keys| && keys[i] != [] && NoUpper(keys[i]) :: keys[i]
  }

  ghost function SetOf(pats: seq<Bytes>): set<Bytes> { set i | 0 <= i < |pats| :: pats[i] }

  lemma SetOfAppend(pats: seq<Bytes>, p: Bytes)
    ensures SetOf(pats + [p]) == SetOf(pats) + {p}
  {
    var q := pats + [p];
    assert q[|pats|] == p;
    forall x | x in SetOf(pats) ensures x in SetOf(q) {
      var i :| 0 <= i < |pats| && pats[i] == x;
      assert q[i] == x;
    }
  }

  function TotalLength(keys: seq<Bytes>): nat {
    if keys == [] then 0 else TotalLength(keys[..|keys| - 1]) + |keys[|keys| - 1]|
  }

  /** Every row leads to the longest node of the text read, and hits where a pattern ends. */
  ghost predicate Automaton(m: Matcher, n: int, off: map<Bytes, int>, pats: set<Bytes>) {
    && Classed(m.cls, n)
    && |m.hit| == |m.next|
    && Rows(off, n, |m.next|)
    && PrefixClosed(off.Keys)
    && pats <= off.Keys
    && (forall w {:trigger DoneRow(m.next, m.cls, n, off, w)} :: w in off ==> DoneRow(m.next, m.cls, n, off, w))
    && (forall w {:trigger m.hit[off[w]]} :: w in off ==> m.hit[off[w]] == EndsInPattern(w, pats))
  }

  /** The table of `m` is the automaton of the entries of `keys`. */
  ghost predicate Compiled(m: Matcher, keys: seq<Bytes>) {
    && m.always == ([] in keys)
    && exists n, off: map<Bytes, int> :: Automaton(m, n, off, Patterns(keys))
  }

  method HasAsciiUpper(s: Bytes) returns (r: bool)
    ensures r <==> !NoUpper(s)
  {
    for i := 0 to |s|
      invariant forall k :: 0 <= k < i ==> !IsUpper(s[k])
    {
      if IsUpper(s[i]) { return true; }
    }
    return false;
  }

  lemma PatternsStep(keys: seq<Bytes>, i: int)
    requires 0 <= i < |keys|
    ensures Patterns(keys[..i + 1]) ==
      Patterns(keys[..i]) + if keys[i] != [] && NoUpper(keys[i]) then {keys[i]} else {}
  {
    var k' := keys[..i + 1];
    forall p | p in Patterns(keys[..i]) ensures p in Patterns(k') {
      var j :| 0 <= j < i && keys[..i][j] == p;
      assert k'[j] == p;
    }
    if keys[i] != [] && NoUpper(keys[i]) { assert k'[i] == keys[i]; }
  }

  /** What the selection loop has gathered from `keys`. */
  ghost predicate Selected(pats: seq<Bytes>, always: bool, keys: seq<Bytes>) {
    && always == ([] in keys)
    && (forall i :: 0 <= i < |pats| ==> NoUpper(pats[i]) && pats[i] != [])
    && SetOf(pats) == Patterns(keys)
    && TotalLength(pats) <= TotalLength(keys)
  }

  lemma SkipKey(pats: seq<Bytes>, always: bool, keys: seq<Bytes>, i: int)
    requires 0 <= i < |keys| && Selected(pats, always, keys[..i]) && (!NoUpper(keys[i]) || keys[i] == [])
    ensures Selected(pats, always || keys[i] == [], keys[..i + 1])
  {
    PatternsStep(keys, i);
    assert keys[..i + 1] == keys[..i] + [keys[i]] && keys[..i + 1][..i] == keys[..i];
  }

  lemma TakeKey(pats: seq<Bytes>, always: bool, keys: seq<Bytes>, i: int)
    requires 0 <= i < |keys| && Selected(pats, always, keys[..i]) && NoUpper(keys[i]) && keys[i] != []
    ensures Selected(pats + [keys[i]], always, keys[..i + 1])
  {
    PatternsStep(keys, i);
    SetOfAppend(pats, keys[i]);
    assert keys[..i + 1] == keys[..i] + [keys[i]] && keys[..i + 1][..i] == keys[..i];
    assert (pats + [keys[i]])[..|pats|] == pats;
  }

  method SelectPatterns(keys: seq<Bytes>) returns (pats: seq<Bytes>, always: bool)
    ensures always == ([] in keys)
    ensures forall i :: 0 <= i < |pats| ==> NoUpper(pats[i]) && pats[i] != []
    ensures SetOf(pats) == Patterns(keys)
    ensures TotalLength(pats) <= TotalLength(keys)
  {
    pats, always := [], false;
    for i := 0 to |keys|
      invariant Selected(pats, always, keys[..i])
    {
      var upper := HasAsciiUpper(keys[i]);
      if upper {
        assert keys[i] != [];
        SkipKey(pats, always, keys, i);
      } else if keys[i] == [] {
        SkipKey(pats, always, keys, i);
        always := true;
      } else {
        TakeKey(pats, always, keys, i);
        pats := pats + [keys[i]];
      }
    }
    assert keys[..|keys|] == keys;
  }

  lemma EmptyTrie(next: seq<int>, hit: seq<bool>, cls: seq<int>, n: int)
    requires Classed(cls, n) && |next| == |hit| == n
    requires forall i :: 0 <= i < n ==> next[i] == -1 && !hit[i]
    ensures Trie(next, hit, cls, n, map[[] := 0], {})
  {
  }

  method BuildTrie(pats: seq<Bytes>, cls: seq<int>, n: int, ghost rep: Bytes)
    returns (next: seq<int>, hit: seq<bool>, ghost off: map<Bytes, int>)
    requires Classes(cls, n, rep)
    requires forall i, j :: 0 <= i < |pats| && 0 <= j < |pats[i]| ==> cls[pats[i][j]] > 0
    ensures Trie(next, hit, cls, n, off, SetOf(pats))
    ensures n <= 231 ==> |next| <= 231 * (1 + TotalLength(pats))
  {
    var s;
    next, hit, s := NewState([], [], n);
    off := map[[] := 0];
    EmptyTrie(next, hit, cls, n);
    for i := 0 to |pats|
      invariant Trie(next, hit, cls, n, off, SetOf(pats[..i]))
      invariant n <= 231 ==> |next| <= 231 * (1 + TotalLength(pats[..i]))
    {
      next, hit, off := InsertPattern(next, hit, cls, n, pats[i], off, SetOf(pats[..i]), rep);
      SetOfAppend(pats[..i], pats[i]);
      assert pats[..i + 1] == pats[..i] + [pats[i]];
      assert pats[..i + 1][..i] == pats[..i];
    }
    assert pats[..|pats|] == pats;
  }

  /** newKeyMatcher. */
  method NewKeyMatcher(keys: seq<Bytes>) returns (m: Matcher)
    ensures Compiled(m, keys)
    ensures |m.next| <= 231 * (1 + TotalLength(keys))
  {
    var pats, always := SelectPatterns(keys);
    var cls, n;
    ghost var rep;
    cls, n, rep := AssignClasses(pats);
    var next, hit;
    ghost var off;
    next, hit, off := BuildTrie(pats, cls, n, rep);
    next, hit := CloseTrie(next, hit, cls, n, rep, off, Patterns(keys));
    m := Matcher(cls, next, hit, always);
    assert Automaton(m, n, off, Patterns(keys));
  }

  // ---- searching ----

  lemma StateStep(m: Matcher, n: int, off: map<Bytes, int>, pats: set<Bytes>, t: Bytes, b: byte)
    requires Automaton(m, n, off, pats)
    ensures var v := LongestNode(t, off.Keys);
      && 0 <= off[v] + m.cls[b] < |m.next|
      && m.next[off[v] + m.cls[b]] == off[LongestNode(t + [b], off.Keys)]
      && m.hit[off[LongestNode(t + [b], off.Keys)]] == EndsInPattern(t + [b], pats)
  {
    var v := LongestNode(t, off.Keys);
    assert DoneRow(m.next, m.cls, n, off, v);
    LongestNodeStep(t, b, off.Keys);
    EndsInPatternOfNode(t + [b], pats, off.Keys);
  }

  /** Some pattern ends somewhere in `t`. */
  ghost predicate HitBefore(t: Bytes, pats: set<Bytes>, j: int) {
    exists k :: 0 <= k <= j <= |t| && EndsInPattern(t[..k], pats)
  }

  lemma HitIsContained(t: Bytes, pats: set<Bytes>)
    ensures HitBefore(t, pats, |t|) <==> exists p :: p in pats && Contains(t, p)
  {
    if HitBefore(t, pats, |t|) {
      var k :| 0 <= k <= |t| && EndsInPattern(t[..k], pats);
      EndsInPatternIsSuffix(t[..k], pats);
      var i :| 0 <= i <= k && t[..k][i..] in pats;
      assert t[i..i + (k - i)] == t[..k][i..];
      assert OccursAt(t, t[..k][i..], i);
    }
    if p :| p in pats && Contains(t, p) {
      var i :| OccursAt(t, p, i);
      EndsInPatternIsSuffix(t[..i + |p|], pats);
      assert t[..i + |p|][i..] == p;
    }
  }

  lemma ExtendHit(t: Bytes, pats: set<Bytes>, i: int)
    requires 0 <= i < |t|
    ensures HitBefore(t, pats, i + 1) <==> HitBefore(t, pats, i) || EndsInPattern(t[..i + 1], pats)
  {
  }

  lemma NoHitAtStart(t: Bytes, pats: set<Bytes>)
    requires [] !in pats
    ensures !HitBefore(t, pats, 0)
  {
    assert t[..0] == [];
  }

  method Walk(m: Matcher, lowered: Bytes, ghost keys: seq<Bytes>) returns (found: bool)
    requires Compiled(m, keys)
    ensures found <==> exists p :: p in Patterns(keys) && Contains(lowered, p)
  {
    ghost var pats := Patterns(keys);
    ghost var n, off: map<Bytes, int> :| Automaton(m, n, off, pats);
    HitIsContained(lowered, pats);
    NoHitAtStart(lowered, pats);
    var s := 0;
    for i := 0 to |lowered|
      invariant s == off[LongestNode(lowered[..i], off.Keys)]
      invariant !HitBefore(lowered, pats, i)
    {
      StateStep(m, n, off, pats, lowered[..i], lowered[i]);
      assert lowered[..i + 1] == lowered[..i] + [lowered[i]];
      ExtendHit(lowered, pats, i);
      s := m.next[s + m.cls[lowered[i]]];
      if m.hit[s] {
        return true;
      }
    }
    return false;
  }

  /** An entry is inside the lowered key exactly when the empty entry exists or a pattern is. */
  lemma EntryInside(keys: seq<Bytes>, text: Bytes)
    requires NoUpper(text)
    ensures (exists k :: k in keys && Contains(text, k)) <==>
      [] in keys || exists p :: p in Patterns(keys) && Contains(text, p)
  {
    if [] in keys { assert OccursAt(text, [], 0); }
    if k :| k in keys && Contains(text, k) {
      var i :| OccursAt(text, k, i);
      forall j | 0 <= j < |k| ensures !IsUpper(k[j]) {
        assert k[j] == text[i + j];
      }
      if k != [] { assert k in Patterns(keys); }
    }
  }

  lemma ContainsExtends(t: Bytes, u: Bytes, p: Bytes)
    requires Contains(t, p)
    ensures Contains(t + u, p)
  {
    var i :| OccursAt(t, p, i);
    assert (t + u)[i..i + |p|] == t[i..i + |p|];
    assert OccursAt(t + u, p, i);
  }

  /** A hit in the folded ASCII prefix is a hit in the lowered key. */
  lemma PrefixHit(lower: Bytes -> Bytes, key: Bytes, i: int, keys: seq<Bytes>)
    requires IsLowering(lower) && 0 <= i <= |key| && IsAscii(key[..i])
    ensures lower(key) == Fold(key[..i]) + lower(key[i..])
    ensures HitBefore(Fold(key[..i]), Patterns(keys), i) ==> exists p :: p in Patterns(keys) && Contains(lower(key), p)
  {
    var pats := Patterns(keys);
    assert key == key[..i] + key[i..];
    LowerIsFold(lower, key[..i], key[i..]);
    if HitBefore(Fold(key[..i]), pats, i) {
      HitIsContained(Fold(key[..i]), pats);
      var p :| p in pats && Contains(Fold(key[..i]), p);
      ContainsExtends(Fold(key[..i]), lower(key[i..]), p);
    }
  }

  lemma FoldStep(key: Bytes, i: int, pats: set<Bytes>)
    requires 0 <= i < |key|
    ensures Fold(key[..i + 1]) == Fold(key[..i]) + [FoldByte(key[i])]
    ensures IsAscii(key[..i]) && key[i] < 128 ==> IsAscii(key[..i + 1])
    ensures !HitBefore(Fold(key[..i]), pats, i) ==>
      (HitBefore(Fold(key[..i + 1]), pats, i + 1) <==> EndsInPattern(Fold(key[..i + 1]), pats))
  {
    var f := Fold(key[..i + 1]);
    assert f[..i + 1] == f;
    forall k | 0 <= k <= i
      ensures f[..k] == Fold(key[..i])[..k]
    {
    }
    assert forall k :: 0 <= k < i ==> key[..i + 1][k] == key[..i][k];
  }

  /** The loop of find: it stops at a hit, at a non-ASCII byte or at the end. */
  method WalkFolded(m: Matcher, key: Bytes, ghost keys: seq<Bytes>) returns (hit: bool, stop: nat)
    requires Compiled(m, keys)
    ensures stop <= |key| && IsAscii(key[..stop])
    ensures hit <==> HitBefore(Fold(key[..stop]), Patterns(keys), stop)
    ensures hit || stop == |key| || key[stop] >= 128
  {
    ghost var pats := Patterns(keys);
    ghost var n, off: map<Bytes, int> :| Automaton(m, n, off, pats);
    var s := 0;
    NoHitAtStart(Fold(key[..0]), pats);
    for i := 0 to |key|
      invariant IsAscii(key[..i])
      invariant s == off[LongestNode(Fold(key[..i]), off.Keys)]
      invariant !HitBefore(Fold(key[..i]), pats, i)
    {
      if key[i] >= 128 {
        return false, i;
      }
      var b := FoldByte(key[i]);
      StateStep(m, n, off, pats, Fold(key[..i]), b);
      FoldStep(key, i, pats);
      s := m.next[s + m.cls[b]];
      if m.hit[s] {
        return true, i + 1;
      }
    }
    return false, |key|;
  }

  /** find: true exactly when some entry is a substring of the lowered key. */
  method Find(m: Matcher, key: Bytes, lower: Bytes -> Bytes, ghost keys: seq<Bytes>) returns (found: bool, lowered: Bytes)
    requires Compiled(m, keys) && IsLowering(lower)
    ensures found <==> exists k :: k in keys && Contains(lower(key), k)
    ensures lowered == [] || lowered == lower(key)
    ensures !found && !IsAscii(key) ==> lowered == lower(key)
  {
    EntryInside(keys, lower(key));
    if m.always {
      return true, [];
    }
    var hit, stop := WalkFolded(m, key, keys);
    PrefixHit(lower, key, stop, keys);
    if hit {
      return true, [];
    }
    if stop < |key| {
      lowered := lower(key);
      found := Walk(m, lowered, keys);
      return;
    }
    assert key[..|key|] == key && key[|key|..] == [];
    assert lower(key) == Fold(key) + [] == Fold(key);
    HitIsContained(Fold(key), Patterns(keys));
    return false, [];
  }
}
