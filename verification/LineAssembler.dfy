/** The eBPF agent's line assembler: writes of many streams, in pieces and
    interleaved, put back together into lines. */
module LineAssembler {

  datatype Key = Key(tgid: nat, fd: nat)

  /** The bytes of a stream since its last newline, and when it was last written. */
  datatype Pending = Pending(buf: string, seen: int)

  /** The assembler's state; `out` is every line delivered, with its stream. */
  datatype Assembly = Assembly(streams: map<Key, Pending>, out: seq<(Key, string)>, overflows: nat)

  // ---- lines of a text ----

  function NewlineFrom(t: string, from: int): (i: int)
    requires 0 <= from <= |t|
    ensures i == -1 || (from <= i < |t| && t[i] == '\n')
    decreases |t| - from
  {
    if from == |t| then -1 else if t[from] == '\n' then from else NewlineFrom(t, from + 1)
  }

  /** The first newline, or -1. */
  function NewlineAt(t: string): (i: int)
    ensures i == -1 || (0 <= i < |t| && t[i] == '\n')
  {
    NewlineFrom(t, 0)
  }

  lemma {:induction false} NoneBefore(t: string, from: int, k: int)
    requires 0 <= from <= k < |t| && t[k] == '\n'
    ensures NewlineFrom(t, from) != -1 && NewlineFrom(t, from) <= k
    decreases |t| - from
  {
    if t[from] != '\n' {
      NoneBefore(t, from + 1, k);
    }
  }

  /** It is the first. */
  lemma NewlineIsFirst(t: string)
    ensures forall k :: 0 <= k < (if NewlineAt(t) == -1 then |t| else NewlineAt(t)) ==> t[k] != '\n'
  {
    forall k | 0 <= k < |t| && t[k] == '\n'
      ensures NewlineAt(t) != -1 && NewlineAt(t) <= k
    {
      NoneBefore(t, 0, k);
    }
  }

  /** The lines of a text, byte by byte: a newline closes what followed the one before. */
  function Lines(t: string): seq<string> {
    if t == "" then []
    else Lines(t[..|t| - 1]) + if t[|t| - 1] == '\n' then [Remainder(t[..|t| - 1])] else []
  }

  /** What follows the last newline. */
  function Remainder(t: string): (r: string)
    ensures '\n' !in r && |r| <= |t|
  {
    if t == "" || t[|t| - 1] == '\n' then "" else Remainder(t[..|t| - 1]) + [t[|t| - 1]]
  }

  lemma Assoc<T>(a: seq<T>, b: seq<T>, c: seq<T>)
    ensures (a + b) + c == a + (b + c)
  {
  }

  lemma {:induction false} NoNewline(t: string)
    requires '\n' !in t
    ensures Lines(t) == [] && Remainder(t) == t
    decreases |t|
  {
    if t != "" {
      var front, c := t[..|t| - 1], t[|t| - 1];
      assert t == front + [c];
      assert c in t;
      NoNewline(front);
    }
  }

  /** Where a text is cut does not matter: the remainder carries over. */
  lemma {:induction false} LinesAppend(t: string, u: string)
    ensures Lines(t + u) == Lines(t) + Lines(Remainder(t) + u)
    ensures Remainder(t + u) == Remainder(Remainder(t) + u)
    decreases |u|
  {
    var r := Remainder(t);
    if u == "" {
      NoNewline(r);
      assert t + u == t && r + u == r;
    } else {
      var front, c := u[..|u| - 1], u[|u| - 1];
      assert (t + u)[..|t + u| - 1] == t + front && (r + u)[..|r + u| - 1] == r + front;
      LinesAppend(t, front);
      Assoc(Lines(t), Lines(r + front), if c == '\n' then [Remainder(r + front)] else []);
    }
  }

  /** The cut at the first newline, which is how the code reads lines. */
  lemma LinesCut(line: string, rest: string)
    requires '\n' !in line
    ensures Lines(line + "\n" + rest) == [line] + Lines(rest) && Remainder(line + "\n" + rest) == Remainder(rest)
  {
    var head := line + "\n";
    assert head[..|line|] == line;
    NoNewline(line);
    LinesAppend(head, rest);
    assert "" + rest == rest;
  }

  lemma CutAtNewline(t: string, i: int)
    requires i == NewlineAt(t) && i != -1
    ensures '\n' !in t[..i] && t == t[..i] + "\n" + t[i + 1..]
  {
    NewlineIsFirst(t);
  }

  // ---- one push ----

  function PendingOf(a: Assembly, k: Key): string { if k in a.streams then a.streams[k].buf else "" }

  /** The lines delivered for one stream. */
  function LinesOf(out: seq<(Key, string)>, k: Key): seq<string> {
    if out == [] then []
    else LinesOf(out[..|out| - 1], k) + if out[|out| - 1].0 == k then [out[|out| - 1].1] else []
  }

  function Tagged(k: Key, lines: seq<string>): (r: seq<(Key, string)>)
    ensures |r| == |lines|
  {
    seq(|lines|, i requires 0 <= i < |lines| => (k, lines[i]))
  }

  lemma {:induction false} LinesOfTagged(out: seq<(Key, string)>, k: Key, lines: seq<string>, j: Key)
    ensures LinesOf(out + Tagged(k, lines), j) == LinesOf(out, j) + if j == k then lines else []
    decreases |lines|
  {
    var all := out + Tagged(k, lines);
    if lines == [] {
      assert all == out;
    } else {
      var n := |lines| - 1;
      assert all[..|all| - 1] == out + Tagged(k, lines[..n]);
      LinesOfTagged(out, k, lines[..n], j);
      assert lines[..n] + [lines[n]] == lines;
    }
  }

  lemma LinesOfOne(out: seq<(Key, string)>, k: Key, line: string, j: Key)
    ensures LinesOf(out + [(k, line)], j) == LinesOf(out, j) + if j == k then [line] else []
  {
    assert (out + [(k, line)])[..|out|] == out;
  }

  /** A push: the completed lines, and a line of whatever reached the limit. */
  function Pushed(a: Assembly, maxLine: int, k: Key, data: string, now: int): Assembly {
    var t := PendingOf(a, k) + data;
    var rest := Remainder(t);
    var out := a.out + Tagged(k, Lines(t));
    if rest == "" then Assembly(a.streams - {k}, out, a.overflows)
    else if |rest| >= maxLine then Assembly(a.streams - {k}, out + [(k, rest)], a.overflows + 1)
    else Assembly(a.streams[k := Pending(rest, now)], out, a.overflows)
  }

  /** Pending buffers are unfinished lines below the limit, and none is empty. */
  ghost predicate Bounded(a: Assembly, maxLine: int) {
    forall k :: k in a.streams ==> a.streams[k].buf != "" && '\n' !in a.streams[k].buf && |a.streams[k].buf| < maxLine
  }

  lemma PushKeepsBounded(a: Assembly, maxLine: int, k: Key, data: string, now: int)
    requires Bounded(a, maxLine)
    ensures Bounded(Pushed(a, maxLine, k, data, now), maxLine)
  {
  }

  lemma TaggedCons(k: Key, line: string, lines: seq<string>, out: seq<(Key, string)>)
    ensures out + Tagged(k, [line] + lines) == out + [(k, line)] + Tagged(k, lines)
  {
  }

  class Assembler {
    var maxLine: int
    var overflows: nat
    var streams: map<Key, Pending>
    var out: seq<(Key, string)>

    function Value(): Assembly
      reads this
    {
      Assembly(streams, out, overflows)
    }

    ghost predicate Valid()
      reads this
    {
      maxLine > 0 && Bounded(Value(), maxLine)
    }

    constructor ()
      ensures Valid() && Value() == Assembly(map[], [], 0) && maxLine == 0x10_0000
    {
      maxLine, overflows, streams, out := 0x10_0000, 0, map[], [];
    }

    /** The fast path: whole lines with nothing pending. */
    method PassLines(k: Key, data: string) returns (rest: string)
      modifies this`out
      ensures rest == Remainder(data) && out == old(out) + Tagged(k, Lines(data))
    {
      rest := data;
      while |rest| > 0
        invariant out + Tagged(k, Lines(rest)) == old(out) + Tagged(k, Lines(data))
        invariant Remainder(rest) == Remainder(data)
        decreases |rest|
      {
        var i := NewlineAt(rest);
        if i < 0 {
          NewlineIsFirst(rest);
          NoNewline(rest);
          break;
        }
        CutAtNewline(rest, i);
        LinesCut(rest[..i], rest[i + 1..]);
        TaggedCons(k, rest[..i], Lines(rest[i + 1..]), out);
        out := out + [(k, rest[..i])];
        rest := rest[i + 1..];
      }
    }

    /** The slow path: the pending bytes start the first line. */
    method JoinLines(k: Key, pending: string, data: string) returns (buf: string)
      requires '\n' !in pending
      modifies this`out
      ensures buf == Remainder(pending + data) && out == old(out) + Tagged(k, Lines(pending + data))
    {
      buf := pending;
      var rest := data;
      while |rest| > 0
        invariant '\n' !in buf
        invariant out + Tagged(k, Lines(buf + rest)) == old(out) + Tagged(k, Lines(pending + data))
        invariant Remainder(buf + rest) == Remainder(pending + data)
        decreases |rest|
      {
        var i := NewlineAt(rest);
        if i < 0 {
          NewlineIsFirst(rest);
          buf := buf + rest;
          NoNewline(buf);
          return;
        }
        CutAtNewline(rest, i);
        LinesCut(buf + rest[..i], rest[i + 1..]);
        assert buf + rest == buf + rest[..i] + "\n" + rest[i + 1..];
        TaggedCons(k, buf + rest[..i], Lines(rest[i + 1..]), out);
        out := out + [(k, buf + rest[..i])];
        buf := "";
        rest := rest[i + 1..];
        assert buf + rest == rest;
      }
      assert buf + rest == buf;
      NoNewline(buf);
    }

    /** Push: one write of one stream. */
    method Push(k: Key, data: string, now: int)
      requires Valid()
      modifies this
      ensures Valid() && maxLine == old(maxLine)
      ensures Value() == Pushed(old(Value()), maxLine, k, data, now)
    {
      PushKeepsBounded(Value(), maxLine, k, data, now);
      var buf;
      if k !in streams {
        assert "" + data == data;
        buf := PassLines(k, data);
        if |buf| == 0 {
          assert streams - {k} == streams;
          return;
        }
      } else {
        buf := JoinLines(k, streams[k].buf, data);
      }
      if |buf| >= maxLine {
        overflows := overflows + 1;
        out := out + [(k, buf)];
        buf := "";
      }
      if |buf| == 0 {
        streams := streams - {k};
      } else {
        streams := streams[k := Pending(buf, now)];
      }
    }

    /** FlushIdle: the streams not written to for `idle` end their line. */
    method FlushIdle(now: int, idle: int)
      requires Valid()
      modifies `streams, `out
      ensures Valid()
      ensures Flushed(old(Value()), now, idle, Value())
    {
      var left := streams.Keys;
      ghost var was := Value();
      while exists k :: k in left
        invariant left <= streams.Keys && FlushedBut(was, now, idle, left, Value())
        decreases left
      {
        var k :| k in left;
        FlushedButOne(was, now, idle, left, Value(), k);
        left := left - {k};
        if IsIdle(streams[k], now, idle) {
          out := out + [(k, streams[k].buf)];
          streams := streams - {k};
        }
      }
      assert left == {};
    }
  }

  predicate IsIdle(p: Pending, now: int, idle: int) { now - p.seen >= idle }

  /** The line an idle flush delivers for a stream. */
  function Ended(a: Assembly, now: int, idle: int, k: Key): seq<string> {
    if k in a.streams && IsIdle(a.streams[k], now, idle) then [a.streams[k].buf] else []
  }

  /** An idle flush, whatever the order in which the streams are visited. */
  ghost predicate Flushed(a: Assembly, now: int, idle: int, a': Assembly) {
    && a'.overflows == a.overflows
    && (forall k :: k in a'.streams <==> k in a.streams && !IsIdle(a.streams[k], now, idle))
    && (forall k :: k in a'.streams ==> a'.streams[k] == a.streams[k])
    && (forall k :: LinesOf(a'.out, k) == LinesOf(a.out, k) + Ended(a, now, idle, k))
  }

  /** An idle flush that has yet to visit the streams in `left`. */
  ghost predicate FlushedBut(a: Assembly, now: int, idle: int, left: set<Key>, a': Assembly) {
    && a'.overflows == a.overflows
    && (forall k :: k in a'.streams <==> k in a.streams && (k in left || !IsIdle(a.streams[k], now, idle)))
    && (forall k :: k in a'.streams ==> a'.streams[k] == a.streams[k])
    && (forall k :: LinesOf(a'.out, k) == LinesOf(a.out, k) + (if k in left then [] else Ended(a, now, idle, k)))
  }

  lemma FlushedButOne(a: Assembly, now: int, idle: int, left: set<Key>, a': Assembly, k: Key)
    requires FlushedBut(a, now, idle, left, a') && k in left && k in a'.streams
    ensures
      var buf := a'.streams[k].buf;
      FlushedBut(a, now, idle, left - {k},
        if IsIdle(a'.streams[k], now, idle) then Assembly(a'.streams - {k}, a'.out + [(k, buf)], a'.overflows) else a')
  {
    forall j
      ensures LinesOf(a'.out + [(k, a'.streams[k].buf)], j) == LinesOf(a'.out, j) + if j == k then [a'.streams[k].buf] else []
    {
      LinesOfOne(a'.out, k, a'.streams[k].buf, j);
    }
  }

  // ---- runs ----

  datatype Event = Push(k: Key, data: string, now: int) | Flush(now: int, idle: int)

  ghost predicate Happens(a: Assembly, maxLine: int, e: Event, a': Assembly) {
    match e
    case Push(k, data, now) => a' == Pushed(a, maxLine, k, data, now)
    case Flush(now, idle) => Flushed(a, now, idle, a')
  }

  ghost predicate Run(run: seq<Assembly>, maxLine: int, events: seq<Event>) {
    && |run| == |events| + 1 && run[0] == Assembly(map[], [], 0)
    && forall i :: 0 <= i < |events| ==> StepAt(run, maxLine, events, i)
  }

  ghost predicate StepAt(run: seq<Assembly>, maxLine: int, events: seq<Event>, i: int) {
    0 <= i < |events| && i + 1 < |run| && Happens(run[i], maxLine, events[i], run[i + 1])
  }

  /** The bytes an event writes to a stream. */
  function Sent(e: Event, k: Key): string { if e.Push? && e.k == k then e.data else "" }

  /** All bytes written to a stream by the first `i` events. */
  function Written(events: seq<Event>, i: nat, k: Key): string
    requires i <= |events|
  {
    if i == 0 then "" else Written(events, i - 1, k) + Sent(events[i - 1], k)
  }

  /** A push leaves the other streams alone. */
  lemma {:induction false} PushOthers(a: Assembly, maxLine: int, k: Key, data: string, now: int, j: Key)
    requires j != k
    ensures var a' := Pushed(a, maxLine, k, data, now);
      LinesOf(a'.out, j) == LinesOf(a.out, j) && PendingOf(a', j) == PendingOf(a, j)
  {
    var t := PendingOf(a, k) + data;
    var out := a.out + Tagged(k, Lines(t));
    LinesOfTagged(a.out, k, Lines(t), j);
    LinesOfOne(out, k, Remainder(t), j);
    assert LinesOf(a.out, j) + [] == LinesOf(a.out, j) == LinesOf(out, j);
  }

  /** What a push delivers and keeps for its own stream. */
  lemma PushLines(a: Assembly, maxLine: int, k: Key, data: string, now: int)
    ensures var a' := Pushed(a, maxLine, k, data, now); var t := PendingOf(a, k) + data;
      if a'.overflows == a.overflows then
        LinesOf(a'.out, k) == LinesOf(a.out, k) + Lines(t) && PendingOf(a', k) == Remainder(t)
      else
        LinesOf(a'.out, k) == LinesOf(a.out, k) + Lines(t) + [Remainder(t)] && PendingOf(a', k) == ""
  {
    var t := PendingOf(a, k) + data;
    LinesOfTagged(a.out, k, Lines(t), k);
    LinesOfOne(a.out + Tagged(k, Lines(t)), k, Remainder(t), k);
  }

  /** A push overflows exactly if what follows the last newline of the pending bytes and
      the new ones reaches the limit, and the line it then delivers is that long. */
  lemma OverflowIsExact(a: Assembly, maxLine: int, k: Key, data: string, now: int)
    requires maxLine > 0
    ensures var a', rest := Pushed(a, maxLine, k, data, now), Remainder(PendingOf(a, k) + data);
      && a'.overflows == a.overflows + (if |rest| >= maxLine then 1 else 0)
      && (a'.overflows > a.overflows ==> a'.out != [] && a'.out[|a'.out| - 1] == (k, rest) && |rest| >= maxLine)
  {
  }

  lemma {:induction false} RunIsBounded(run: seq<Assembly>, maxLine: int, events: seq<Event>, i: nat)
    requires Run(run, maxLine, events) && i < |run|
    ensures Bounded(run[i], maxLine)
    decreases i
  {
    if i > 0 {
      RunIsBounded(run, maxLine, events, i - 1);
      assert StepAt(run, maxLine, events, i - 1);
      if events[i - 1].Push? {
        PushKeepsBounded(run[i - 1], maxLine, events[i - 1].k, events[i - 1].data, events[i - 1].now);
      }
    }
  }

  /** When stream `k` was last written to. */
  function LastPush(events: seq<Event>, i: nat, k: Key): int
    requires i <= |events|
  {
    if i == 0 then 0
    else if events[i - 1].Push? && events[i - 1].k == k then events[i - 1].now
    else LastPush(events, i - 1, k)
  }

  /** Event `i` finds the unfinished line of stream `k` below the limit, or not yet
      idle. This is said of the bytes and times of the events alone. */
  ghost predicate Quiet(maxLine: int, events: seq<Event>, i: int, k: Key) {
    && 0 <= i < |events|
    && match events[i]
       case Push(j, _, _) => j == k ==> |Remainder(Written(events, i + 1, k))| < maxLine
       case Flush(now, idle) => Remainder(Written(events, i, k)) == "" || now - LastPush(events, i, k) < idle
  }

  /** The stream's lines and its pending bytes are those of its bytes, last seen when
      it was last written to. */
  ghost predicate Tracks(a: Assembly, events: seq<Event>, i: nat, k: Key)
    requires i <= |events|
  {
    var text := Written(events, i, k);
    && LinesOf(a.out, k) == Lines(text) && PendingOf(a, k) == Remainder(text)
    && (k in a.streams <==> Remainder(text) != "")
    && (k in a.streams ==> a.streams[k].seen == LastPush(events, i, k))
  }

  lemma FlushSpares(a: Assembly, now: int, idle: int, a': Assembly, k: Key)
    requires Flushed(a, now, idle, a') && Ended(a, now, idle, k) == []
    ensures LinesOf(a'.out, k) == LinesOf(a.out, k) && PendingOf(a', k) == PendingOf(a, k)
  {
    assert LinesOf(a'.out, k) == LinesOf(a.out, k) + [];
    assert k in a'.streams <==> k in a.streams;
  }

  lemma PushTracks(a: Assembly, maxLine: int, events: seq<Event>, i: nat, a': Assembly, k: Key)
    requires i < |events| && events[i].Push? && Happens(a, maxLine, events[i], a') && Tracks(a, events, i, k)
    requires maxLine > 0 && Quiet(maxLine, events, i, k)
    ensures Tracks(a', events, i + 1, k)
  {
    var e, before := events[i], Written(events, i, k);
    if e.k == k {
      LinesAppend(before, e.data);
      OverflowIsExact(a, maxLine, k, e.data, e.now);
      PushLines(a, maxLine, k, e.data, e.now);
    } else {
      assert before + "" == before;
      PushOthers(a, maxLine, e.k, e.data, e.now, k);
    }
  }

  lemma FlushTracks(a: Assembly, maxLine: int, events: seq<Event>, i: nat, a': Assembly, k: Key)
    requires i < |events| && events[i].Flush? && Happens(a, maxLine, events[i], a') && Tracks(a, events, i, k)
    requires Quiet(maxLine, events, i, k)
    ensures Tracks(a', events, i + 1, k)
  {
    assert Written(events, i, k) + "" == Written(events, i, k);
    FlushSpares(a, events[i].now, events[i].idle, a', k);
    assert k in a'.streams <==> k in a.streams;
  }

  lemma {:induction false} StreamIsTracked(run: seq<Assembly>, maxLine: int, events: seq<Event>, i: nat, k: Key)
    requires Run(run, maxLine, events) && i < |run| && maxLine > 0
    requires forall j :: 0 <= j < i ==> Quiet(maxLine, events, j, k)
    ensures Tracks(run[i], events, i, k)
    decreases i
  {
    if i > 0 {
      var a, a', e := run[i - 1], run[i], events[i - 1];
      StreamIsTracked(run, maxLine, events, i - 1, k);
      assert StepAt(run, maxLine, events, i - 1) && Quiet(maxLine, events, i - 1, k);
      if e.Push? {
        PushTracks(a, maxLine, events, i - 1, a', k);
      } else {
        FlushTracks(a, maxLine, events, i - 1, a', k);
      }
    }
  }

  /** As long as its unfinished line stays below the limit at every push and is not
      left idle at a flush, a stream's lines are those of its bytes, however the
      writes were split and interleaved and whatever happens to the other streams. */
  lemma LinesDependOnBytes(run: seq<Assembly>, maxLine: int, events: seq<Event>, i: nat, k: Key)
    requires Run(run, maxLine, events) && i < |run| && maxLine > 0
    requires forall j :: 0 <= j < i ==> Quiet(maxLine, events, j, k)
    ensures LinesOf(run[i].out, k) == Lines(Written(events, i, k))
    ensures PendingOf(run[i], k) == Remainder(Written(events, i, k))
  {
    StreamIsTracked(run, maxLine, events, i, k);
  }

  /** The first event that is not quiet ends the unfinished line early: as an overflow
      of the limit or more, or because the stream was left idle. */
  lemma FirstEarlyEnd(run: seq<Assembly>, maxLine: int, events: seq<Event>, i: nat, k: Key)
    requires Run(run, maxLine, events) && i < |events| && maxLine > 0
    requires (forall j :: 0 <= j < i ==> Quiet(maxLine, events, j, k)) && !Quiet(maxLine, events, i, k)
    ensures
      var text := Written(events, i + 1, k);
      && LinesOf(run[i + 1].out, k) == Lines(text) + [Remainder(text)] && PendingOf(run[i + 1], k) == ""
      && (events[i].Push? ==> run[i + 1].overflows == run[i].overflows + 1 && |Remainder(text)| >= maxLine)
  {
    var a, e, before := run[i], events[i], Written(events, i, k);
    StreamIsTracked(run, maxLine, events, i, k);
    assert StepAt(run, maxLine, events, i);
    if e.Push? {
      LinesAppend(before, e.data);
      OverflowIsExact(a, maxLine, k, e.data, e.now);
      PushLines(a, maxLine, k, e.data, e.now);
    } else {
      assert before + "" == before;
      assert LinesOf(run[i + 1].out, k) == LinesOf(a.out, k) + Ended(a, e.now, e.idle, k);
      assert k !in run[i + 1].streams;
    }
  }

  // ---- nothing is lost ----

  function Strip(t: string): string {
    if t == [] then [] else Strip(t[..|t| - 1]) + if t[|t| - 1] == '\n' then [] else [t[|t| - 1]]
  }

  function Flat(lines: seq<string>): string {
    if lines == [] then [] else Flat(lines[..|lines| - 1]) + lines[|lines| - 1]
  }

  lemma {:induction false} StripAppend(t: string, u: string)
    ensures Strip(t + u) == Strip(t) + Strip(u)
    decreases |u|
  {
    if u == [] {
      assert t + u == t;
    } else {
      var front := u[..|u| - 1];
      assert (t + u)[..|t + u| - 1] == t + front;
      StripAppend(t, front);
      Assoc(Strip(t), Strip(front), if u[|u| - 1] == '\n' then [] else [u[|u| - 1]]);
    }
  }

  lemma {:induction false} StripPlain(t: string)
    requires '\n' !in t
    ensures Strip(t) == t
    decreases |t|
  {
    if t != [] {
      var front, c := t[..|t| - 1], t[|t| - 1];
      assert t == front + [c];
      assert c in t;
      StripPlain(front);
    }
  }

  lemma {:induction false} FlatAppend(x: seq<string>, y: seq<string>)
    ensures Flat(x + y) == Flat(x) + Flat(y)
    decreases |y|
  {
    if y == [] {
      assert x + y == x;
    } else {
      var front := y[..|y| - 1];
      assert (x + y)[..|x + y| - 1] == x + front;
      FlatAppend(x, front);
      Assoc(Flat(x), Flat(front), y[|y| - 1]);
    }
  }

  lemma FlatOne(x: string)
    ensures Flat([x]) == x
  {
    assert [x][..0] == [];
  }

  /** The lines and the remainder of a text hold its other bytes, in order. */
  lemma {:induction false} LinesKeepBytes(t: string)
    ensures Flat(Lines(t)) + Remainder(t) == Strip(t)
    decreases |t|
  {
    if t != "" {
      var front, c := t[..|t| - 1], t[|t| - 1];
      LinesKeepBytes(front);
      if c == '\n' {
        FlatAppend(Lines(front), [Remainder(front)]);
        FlatOne(Remainder(front));
      } else {
        assert Lines(t) == Lines(front);
        Assoc(Flat(Lines(front)), Remainder(front), [c]);
      }
    }
  }

  /** What came out of a stream and what is pending spell a text without its newlines. */
  ghost predicate Spells(a: Assembly, k: Key, text: string) {
    Flat(LinesOf(a.out, k)) + PendingOf(a, k) == Strip(text)
  }

  /** With overflows and idle flushes too, every byte that is no newline comes out
      once and in order. */
  lemma {:induction false} NothingIsLost(run: seq<Assembly>, maxLine: int, events: seq<Event>, i: nat, k: Key)
    requires Run(run, maxLine, events) && i < |run|
    ensures Spells(run[i], k, Written(events, i, k))
    decreases i
  {
    if i > 0 {
      assert StepAt(run, maxLine, events, i - 1);
      RunIsBounded(run, maxLine, events, i - 1);
      NothingIsLost(run, maxLine, events, i - 1, k);
      EventKeepsBytes(run[i - 1], maxLine, events[i - 1], run[i], k, Written(events, i - 1, k));
    }
  }

  lemma EventKeepsBytes(a: Assembly, maxLine: int, e: Event, a': Assembly, k: Key, before: string)
    requires Bounded(a, maxLine) && Happens(a, maxLine, e, a') && Spells(a, k, before)
    ensures Spells(a', k, before + Sent(e, k))
  {
    if e.Push? && e.k == k {
      PushKeepsBytes(a, maxLine, e, a', before);
    } else {
      assert before + "" == before;
      if e.Push? {
        PushOthers(a, maxLine, e.k, e.data, e.now, k);
      } else {
        FlushKeepsBytes(a, e.now, e.idle, a', k);
      }
    }
  }

  lemma PushKeepsBytes(a: Assembly, maxLine: int, e: Event, a': Assembly, before: string)
    requires e.Push? && Bounded(a, maxLine) && a' == Pushed(a, maxLine, e.k, e.data, e.now) && Spells(a, e.k, before)
    ensures Spells(a', e.k, before + e.data)
  {
    var lines, t := LinesOf(a.out, e.k), PendingOf(a, e.k) + e.data;
    PushLines(a, maxLine, e.k, e.data, e.now);
    if a'.overflows != a.overflows {
      FlatAppend(lines + Lines(t), [Remainder(t)]);
      FlatOne(Remainder(t));
    }
    BytesOf(lines, PendingOf(a, e.k), e.data, before);
  }

  /** The delivered lines, the new ones and the remainder spell the old bytes and the new. */
  lemma BytesOf(lines: seq<string>, pending: string, data: string, before: string)
    requires '\n' !in pending && Flat(lines) + pending == Strip(before)
    ensures Flat(lines + Lines(pending + data)) + Remainder(pending + data) == Strip(before + data)
  {
    var t := pending + data;
    FlatAppend(lines, Lines(t));
    LinesKeepBytes(t);
    Assoc(Flat(lines), Flat(Lines(t)), Remainder(t));
    StripAppend(pending, data);
    StripPlain(pending);
    Assoc(Flat(lines), pending, Strip(data));
    StripAppend(before, data);
  }

  lemma FlushKeepsBytes(a: Assembly, now: int, idle: int, a': Assembly, k: Key)
    requires Flushed(a, now, idle, a')
    ensures Flat(LinesOf(a'.out, k)) + PendingOf(a', k) == Flat(LinesOf(a.out, k)) + PendingOf(a, k)
  {
    assert LinesOf(a'.out, k) == LinesOf(a.out, k) + Ended(a, now, idle, k);
    if k in a.streams && IsIdle(a.streams[k], now, idle) {
      FlatAppend(LinesOf(a.out, k), [a.streams[k].buf]);
      FlatOne(a.streams[k].buf);
      assert k !in a'.streams;
    } else {
      assert k in a'.streams <==> k in a.streams;
      assert LinesOf(a.out, k) + [] == LinesOf(a.out, k);
    }
  }
}
