/** The cleaner's output: a buffered writer shared with a flush timer, and the
    per-line processing that writes to it. Each method holds the mutex, so a run
    is any sequence of them. The destination is assumed not to fail. */
module OutputWriter {
  import opened Common

  const BUFFER_SIZE: int := 65536

  /** What reached the destination, what is buffered, and whether Close ran. */
  datatype State = State(dst: string, buf: string, closed: bool) {
    /** Everything written so far, in order. */
    function Stream(): string { dst + buf }
  }

  datatype Event = Write(p: string) | Flush | Close

  /** An event of any goroutine: bytes move towards the destination, none is
      added but what is written, and a closed or unbuffered writer holds none back. */
  ghost predicate Happens(buffered: bool, s: State, e: Event, s': State) {
    && s.dst <= s'.dst
    && |s'.buf| <= BUFFER_SIZE
    && s'.Stream() == s.Stream() + (if e.Write? then e.p else "")
    && (e.Flush? || e.Close? || (e.Write? && (!buffered || s.closed)) ==> s'.buf == "")
    && s'.closed == (s.closed || e.Close?)
  }

  ghost predicate Consistent(buffered: bool, s: State) {
    |s.buf| <= BUFFER_SIZE && (!buffered || s.closed ==> s.buf == "")
  }

  class Writer {
    const buffered: bool
    var dst: string
    var buf: string
    var closed: bool

    function Value(): State
      reads this
    {
      State(dst, buf, closed)
    }

    /** An interval of zero disables the buffer. */
    constructor (interval: int)
      ensures buffered == (interval > 0) && Value() == State("", "", false)
    {
      buffered := interval > 0;
      dst, buf, closed := "", "", false;
    }

    /** bufio.Writer.Write: the buffer is filled and flushed as often as needed,
        and a large write to an empty buffer goes straight through. */
    method Buffer(p: string)
      requires |buf| <= BUFFER_SIZE
      modifies this`dst, this`buf
      ensures dst + buf == old(dst + buf) + p && old(dst) <= dst && |buf| <= BUFFER_SIZE
    {
      var rest := p;
      while |rest| > BUFFER_SIZE - |buf|
        invariant |buf| <= BUFFER_SIZE && old(dst) <= dst
        invariant dst + buf + rest == old(dst + buf) + p
        decreases |rest|, |buf|
      {
        if |buf| == 0 {
          dst := dst + rest;
          rest := "";
        } else {
          var n := BUFFER_SIZE - |buf|;
          ghost var all := dst + buf + rest;
          dst := dst + (buf + rest[..n]);
          buf := "";
          assert dst + rest[n..] == all;
          rest := rest[n..];
        }
      }
      assert dst + buf + rest == dst + (buf + rest);
      buf := buf + rest;
    }

    method Write(p: string)
      requires Consistent(buffered, Value())
      modifies this
      ensures Happens(buffered, old(Value()), Event.Write(p), Value()) && Consistent(buffered, Value())
    {
      if !buffered || closed {
        assert dst + buf == dst;
        dst := dst + p;
      } else {
        Buffer(p);
      }
    }

    /** Flush, also called by the timer. */
    method Flush()
      requires Consistent(buffered, Value())
      modifies this
      ensures Happens(buffered, old(Value()), Event.Flush, Value()) && Consistent(buffered, Value())
    {
      if buffered && |buf| > 0 {
        dst := dst + buf;
        buf := "";
      }
    }

    method Close()
      requires Consistent(buffered, Value())
      modifies this
      ensures Happens(buffered, old(Value()), Event.Close, Value()) && Consistent(buffered, Value())
    {
      Flush();
      closed := true;
    }

    /** writeMarker: a stream marker is pushed out at once. */
    method WriteMarker(marker: string)
      requires Consistent(buffered, Value())
      modifies this
      ensures Consistent(buffered, Value()) && closed == old(closed) && buf == ""
      ensures Value().Stream() == old(Value().Stream()) + (marker + "\n")
    {
      Write(marker + "\n");
      Flush();
    }

    /** processLine: `scan` is None when the scanner panics. Exactly one line is
        written for each line read. */
    method ProcessLine(text: string, scan: string -> Option<string>, closedPolicy: bool, audit: bool)
      requires Consistent(buffered, Value())
      modifies this
      ensures Consistent(buffered, Value()) && closed == old(closed)
      ensures Value().Stream() == old(Value().Stream()) + (LineFor(text, scan, closedPolicy, audit) + "\n")
    {
      var cleaned := scan(text);
      if cleaned.None? {
        if closedPolicy && !audit {
          WriteMarker(DROP);
        } else {
          Write(text + "\n");
        }
      } else if audit {
        Write(text + "\n");
      } else {
        Write(cleaned.value + "\n");
      }
    }

    /** The read loop over the lines of the input. */
    method ProcessAll(lines: seq<string>, scan: string -> Option<string>, closedPolicy: bool, audit: bool)
      requires Consistent(buffered, Value())
      modifies this
      ensures Value().Stream() == old(Value().Stream()) + Output(lines, scan, closedPolicy, audit) && Value().buf == ""
    {
      for i := 0 to |lines|
        invariant Consistent(buffered, Value())
        invariant Value().Stream() == old(Value().Stream()) + Output(lines[..i], scan, closedPolicy, audit)
      {
        ProcessLine(lines[i], scan, closedPolicy, audit);
        assert lines[..i + 1][..i] == lines[..i];
      }
      assert lines[..|lines|] == lines;
      Close();
    }
  }

  const DROP: string := "[PII_SHIELD_DROP: FATAL_ERROR]"

  /** The one line written for a line read. */
  function LineFor(text: string, scan: string -> Option<string>, closedPolicy: bool, audit: bool): string {
    match scan(text)
    case None => if closedPolicy && !audit then DROP else text
    case Some(cleaned) => if audit then text else cleaned
  }

  function Output(lines: seq<string>, scan: string -> Option<string>, closedPolicy: bool, audit: bool): string {
    if lines == [] then ""
    else Output(lines[..|lines| - 1], scan, closedPolicy, audit) + (LineFor(lines[|lines| - 1], scan, closedPolicy, audit) + "\n")
  }

  function Unchanged(lines: seq<string>): string {
    if lines == [] then "" else Unchanged(lines[..|lines| - 1]) + (lines[|lines| - 1] + "\n")
  }

  /** Audit mode never changes the stream, whatever the scanner and the policy do. */
  lemma {:induction false} AuditChangesNothing(lines: seq<string>, scan: string -> Option<string>, closedPolicy: bool)
    ensures Output(lines, scan, closedPolicy, true) == Unchanged(lines)
    decreases |lines|
  {
    if lines != [] { AuditChangesNothing(lines[..|lines| - 1], scan, closedPolicy); }
  }

  /** The lines that come out, one for each line read. */
  function LinesOut(lines: seq<string>, scan: string -> Option<string>, closedPolicy: bool, audit: bool): (r: seq<string>)
    ensures |r| == |lines|
  {
    seq(|lines|, i requires 0 <= i < |lines| => LineFor(lines[i], scan, closedPolicy, audit))
  }

  lemma {:induction false} OutputIsLines(lines: seq<string>, scan: string -> Option<string>, closedPolicy: bool, audit: bool)
    ensures Output(lines, scan, closedPolicy, audit) == Unchanged(LinesOut(lines, scan, closedPolicy, audit))
    decreases |lines|
  {
    if lines != [] {
      var n := |lines| - 1;
      assert LinesOut(lines, scan, closedPolicy, audit)[..n] == LinesOut(lines[..n], scan, closedPolicy, audit);
      OutputIsLines(lines[..n], scan, closedPolicy, audit);
    }
  }

  /** Outside audit mode: if `cleaned` are the scanned lines, the output is those lines. */
  lemma ScannedLinesComeOut(lines: seq<string>, cleaned: seq<string>, scan: string -> Option<string>, closedPolicy: bool)
    requires |cleaned| == |lines| && forall i :: 0 <= i < |lines| ==> scan(lines[i]) == Some(cleaned[i])
    ensures Output(lines, scan, closedPolicy, false) == Unchanged(cleaned)
  {
    OutputIsLines(lines, scan, closedPolicy, false);
    assert LinesOut(lines, scan, closedPolicy, false) == cleaned;
  }

  /** With panics too: a line the scanner fails on comes out as the drop marker under
      the closed policy, and as it was read under the open one. */
  lemma PanicsFollowPolicy(lines: seq<string>, out: seq<string>, scan: string -> Option<string>, closedPolicy: bool)
    requires |out| == |lines|
    requires forall i :: 0 <= i < |lines| && scan(lines[i]).Some? ==> out[i] == scan(lines[i]).value
    requires forall i :: 0 <= i < |lines| && scan(lines[i]).None? ==> out[i] == if closedPolicy then DROP else lines[i]
    ensures Output(lines, scan, closedPolicy, false) == Unchanged(out)
  {
    OutputIsLines(lines, scan, closedPolicy, false);
    assert LinesOut(lines, scan, closedPolicy, false) == out;
  }

  // ---- runs ----

  ghost predicate Run(buffered: bool, run: seq<State>, events: seq<Event>) {
    && |run| == |events| + 1 && run[0] == State("", "", false)
    && forall i :: 0 <= i < |events| ==> StepAt(buffered, run, events, i)
  }

  ghost predicate StepAt(buffered: bool, run: seq<State>, events: seq<Event>, i: int) {
    0 <= i < |events| && i + 1 < |run| && Happens(buffered, run[i], events[i], run[i + 1])
  }

  function Written(events: seq<Event>, i: nat): string
    requires i <= |events|
  {
    if i == 0 then "" else Written(events, i - 1) + if events[i - 1].Write? then events[i - 1].p else ""
  }

  /** Under any interleaving, destination and buffer hold all bytes written, in order. */
  lemma {:induction false} NothingIsLost(buffered: bool, run: seq<State>, events: seq<Event>, i: nat)
    requires Run(buffered, run, events) && i < |run|
    ensures run[i].Stream() == Written(events, i)
    decreases i
  {
    if i > 0 {
      NothingIsLost(buffered, run, events, i - 1);
      assert StepAt(buffered, run, events, i - 1);
    }
  }

  /** From a Close on, everything written is at the destination. */
  lemma {:induction false} NothingStaysBehind(buffered: bool, run: seq<State>, events: seq<Event>, i: nat, j: nat)
    requires Run(buffered, run, events) && i < j < |run| && events[i].Close?
    ensures run[j].closed && run[j].dst == Written(events, j)
    decreases j
  {
    NothingIsLost(buffered, run, events, j);
    assert StepAt(buffered, run, events, j - 1);
    if j > i + 1 { NothingStaysBehind(buffered, run, events, i, j - 1); }
    assert run[j].buf == "";
    assert run[j].dst + "" == run[j].dst;
  }
}
