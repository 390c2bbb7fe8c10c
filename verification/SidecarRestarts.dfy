/** What the stats channel counts of a sidecar that restarts: the growth of each
    of its lives, but for what it counted between a read and a restart. */
module SidecarRestarts {
  import opened StatsReporter

  // ---- the counts of the events ----

  function Added(e: Event, u: nat, k: Counter): nat { if e.Counts? && e.uid == u && e.k == k then e.n else 0 }

  predicate Reads(e: Event, u: nat) { e.Passes? && u in e.uids }

  /** All that pod `u` counted in the first `i` events. */
  function Counted(events: seq<Event>, i: nat, u: nat, k: Counter): nat
    requires i <= |events|
  {
    if i == 0 then 0 else Counted(events, i - 1, u, k) + Added(events[i - 1], u, k)
  }

  /** What it counted since it last restarted. */
  function SinceRestart(events: seq<Event>, i: nat, u: nat, k: Counter): nat
    requires i <= |events|
  {
    if i == 0 || events[i - 1] == Restarts(u) then 0 else SinceRestart(events, i - 1, u, k) + Added(events[i - 1], u, k)
  }

  /** One event: what a sidecar shows and what it counted. */
  lemma StepShows(s: System, e: Event, s': System, u: nat, k: Counter)
    requires Happens(s, e, s')
    ensures |s.world| <= |s'.world|
    ensures u < |s.world| ==>
      && Get(s'.world[u].shown, k) == (if e == Restarts(u) then 0 else Get(s.world[u].shown, k) + Added(e, u, k))
      && Get(s'.world[u].totals, k) == Get(s.world[u].totals, k) + Added(e, u, k)
    ensures |s.world| <= u ==> Added(e, u, k) == 0
    ensures |s.world| <= u < |s'.world| ==> Get(s'.world[u].shown, k) == Get(s'.world[u].totals, k) == 0
    ensures !e.Passes? ==> s'.held == s.held
  {
  }

  /** A sidecar shows what it counted since it last restarted. */
  lemma {:induction false} ShownIsSinceRestart(run: seq<System>, events: seq<Event>, i: nat, u: nat, k: Counter)
    requires Run(run, events) && i < |run|
    ensures u < |run[i].world| ==>
      && Get(run[i].world[u].shown, k) == SinceRestart(events, i, u, k)
      && Get(run[i].world[u].totals, k) == Counted(events, i, u, k)
    ensures |run[i].world| <= u ==> SinceRestart(events, i, u, k) == Counted(events, i, u, k) == 0
    decreases i
  {
    if i > 0 {
      ShownIsSinceRestart(run, events, i - 1, u, k);
      assert StepAt(run, events, i - 1);
      StepShows(run[i - 1], events[i - 1], run[i], u, k);
    }
  }

  /** A known pod that shows less than at its last read is credited with exactly what
      it counted since it last restarted. */
  lemma RestartIsCredited(run: seq<System>, events: seq<Event>, i: nat, u: nat, k: Counter)
    requires Run(run, events) && i < |events| && Reads(events[i], u) && u in run[i].held.pods
    requires u < |run[i].world| && Get(run[i].world[u].shown, k) < Get(run[i].held.pods[u], k)
    ensures Credit(run, events, i + 1, u, k) == Credit(run, events, i, u, k) + SinceRestart(events, i, u, k)
  {
    ShownIsSinceRestart(run, events, i, u, k);
  }

  /** Since the restart at event `r`, that is the growth of the sidecar's true count. */
  lemma {:induction false} SinceRestartIsCounted(run: seq<System>, events: seq<Event>, r: nat, i: nat, u: nat, k: Counter)
    requires Run(run, events) && r < i < |run| && events[r] == Restarts(u) && u < |run[r].world| && u < |run[i].world|
    requires forall n :: r < n < i ==> events[n] != Restarts(u)
    ensures SinceRestart(events, i, u, k) == Get(run[i].world[u].totals, k) - Get(run[r].world[u].totals, k)
  {
    CountedSince(events, r, i, u, k);
    ShownIsSinceRestart(run, events, r, u, k);
    ShownIsSinceRestart(run, events, i, u, k);
  }

  lemma {:induction false} CountedSince(events: seq<Event>, r: nat, i: nat, u: nat, k: Counter)
    requires r < i <= |events| && events[r] == Restarts(u) && forall n :: r < n < i ==> events[n] != Restarts(u)
    ensures SinceRestart(events, i, u, k) == Counted(events, i, u, k) - Counted(events, r, u, k)
    decreases i
  {
    if i > r + 1 { CountedSince(events, r, i - 1, u, k); }
  }

  // ---- the lives of a pod ----

  /** What is known of a pod since it was last read: whether it restarted, what it
      counted before the last restart, and what it counted since. */
  datatype Life = Life(restarted: bool, gone: nat, since: nat)

  function LifeAt(events: seq<Event>, i: nat, u: nat, k: Counter): Life
    requires i <= |events|
  {
    if i == 0 then Life(false, 0, 0)
    else
      var l, e := LifeAt(events, i - 1, u, k), events[i - 1];
      if Reads(e, u) then Life(false, 0, 0)
      else if e == Restarts(u) then Life(true, l.gone + l.since, 0)
      else l.(since := l.since + Added(e, u, k))
  }

  /** What a read does not see: the counts before the restart and, if the new life
      already shows as much as the old one did, as much again as it showed. */
  function Unseen(l: Life, last: nat): nat { l.gone + if l.restarted && l.since >= last then last else 0 }

  /** What the reads between event `f` and state `i` did not see. */
  ghost function Missed(run: seq<System>, events: seq<Event>, f: nat, i: nat, u: nat, k: Counter): nat
    requires f < i <= |events| && |run| == |events| + 1
    requires forall n :: f < n < i && Reads(events[n], u) ==> u in run[n].held.pods
  {
    if i == f + 1 then 0
    else
      Missed(run, events, f, i - 1, u, k)
      + if Reads(events[i - 1], u) then Unseen(LifeAt(events, i - 1, u, k), Get(run[i - 1].held.pods[u], k)) else 0
  }

  /** Event `f` is the first read of pod `u`, and every pass from then until state `i` reads it. */
  ghost predicate ReadSince(run: seq<System>, events: seq<Event>, f: nat, i: nat, u: nat) {
    && f < i <= |events| && |run| == |events| + 1
    && Reads(events[f], u) && u < |run[f].world|
    && (forall n :: 0 <= n <= f ==> u !in run[n].held.pods)
    && (forall n :: f < n < i && events[n].Passes? ==> u in events[n].uids)
  }

  lemma {:induction false} StaysKnown(run: seq<System>, events: seq<Event>, f: nat, i: nat, u: nat)
    requires Run(run, events) && ReadSince(run, events, f, i, u)
    ensures u in run[i].held.pods && u < |run[i].world|
    ensures forall n :: f < n < i ==> u in run[n].held.pods
    decreases i
  {
    assert StepAt(run, events, i - 1);
    if events[i - 1].Passes? { PassReads(run[i - 1], events[i - 1], run[i], u); }
    if i > f + 1 { StaysKnown(run, events, f, i - 1, u); }
  }

  /** What the pod shows: what it showed at its last read, unless it restarted, and
      what it counted since. */
  ghost predicate ShowsLife(s: System, l: Life, u: nat, k: Counter) {
    && u in s.held.pods && u < |s.world|
    && Get(s.world[u].shown, k) == (if l.restarted then 0 else Get(s.held.pods[u], k)) + l.since
    && (!l.restarted ==> l.gone == 0)
  }

  lemma {:induction false} LifeIsShown(run: seq<System>, events: seq<Event>, f: nat, i: nat, u: nat, k: Counter)
    requires Run(run, events) && ReadSince(run, events, f, i, u)
    ensures ShowsLife(run[i], LifeAt(events, i, u, k), u, k)
    decreases i
  {
    assert StepAt(run, events, i - 1);
    if i == f + 1 {
      ReadShows(run[f], events[f], run[i], LifeAt(events, i, u, k), u, k);
    } else {
      LifeIsShown(run, events, f, i - 1, u, k);
      LifeStep(run[i - 1], events[i - 1], run[i], LifeAt(events, i - 1, u, k), LifeAt(events, i, u, k), u, k);
    }
  }

  lemma ReadShows(s: System, e: Event, s': System, l': Life, u: nat, k: Counter)
    requires Happens(s, e, s') && Reads(e, u) && l' == Life(false, 0, 0)
    ensures ShowsLife(s', l', u, k)
  {
    PassReads(s, e, s', u);
  }

  lemma LifeStep(s: System, e: Event, s': System, l: Life, l': Life, u: nat, k: Counter)
    requires Happens(s, e, s') && ShowsLife(s, l, u, k) && (e.Passes? ==> u in e.uids)
    requires l' == if Reads(e, u) then Life(false, 0, 0) else if e == Restarts(u) then Life(true, l.gone + l.since, 0)
                   else l.(since := l.since + Added(e, u, k))
    ensures ShowsLife(s', l', u, k)
  {
    if e.Passes? {
      ReadShows(s, e, s', l', u, k);
    } else {
      StepShows(s, e, s', u, k);
    }
  }

  /** What one read takes and misses are together what was counted since the last. */
  lemma ReadSplits(s: System, e: Event, l: Life, u: nat, k: Counter)
    requires Reads(e, u) && ShowsLife(s, l, u, k)
    ensures Taken(s.held, s.world, e.uids, u, k) + Unseen(l, Get(s.held.pods[u], k)) == l.gone + l.since
  {
  }

  ghost predicate LivesAddUp(run: seq<System>, events: seq<Event>, f: nat, i: nat, u: nat, k: Counter)
    requires f < i <= |events| && |run| == |events| + 1
    requires forall n :: f < n < i && Reads(events[n], u) ==> u in run[n].held.pods
  {
    var l := LifeAt(events, i, u, k);
    Credit(run, events, i, u, k) + Missed(run, events, f, i, u, k) + l.gone + l.since == Counted(events, i, u, k) - Counted(events, f, u, k)
  }

  lemma {:induction false} LivesStep(run: seq<System>, events: seq<Event>, f: nat, i: nat, u: nat, k: Counter)
    requires f + 1 < i <= |events| && |run| == |events| + 1
    requires forall n :: f < n < i ==> u in run[n].held.pods
    requires LivesAddUp(run, events, f, i - 1, u, k) && ShowsLife(run[i - 1], LifeAt(events, i - 1, u, k), u, k)
    requires events[i - 1].Passes? ==> u in events[i - 1].uids
    ensures LivesAddUp(run, events, f, i, u, k)
  {
    if Reads(events[i - 1], u) { ReadSplits(run[i - 1], events[i - 1], LifeAt(events, i - 1, u, k), u, k); }
  }

  /** With any number of restarts: the credit of a pod that every pass reads, what its
      restarts hid and what it counted since its last read are together exactly what
      it counted since its first read. */
  lemma {:induction false} LivesAreCredited(run: seq<System>, events: seq<Event>, f: nat, i: nat, u: nat, k: Counter)
    requires Run(run, events) && ReadSince(run, events, f, i, u)
    ensures (forall n :: f < n < i ==> u in run[n].held.pods) && LivesAddUp(run, events, f, i, u, k)
    decreases i
  {
    StaysKnown(run, events, f, i, u);
    assert StepAt(run, events, i - 1);
    if i == f + 1 {
      NoCreditUnknown(run, events, f, u, k);
    } else {
      LivesAreCredited(run, events, f, i - 1, u, k);
      LifeIsShown(run, events, f, i - 1, u, k);
      LivesStep(run, events, f, i, u, k);
    }
  }

  // ---- a run that loses counts ----

  /** A sidecar is read, counts five lines, restarts, counts two and is read again. */
  function RestartEvents(): seq<Event> {
    [Starts, Passes([0], 0, 60, false, true), Counts(0, Lines, 5), Restarts(0), Counts(0, Lines, 2), Passes([0], 0, 60, false, true)]
  }

  function RestartRun(): seq<System> {
    var fresh_ := Held(map[0 := map[]], map[], 0);
    [System(Held(map[], map[], 0), [], []),
     System(Held(map[], map[], 0), [Sidecar(map[], map[])], []),
     System(fresh_, [Sidecar(map[], map[])], []),
     System(fresh_, [Sidecar(map[Lines := 5], map[Lines := 5])], []),
     System(fresh_, [Sidecar(map[], map[Lines := 5])], []),
     System(fresh_, [Sidecar(map[Lines := 2], map[Lines := 7])], []),
     System(Held(map[0 := map[Lines := 2]], map[Lines := 2], 0), [Sidecar(map[Lines := 2], map[Lines := 7])], [])]
  }

  lemma {:induction false} RestartRunIsRun()
    ensures Run(RestartRun(), RestartEvents())
  {
    var run, events := RestartRun(), RestartEvents();
    FirstHalf();
    SecondHalf();
    SixSteps(run, events);
  }

  lemma {:induction false} SixSteps(run: seq<System>, events: seq<Event>)
    requires |run| == 7 && |events| == 6 && run[0] == System(Held(map[], map[], 0), [], [])
    requires StepAt(run, events, 0) && StepAt(run, events, 1) && StepAt(run, events, 2)
    requires StepAt(run, events, 3) && StepAt(run, events, 4) && StepAt(run, events, 5)
    ensures Run(run, events)
  {
  }

  lemma {:induction false} FirstHalf()
    ensures StepAt(RestartRun(), RestartEvents(), 0) && StepAt(RestartRun(), RestartEvents(), 1) && StepAt(RestartRun(), RestartEvents(), 2)
  {
    var run := RestartRun();
    ReadOnlyPod(run[1].held, run[1].world);
    assert Bump(map[], Lines, 5) == map[Lines := 5];
  }

  lemma {:induction false} SecondHalf()
    ensures StepAt(RestartRun(), RestartEvents(), 3) && StepAt(RestartRun(), RestartEvents(), 4) && StepAt(RestartRun(), RestartEvents(), 5)
  {
    var run := RestartRun();
    assert Bump(map[], Lines, 2) == map[Lines := 2] && Bump(map[Lines := 5], Lines, 2) == map[Lines := 7];
    ReadOnlyPod(run[5].held, run[5].world);
    assert Grown(map[], map[], map[Lines := 2]) == map[Lines := 2];
  }

  /** Seven lines were counted since the first read, and two are credited. */
  lemma {:induction false} RestartExample()
    ensures Run(RestartRun(), RestartEvents())
    ensures Get(RestartRun()[6].world[0].totals, Lines) == 7
    ensures Sent(RestartRun()[6].reports, Lines) + Get(RestartRun()[6].held.acc, Lines) == 2
  {
    RestartRunIsRun();
  }
}
