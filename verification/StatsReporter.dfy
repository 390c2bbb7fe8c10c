/** The operator's stats channel: counters read from sidecars, their growth kept
    until it is reported, and the accounting over every run of increments,
    restarts, missed reads and failed posts.

    A sample maps a counter to its value; a counter missing from it is 0. */
module StatsReporter {
  import opened Common

  datatype Counter = Lines | Errors | Redaction(kind: string) | Finding(kind: string)

  type Sample = map<Counter, nat>

  function Get(s: Sample, k: Counter): nat { if k in s then s[k] else 0 }

  /** How much a counter grew: the difference, or the whole value after a restart reset it. */
  function Grow(prev: nat, cur: nat): nat { if cur >= prev then cur - prev else cur }

  const SECOND := 1_000_000_000
  const MIN_INTERVAL := 60 * SECOND
  const DEFAULT_INTERVAL := 300 * SECOND

  /** How long a window is kept open for a policy's intervalSeconds. */
  function Interval(seconds: int): (r: int)
    ensures r >= MIN_INTERVAL
  {
    if seconds <= 0 then DEFAULT_INTERVAL
    else if seconds * SECOND < MIN_INTERVAL then MIN_INTERVAL
    else seconds * SECOND
  }

  /** What one policy's reporter holds: the last sample of each pod, the growth
      not yet reported and the start of its window. */
  datatype Held = Held(pods: map<nat, Sample>, acc: Sample, from: int)

  datatype Report = Report(from: int, to: int, counts: Sample)

  /** The growth of one pod added to the totals. */
  function Grown(acc: Sample, prev: Sample, s: Sample): Sample {
    map k | k in acc.Keys + s.Keys :: Get(acc, k) + if k in s then Grow(Get(prev, k), s[k]) else 0
  }

  /** A pod's first read only sets its starting point. */
  function ReadOne(h: Held, uid: nat, s: Sample): Held {
    Held(h.pods[uid := s], if uid in h.pods then Grown(h.acc, h.pods[uid], s) else h.acc, h.from)
  }

  function ReadAll(h: Held, got: seq<(nat, Sample)>): Held {
    if got == [] then h
    else ReadOne(ReadAll(h, got[..|got| - 1]), got[|got| - 1].0, got[|got| - 1].1)
  }

  ghost function Alive(got: seq<(nat, Sample)>): set<nat> { set i | 0 <= i < |got| :: got[i].0 }

  ghost function Prune(h: Held, alive: set<nat>): Held {
    h.(pods := map uid | uid in h.pods && uid in alive :: h.pods[uid])
  }

  /** The counts a report carries: findings are sent in audit mode only. */
  function Reported(acc: Sample, audit: bool): Sample {
    if audit then acc else map k | k in acc && !k.Finding? :: acc[k]
  }

  /** A pass over the pods that could be read. `sent` is whether a post succeeds. */
  ghost function AfterPass(h: Held, got: seq<(nat, Sample)>, now: int, seconds: int, audit: bool, sent: bool): (Held, Option<Report>) {
    var read := Prune(ReadAll(h, got), Alive(got));
    if now - read.from >= Interval(seconds) && sent then
      (read.(acc := map[], from := now), Some(Report(read.from, now, Reported(read.acc, audit))))
    else (read, None)
  }

  class PolicyState {
    var pods: map<nat, Sample>
    var acc: Sample
    var windowStart: int

    ghost function Value(): Held
      reads this
    {
      Held(pods, acc, windowStart)
    }

    constructor (now: int)
      ensures Value() == Held(map[], map[], now)
    {
      pods, acc, windowStart := map[], map[], now;
    }

    /** One counter map of a sample added to the totals. */
    method AddGrowth(prev: Sample, s: Sample)
      modifies this`acc
      ensures acc == Grown(old(acc), prev, s)
    {
      var before := acc;
      var left := s.Keys;
      while exists k :: k in left
        invariant left <= s.Keys
        invariant acc.Keys == before.Keys + (s.Keys - left)
        invariant forall k :: k in acc ==> acc[k] == Get(before, k) + if k in s && k !in left then Grow(Get(prev, k), s[k]) else 0
        decreases left
      {
        var k :| k in left;
        acc := acc[k := Get(acc, k) + Grow(Get(prev, k), s[k])];
        left := left - {k};
      }
      assert left == {};
    }

    /** The reads of a pass, pod by pod; a pod that could not be read is not in the list. */
    method ReadPods(got: seq<(nat, Sample)>)
      modifies this`pods, this`acc
      ensures Value() == Prune(ReadAll(old(Value()), got), Alive(got))
    {
      var alive: set<nat> := {};
      for i := 0 to |got|
        invariant alive == Alive(got[..i])
        invariant Value() == ReadAll(old(Value()), got[..i])
      {
        var (uid, s) := got[i];
        assert got[..i + 1][..i] == got[..i];
        AliveStep(got, i);
        alive := alive + {uid};
        if uid in pods {
          var prev := pods[uid];
          pods := pods[uid := s];
          AddGrowth(prev, s);
        } else {
          pods := pods[uid := s];
        }
      }
      assert got[..|got|] == got;
      pods := map uid | uid in pods && uid in alive :: pods[uid];
    }

    /** passPolicy: `got` is None when the pods could not be listed. */
    method Pass(got: Option<seq<(nat, Sample)>>, now: int, seconds: int, audit: bool, sent: bool) returns (report: Option<Report>)
      modifies this
      ensures got.None? ==> Value() == old(Value()) && report == None
      ensures got.Some? ==> (Value(), report) == AfterPass(old(Value()), got.value, now, seconds, audit, sent)
    {
      report := None;
      if got.None? {
        return;
      }
      ReadPods(got.value);
      if now - windowStart >= Interval(seconds) && sent {
        report := Some(Report(windowStart, now, Reported(acc, audit)));
        acc, windowStart := map[], now;
      }
    }
  }

  lemma AliveStep(got: seq<(nat, Sample)>, i: int)
    requires 0 <= i < |got|
    ensures Alive(got[..i + 1]) == Alive(got[..i]) + {got[i].0}
  {
    var a := got[..i + 1];
    assert a[i] == got[i];
    forall u | u in Alive(got[..i]) ensures u in Alive(a) {
      var j :| 0 <= j < i && got[..i][j].0 == u;
      assert a[j].0 == u;
    }
  }

  // ---- the sidecars ----

  /** A sidecar shows counts since it last started; `totals` is what it really counted. */
  datatype Sidecar = Sidecar(shown: Sample, totals: Sample)

  function Bump(s: Sample, k: Counter, n: nat): Sample { s[k := Get(s, k) + n] }

  datatype Event =
    | Starts
    | Counts(uid: nat, k: Counter, n: nat)
    | Restarts(uid: nat)
    | Passes(uids: seq<nat>, now: int, seconds: int, audit: bool, sent: bool)
    | ListFails

  datatype System = System(held: Held, world: seq<Sidecar>, reports: seq<Report>)

  function Scrape(world: seq<Sidecar>, uids: seq<nat>): seq<(nat, Sample)>
    requires forall i :: 0 <= i < |uids| ==> uids[i] < |world|
  {
    seq(|uids|, i requires 0 <= i < |uids| => (uids[i], world[uids[i]].shown))
  }

  /** One event of the cluster or of the reporter. */
  ghost predicate Happens(s: System, e: Event, s': System) {
    match e
    case Starts => s' == s.(world := s.world + [Sidecar(map[], map[])])
    case Counts(uid, k, n) =>
      && uid < |s.world|
      && var c := s.world[uid];
         s' == s.(world := s.world[uid := Sidecar(Bump(c.shown, k, n), Bump(c.totals, k, n))])
    case Restarts(uid) => uid < |s.world| && s' == s.(world := s.world[uid := s.world[uid].(shown := map[])])
    case ListFails => s' == s
    case Passes(uids, now, seconds, audit, sent) =>
      && (forall i :: 0 <= i < |uids| ==> uids[i] < |s.world|)
      && var (held, report) := AfterPass(s.held, Scrape(s.world, uids), now, seconds, audit, sent);
         s' == System(held, s.world, if report.Some? then s.reports + [report.value] else s.reports)
  }

  ghost predicate Run(run: seq<System>, events: seq<Event>) {
    && |run| == |events| + 1
    && run[0].held.pods == map[] && run[0].held.acc == map[] && run[0].world == [] && run[0].reports == []
    && forall i :: 0 <= i < |events| ==> StepAt(run, events, i)
  }

  ghost predicate StepAt(run: seq<System>, events: seq<Event>, i: int) {
    0 <= i < |events| && i + 1 < |run| && Happens(run[i], events[i], run[i + 1])
  }

  // ---- what one pass takes ----

  function Sum(xs: seq<nat>): nat { if xs == [] then 0 else Sum(xs[..|xs| - 1]) + xs[|xs| - 1] }

  lemma {:induction false} SumUpdate(xs: seq<nat>, i: nat, x: nat)
    requires i < |xs|
    ensures Sum(xs[i := x]) == Sum(xs) - xs[i] + x
    decreases |xs|
  {
    var n := |xs| - 1;
    if i < n {
      assert xs[i := x][..n] == xs[..n][i := x];
      SumUpdate(xs[..n], i, x);
    } else {
      assert xs[i := x][..n] == xs[..n];
    }
  }

  lemma {:induction false} SumMonotone(xs: seq<nat>, ys: seq<nat>)
    requires |xs| == |ys| && forall i :: 0 <= i < |xs| ==> xs[i] <= ys[i]
    ensures Sum(xs) <= Sum(ys)
    decreases |xs|
  {
    if xs != [] { SumMonotone(xs[..|xs| - 1], ys[..|ys| - 1]); }
  }

  lemma {:induction false} SumAdds(xs: seq<nat>, ys: seq<nat>, zs: seq<nat>)
    requires |xs| == |ys| == |zs| && forall i :: 0 <= i < |xs| ==> zs[i] == xs[i] + ys[i]
    ensures Sum(zs) == Sum(xs) + Sum(ys)
    decreases |xs|
  {
    if xs != [] { SumAdds(xs[..|xs| - 1], ys[..|ys| - 1], zs[..|zs| - 1]); }
  }

  lemma {:induction false} SumOfZeros(xs: seq<nat>)
    requires forall i :: 0 <= i < |xs| ==> xs[i] == 0
    ensures Sum(xs) == 0
    decreases |xs|
  {
    if xs != [] { SumOfZeros(xs[..|xs| - 1]); }
  }

  /** The growth of pod `u` seen by reading `uids`: from its last read to what it shows. */
  ghost function Taken(h: Held, world: seq<Sidecar>, uids: seq<nat>, u: nat, k: Counter): nat {
    if u in h.pods && u in uids && u < |world| then Grow(Get(h.pods[u], k), Get(world[u].shown, k)) else 0
  }

  ghost function AllTaken(h: Held, world: seq<Sidecar>, uids: seq<nat>, k: Counter): (r: seq<nat>)
    ensures |r| == |world|
  {
    seq(|world|, u requires 0 <= u < |world| => Taken(h, world, uids, u, k))
  }

  lemma GrownAt(acc: Sample, prev: Sample, s: Sample, k: Counter)
    ensures Get(Grown(acc, prev, s), k) == Get(acc, k) + Grow(Get(prev, k), Get(s, k))
  {
  }

  /** The last samples after reading `uids`. */
  lemma {:induction false} ReadAllPods(h: Held, world: seq<Sidecar>, uids: seq<nat>, u: nat)
    requires forall i :: 0 <= i < |uids| ==> uids[i] < |world|
    ensures var h' := ReadAll(h, Scrape(world, uids));
      && h'.from == h.from
      && (u in h'.pods <==> u in h.pods || u in uids)
      && (u in uids ==> u < |world| && h'.pods[u] == world[u].shown)
      && (u in h.pods && u !in uids ==> h'.pods[u] == h.pods[u])
    decreases |uids|
  {
    if uids != [] {
      var n := |uids| - 1;
      assert Scrape(world, uids)[..n] == Scrape(world, uids[..n]);
      assert uids == uids[..n] + [uids[n]];
      ReadAllPods(h, world, uids[..n], u);
    }
  }

  /** One more read: a pod already read in this pass, or not known before it, adds nothing. */
  lemma TakenStep(h: Held, world: seq<Sidecar>, uids: seq<nat>, uid: nat, k: Counter)
    requires uid < |world|
    ensures var x := if uid in uids then 0 else Taken(h, world, [uid], uid, k);
      Sum(AllTaken(h, world, uids + [uid], k)) == Sum(AllTaken(h, world, uids, k)) + x
  {
    var xs, ys := AllTaken(h, world, uids, k), AllTaken(h, world, uids + [uid], k);
    assert ys == xs[uid := Taken(h, world, uids + [uid], uid, k)];
    SumUpdate(xs, uid, Taken(h, world, uids + [uid], uid, k));
  }

  /** Reading adds to the totals exactly the growth of the pods read, each once. */
  lemma {:induction false} ReadAllTakes(h: Held, world: seq<Sidecar>, uids: seq<nat>, k: Counter)
    requires forall i :: 0 <= i < |uids| ==> uids[i] < |world|
    ensures Get(ReadAll(h, Scrape(world, uids)).acc, k) == Get(h.acc, k) + Sum(AllTaken(h, world, uids, k))
    decreases |uids|
  {
    if uids == [] {
      SumOfZeros(AllTaken(h, world, uids, k));
    } else {
      var n := |uids| - 1;
      var before, uid := uids[..n], uids[n];
      assert Scrape(world, uids)[..n] == Scrape(world, before);
      assert uids == before + [uid];
      ReadAllTakes(h, world, before, k);
      ReadAllPods(h, world, before, uid);
      TakenStep(h, world, before, uid, k);
      var read := ReadAll(h, Scrape(world, before));
      if uid in read.pods { GrownAt(read.acc, read.pods[uid], world[uid].shown, k); }
    }
  }

  /** The counts a pass has before it sends. */
  ghost function Ready(s: System, e: Event, k: Counter): nat
    requires e.Passes? && forall i :: 0 <= i < |e.uids| ==> e.uids[i] < |s.world|
  {
    Get(ReadAll(s.held, Scrape(s.world, e.uids)).acc, k)
  }

  /** A pass knows exactly the pods it read, as they showed themselves. */
  lemma PassReads(s: System, e: Event, s': System, u: nat)
    requires e.Passes? && Happens(s, e, s')
    ensures s'.world == s.world
    ensures u in s'.held.pods <==> u in e.uids
    ensures u in e.uids ==> u < |s.world| && s'.held.pods[u] == s.world[u].shown
  {
    var got := Scrape(s.world, e.uids);
    ReadAllPods(s.held, s.world, e.uids, u);
    if u in e.uids {
      var i :| 0 <= i < |e.uids| && e.uids[i] == u;
      assert got[i].0 == u;
    }
  }

  function Sent(reports: seq<Report>, k: Counter): nat {
    if reports == [] then 0 else Sent(reports[..|reports| - 1], k) + Get(reports[|reports| - 1].counts, k)
  }

  /** A pass sends a report whose mode leaves `k` out. */
  ghost predicate LeavesOut(s: System, e: Event, k: Counter) {
    k.Finding? && e.Passes? && !e.audit && e.sent && e.now - s.held.from >= Interval(e.seconds)
  }

  /** A pass sends a report exactly if the post succeeds and the window is as old as
      the policy asks, five minutes if it does not say, and a minute at least. */
  lemma ReportIsDue(s: System, e: Event, s': System)
    requires e.Passes? && Happens(s, e, s')
    ensures
      var age := e.now - s.held.from;
      var due := age >= 60 * SECOND && age >= (if e.seconds <= 0 then 300 else e.seconds) * SECOND;
      && s'.held.from == (if due && e.sent then e.now else s.held.from)
      && if due && e.sent then
           |s'.reports| == |s.reports| + 1 && s.reports <= s'.reports
           && s'.reports[|s.reports|].from == s.held.from && s'.reports[|s.reports|].to == e.now
         else s'.reports == s.reports
  {
    ReadAllPods(s.held, s.world, e.uids, 0);
  }

  /** What a pass drops: a sent report resets the findings it did not carry. */
  ghost function Dropped(s: System, e: Event, k: Counter): nat
    requires e.Passes? ==> forall i :: 0 <= i < |e.uids| ==> e.uids[i] < |s.world|
  {
    if LeavesOut(s, e, k) then Ready(s, e, k) else 0
  }

  /** Sending moves counts from held to sent; only what it drops is gone. */
  lemma PassSends(s: System, e: Event, s': System, k: Counter)
    requires e.Passes? && Happens(s, e, s')
    ensures Sent(s'.reports, k) + Get(s'.held.acc, k) + Dropped(s, e, k) == Sent(s.reports, k) + Ready(s, e, k)
  {
    ReadAllPods(s.held, s.world, e.uids, 0);
    if |s'.reports| > |s.reports| { assert s'.reports[..|s'.reports| - 1] == s.reports; }
  }

  // ---- the accounts of a run ----

  /** The growth taken from pod `u` in the first `i` events. */
  ghost function Credit(run: seq<System>, events: seq<Event>, i: nat, u: nat, k: Counter): nat
    requires i <= |events| <= |run|
  {
    if i == 0 then 0
    else Credit(run, events, i - 1, u, k)
         + if events[i - 1].Passes? then Taken(run[i - 1].held, run[i - 1].world, events[i - 1].uids, u, k) else 0
  }

  ghost function Credits(run: seq<System>, events: seq<Event>, i: nat, k: Counter): (r: seq<nat>)
    requires i <= |events| && |run| == |events| + 1
    ensures |r| == |run[i].world|
  {
    seq(|run[i].world|, u requires 0 <= u < |run[i].world| => Credit(run, events, i, u, k))
  }

  /** The findings dropped in the first `i` events. */
  ghost function Lost(run: seq<System>, events: seq<Event>, i: nat, k: Counter): nat
    requires Run(run, events) && i < |run|
  {
    if i == 0 then 0
    else
      assert StepAt(run, events, i - 1);
      Lost(run, events, i - 1, k) + Dropped(run[i - 1], events[i - 1], k)
  }

  /** A pod that does not exist yet has no credit. */
  lemma {:induction false} NoCreditYet(run: seq<System>, events: seq<Event>, i: nat, u: nat, k: Counter)
    requires Run(run, events) && i < |run| && |run[i].world| <= u
    ensures Credit(run, events, i, u, k) == 0
    decreases i
  {
    if i > 0 {
      assert StepAt(run, events, i - 1);
      NoCreditYet(run, events, i - 1, u, k);
    }
  }

  /** Whether the counts sent, held and dropped are the credits. */
  ghost predicate Balanced(run: seq<System>, events: seq<Event>, i: nat, k: Counter)
    requires Run(run, events) && i < |run|
  {
    Sum(Credits(run, events, i, k)) == Sent(run[i].reports, k) + Get(run[i].held.acc, k) + Lost(run, events, i, k)
  }

  lemma PassBalances(run: seq<System>, events: seq<Event>, i: nat, k: Counter)
    requires Run(run, events) && 0 < i < |run| && events[i - 1].Passes? && Balanced(run, events, i - 1, k)
    ensures Balanced(run, events, i, k)
  {
    var s, e, s' := run[i - 1], events[i - 1], run[i];
    assert StepAt(run, events, i - 1);
    var xs, ys, zs := Credits(run, events, i - 1, k), AllTaken(s.held, s.world, e.uids, k), Credits(run, events, i, k);
    SumAdds(xs, ys, zs);
    ReadAllTakes(s.held, s.world, e.uids, k);
    PassSends(s, e, s', k);
  }

  lemma OtherBalances(run: seq<System>, events: seq<Event>, i: nat, k: Counter)
    requires Run(run, events) && 0 < i < |run| && !events[i - 1].Passes? && Balanced(run, events, i - 1, k)
    ensures Balanced(run, events, i, k)
  {
    var xs, zs := Credits(run, events, i - 1, k), Credits(run, events, i, k);
    assert StepAt(run, events, i - 1);
    if events[i - 1].Starts? {
      NoCreditYet(run, events, i - 1, |xs|, k);
      assert zs == xs + [0];
      assert zs[..|xs|] == xs;
    } else {
      assert zs == xs;
    }
  }

  /** Over every run nothing is made up and nothing disappears but the dropped
      findings: the credits of all pods are sent, held or dropped. */
  lemma {:induction false} RunBalances(run: seq<System>, events: seq<Event>, i: nat, k: Counter)
    requires Run(run, events) && i < |run|
    ensures Balanced(run, events, i, k)
    decreases i
  {
    if i > 0 {
      RunBalances(run, events, i - 1, k);
      if events[i - 1].Passes? {
        PassBalances(run, events, i, k);
      } else {
        OtherBalances(run, events, i, k);
      }
    }
  }

  /** Nothing is dropped exactly when no sent report left out a count it had. */
  lemma {:induction false} NothingLost(run: seq<System>, events: seq<Event>, i: nat, k: Counter)
    requires Run(run, events) && i < |run|
    ensures Lost(run, events, i, k) == 0 <==> forall j :: 0 <= j < i ==> KeepsFindings(run, events, j, k)
    decreases i
  {
    if i > 0 {
      NothingLost(run, events, i - 1, k);
      assert StepAt(run, events, i - 1);
      assert KeepsFindings(run, events, i - 1, k) <==> Dropped(run[i - 1], events[i - 1], k) == 0;
    }
  }

  ghost predicate KeepsFindings(run: seq<System>, events: seq<Event>, j: int, k: Counter) {
    StepAt(run, events, j) && (LeavesOut(run[j], events[j], k) ==> Ready(run[j], events[j], k) == 0)
  }

  // ---- a run that drops a finding ----

  lemma ReadOnlyPod(h: Held, world: seq<Sidecar>)
    requires |world| == 1 && h.pods.Keys <= {0}
    ensures var got := Scrape(world, [0]);
      && ReadAll(h, got) == ReadOne(h, 0, world[0].shown)
      && Prune(ReadAll(h, got), Alive(got)) == ReadOne(h, 0, world[0].shown)
  {
    var got := Scrape(world, [0]);
    assert got == [(0, world[0].shown)] && got[..0] == [];
    assert ReadAll(h, got[..0]) == h;
    assert got[0].0 == 0;
    assert 0 in Alive(got);
    var read := ReadOne(h, 0, world[0].shown);
    assert Prune(read, Alive(got)).pods == read.pods;
  }

  const EMAIL := Finding("EMAIL")

  /** A sidecar starts, is read, and finds an email; the policy goes back to redact
      mode and a minute's report is sent. */
  function LossEvents(): seq<Event> {
    [Starts, Passes([0], 0, 60, true, true), Counts(0, EMAIL, 1), Passes([0], MIN_INTERVAL, 60, false, true)]
  }

  function LossRun(): seq<System> {
    var idle, busy := [Sidecar(map[], map[])], [Sidecar(map[EMAIL := 1], map[EMAIL := 1])];
    [System(Held(map[], map[], 0), [], []),
     System(Held(map[], map[], 0), idle, []),
     System(Held(map[0 := map[]], map[], 0), idle, []),
     System(Held(map[0 := map[]], map[], 0), busy, []),
     System(Held(map[0 := map[EMAIL := 1]], map[], MIN_INTERVAL), busy, [Report(0, MIN_INTERVAL, map[])])]
  }

  lemma LossRunIsRun()
    ensures Run(LossRun(), LossEvents())
  {
    var run, events := LossRun(), LossEvents();
    ReadOnlyPod(run[1].held, run[1].world);
    ReadOnlyPod(run[3].held, run[3].world);
    assert StepAt(run, events, 0);
    assert StepAt(run, events, 1);
    assert StepAt(run, events, 2);
    assert Reported(map[EMAIL := 1], false) == map[];
    assert Grown(map[], map[], map[EMAIL := 1]) == map[EMAIL := 1];
    assert StepAt(run, events, 3);
  }

  /** The finding was counted and read, and is neither sent nor held. */
  lemma FindingsLostExample()
    ensures Run(LossRun(), LossEvents())
    ensures Sum(Totals(LossRun()[4].world, EMAIL)) == 1 && Lost(LossRun(), LossEvents(), 4, EMAIL) == 1
    ensures Sent(LossRun()[4].reports, EMAIL) + Get(LossRun()[4].held.acc, EMAIL) == 0
  {
    LossRunIsRun();
    var run, events := LossRun(), LossEvents();
    RunBalances(run, events, 4, EMAIL);
    LossCredit();
    var world, reports := run[4].world, run[4].reports;
    assert Totals(world, EMAIL) == [1] && [1][..0] == [];
    assert Credits(run, events, 4, EMAIL) == [1];
    assert Sent(reports[..0], EMAIL) == 0;
  }

  lemma LossCredit()
    ensures Credit(LossRun(), LossEvents(), 4, 0, EMAIL) == 1
  {
    var run, events := LossRun(), LossEvents();
    assert Credit(run, events, 1, 0, EMAIL) == 0;
    assert Credit(run, events, 2, 0, EMAIL) == 0;
    assert Credit(run, events, 3, 0, EMAIL) == 0;
  }

  // ---- one pod ----

  /** Since `old`, a sidecar has only counted, or it restarted and shows no more than it counted since. */
  ghost predicate Evolved(old_: Sidecar, now: Sidecar, k: Counter) {
    var v0, t0, v1, t1 := Get(old_.shown, k), Get(old_.totals, k), Get(now.shown, k), Get(now.totals, k);
    t0 <= t1 && ((v0 <= v1 && v1 - v0 == t1 - t0) || v1 <= t1 - t0)
  }

  lemma GrowthIsCounted(old_: Sidecar, now: Sidecar, k: Counter)
    requires Evolved(old_, now, k)
    ensures Grow(Get(old_.shown, k), Get(now.shown, k)) <= Get(now.totals, k) - Get(old_.totals, k)
  {
  }

  /** Counting and restarting keep what a past read knew. */
  lemma EvolvesOn(old_: Sidecar, now: Sidecar, k: Counter, j: Counter, n: nat)
    requires Evolved(old_, now, k)
    ensures Evolved(old_, Sidecar(Bump(now.shown, j, n), Bump(now.totals, j, n)), k)
    ensures Evolved(old_, now.(shown := map[]), k)
    ensures Get(now.totals, k) <= Get(Bump(now.totals, j, n), k)
  {
  }

  /** The sidecar of pod `u` as it was when it was last read. */
  ghost function LastSeen(run: seq<System>, events: seq<Event>, i: nat, u: nat): Sidecar
    requires i <= |events| <= |run|
  {
    if i == 0 then Sidecar(map[], map[])
    else if events[i - 1].Passes? && u in events[i - 1].uids && u < |run[i - 1].world| then run[i - 1].world[u]
    else LastSeen(run, events, i - 1, u)
  }

  /** The credit of a pod is covered by what it had counted when it was last read. */
  ghost predicate Covered(run: seq<System>, events: seq<Event>, i: nat, u: nat, k: Counter)
    requires i <= |events| && |run| == |events| + 1
  {
    var s, seen, c := run[i], LastSeen(run, events, i, u), Credit(run, events, i, u, k);
    && (u in s.held.pods ==>
          u < |s.world| && s.held.pods[u] == seen.shown && Evolved(seen, s.world[u], k) && c <= Get(seen.totals, k))
    && (u < |s.world| ==> c <= Get(s.world[u].totals, k))
  }

  lemma PassCovers(run: seq<System>, events: seq<Event>, i: nat, u: nat, k: Counter)
    requires Run(run, events) && 0 < i < |run| && events[i - 1].Passes? && Covered(run, events, i - 1, u, k)
    ensures Covered(run, events, i, u, k)
  {
    var s, e, s' := run[i - 1], events[i - 1], run[i];
    assert StepAt(run, events, i - 1);
    PassReads(s, e, s', u);
    if u in s.held.pods { GrowthIsCounted(LastSeen(run, events, i - 1, u), s.world[u], k); }
  }

  lemma OtherCovers(run: seq<System>, events: seq<Event>, i: nat, u: nat, k: Counter)
    requires Run(run, events) && 0 < i < |run| && !events[i - 1].Passes? && Covered(run, events, i - 1, u, k)
    ensures Covered(run, events, i, u, k)
  {
    var s, e := run[i - 1], events[i - 1];
    assert StepAt(run, events, i - 1);
    NoCreditYetAt(run, events, i - 1, u, k);
    if u in s.held.pods {
      EvolvesOn(LastSeen(run, events, i - 1, u), s.world[u], k, if e.Counts? then e.k else Lines, if e.Counts? then e.n else 0);
    }
  }

  lemma NoCreditYetAt(run: seq<System>, events: seq<Event>, i: nat, u: nat, k: Counter)
    requires Run(run, events) && i < |run|
    ensures |run[i].world| <= u ==> Credit(run, events, i, u, k) == 0
  {
    if |run[i].world| <= u { NoCreditYet(run, events, i, u, k); }
  }

  /** Over every run, no pod is credited with more than it really counted. */
  lemma {:induction false} CreditIsCounted(run: seq<System>, events: seq<Event>, i: nat, u: nat, k: Counter)
    requires Run(run, events) && i < |run|
    ensures Covered(run, events, i, u, k)
    decreases i
  {
    if i > 0 {
      CreditIsCounted(run, events, i - 1, u, k);
      if events[i - 1].Passes? {
        PassCovers(run, events, i, u, k);
      } else {
        OtherCovers(run, events, i, u, k);
      }
    }
  }

  function Totals(world: seq<Sidecar>, k: Counter): (r: seq<nat>)
    ensures |r| == |world|
  {
    seq(|world|, i requires 0 <= i < |world| => Get(world[i].totals, k))
  }

  /** What was sent and what is held never exceed what the sidecars really counted. */
  lemma NeverOvercounts(run: seq<System>, events: seq<Event>, i: nat, k: Counter)
    requires Run(run, events) && i < |run|
    ensures Sent(run[i].reports, k) + Get(run[i].held.acc, k) <= Sum(Totals(run[i].world, k))
  {
    RunBalances(run, events, i, k);
    forall u: nat | u < |run[i].world| ensures Credits(run, events, i, k)[u] <= Totals(run[i].world, k)[u] {
      CreditIsCounted(run, events, i, u, k);
    }
    SumMonotone(Credits(run, events, i, k), Totals(run[i].world, k));
  }

  // ---- exactness of a pod that is read in every pass ----

  /** The event does not restart pod `u`, and reads it if it is a pass. */
  ghost predicate Watches(e: Event, u: nat) { e != Restarts(u) && (e.Passes? ==> u in e.uids) }

  /** Event `f` is the first read of pod `u`, which is watched from then until state `i`. */
  ghost predicate WatchedSince(run: seq<System>, events: seq<Event>, f: nat, i: nat, u: nat) {
    && f < i <= |events| && |run| == |events| + 1
    && events[f].Passes? && u in events[f].uids && u < |run[f].world|
    && (forall n :: 0 <= n <= f ==> u !in run[n].held.pods)
    && (forall n :: f < n < i ==> Watches(events[n], u))
  }

  lemma {:induction false} NoCreditUnknown(run: seq<System>, events: seq<Event>, i: nat, u: nat, k: Counter)
    requires |run| == |events| + 1 && i <= |events| && forall n :: 0 <= n < i ==> u !in run[n].held.pods
    ensures Credit(run, events, i, u, k) == 0
    decreases i
  {
    if i > 0 { NoCreditUnknown(run, events, i - 1, u, k); }
  }

  /** A watched pod shows `d` more than at its first read, and has counted `d` since. */
  ghost predicate InStep(first: Sidecar, now: Sidecar, last: Sample, k: Counter) {
    && Get(first.shown, k) <= Get(last, k) <= Get(now.shown, k)
    && Get(now.shown, k) - Get(first.shown, k) == Get(now.totals, k) - Get(first.totals, k)
  }

  ghost predicate PodIsExact(run: seq<System>, events: seq<Event>, f: nat, i: nat, u: nat, k: Counter)
    requires WatchedSince(run, events, f, i, u)
  {
    var s, first := run[i], run[f].world[u];
    && u in s.held.pods && u < |s.world|
    && InStep(first, s.world[u], s.held.pods[u], k)
    && Credit(run, events, i, u, k) == Get(s.held.pods[u], k) - Get(first.shown, k)
    && Get(LastSeen(run, events, i, u).totals, k) - Get(first.totals, k) == Get(s.held.pods[u], k) - Get(first.shown, k)
  }

  lemma FirstReadIsExact(run: seq<System>, events: seq<Event>, f: nat, u: nat, k: Counter)
    requires Run(run, events) && WatchedSince(run, events, f, f + 1, u)
    ensures PodIsExact(run, events, f, f + 1, u, k)
  {
    assert StepAt(run, events, f);
    NoCreditUnknown(run, events, f, u, k);
    PassReads(run[f], events[f], run[f + 1], u);
  }

  lemma PassIsExact(run: seq<System>, events: seq<Event>, f: nat, i: nat, u: nat, k: Counter)
    requires Run(run, events) && 0 < i && WatchedSince(run, events, f, i - 1, u) && WatchedSince(run, events, f, i, u)
    requires events[i - 1].Passes? && PodIsExact(run, events, f, i - 1, u, k)
    ensures PodIsExact(run, events, f, i, u, k)
  {
    assert StepAt(run, events, i - 1);
    assert Watches(events[i - 1], u);
    PassReads(run[i - 1], events[i - 1], run[i], u);
  }

  /** Counting adds to what is shown and to the totals alike. */
  lemma StaysInStep(first: Sidecar, now: Sidecar, last: Sample, k: Counter, j: Counter, n: nat)
    requires InStep(first, now, last, k)
    ensures InStep(first, Sidecar(Bump(now.shown, j, n), Bump(now.totals, j, n)), last, k)
  {
  }

  lemma OtherIsExact(run: seq<System>, events: seq<Event>, f: nat, i: nat, u: nat, k: Counter)
    requires Run(run, events) && 0 < i && WatchedSince(run, events, f, i - 1, u) && WatchedSince(run, events, f, i, u)
    requires !events[i - 1].Passes? && PodIsExact(run, events, f, i - 1, u, k)
    ensures PodIsExact(run, events, f, i, u, k)
  {
    var s, e := run[i - 1], events[i - 1];
    assert StepAt(run, events, i - 1);
    assert Watches(e, u);
    if e.Counts? { StaysInStep(run[f].world[u], s.world[u], s.held.pods[u], k, e.k, e.n); }
  }

  /** Whatever happens to the other pods: the credit of a pod read in every pass
      without a restart is its last read minus its first, which is what it counted
      between the two. */
  lemma {:induction false} WatchedPodIsExact(run: seq<System>, events: seq<Event>, f: nat, i: nat, u: nat, k: Counter)
    requires Run(run, events) && WatchedSince(run, events, f, i, u)
    ensures PodIsExact(run, events, f, i, u, k)
    decreases i
  {
    if i == f + 1 {
      FirstReadIsExact(run, events, f, u, k);
    } else {
      WatchedPodIsExact(run, events, f, i - 1, u, k);
      if events[i - 1].Passes? {
        PassIsExact(run, events, f, i, u, k);
      } else {
        OtherIsExact(run, events, f, i, u, k);
      }
    }
  }

  /** When each pod was first read; None for one never read. */
  ghost predicate AllWatched(run: seq<System>, events: seq<Event>, i: nat, firsts: seq<Option<nat>>) {
    && i < |run| && |firsts| == |run[i].world|
    && forall u: nat :: u < |firsts| ==> PodWatched(run, events, i, firsts, u)
  }

  ghost predicate PodWatched(run: seq<System>, events: seq<Event>, i: nat, firsts: seq<Option<nat>>, u: nat)
    requires i < |run| && u < |firsts|
  {
    match firsts[u]
    case None => forall n :: 0 <= n <= i ==> u !in run[n].held.pods
    case Some(f) => WatchedSince(run, events, f, i, u)
  }

  /** Last read minus first read of every pod. */
  ghost function Gains(run: seq<System>, events: seq<Event>, i: nat, firsts: seq<Option<nat>>, k: Counter): (r: seq<nat>)
    requires Run(run, events) && AllWatched(run, events, i, firsts)
    ensures |r| == |firsts|
  {
    seq(|firsts|, u requires 0 <= u < |firsts| => Gain(run, events, i, firsts, u, k))
  }

  ghost function Gain(run: seq<System>, events: seq<Event>, i: nat, firsts: seq<Option<nat>>, u: nat, k: Counter): nat
    requires Run(run, events) && AllWatched(run, events, i, firsts) && u < |firsts|
  {
    assert PodWatched(run, events, i, firsts, u);
    match firsts[u]
    case None => 0
    case Some(f) =>
      WatchedPodIsExact(run, events, f, i, u, k);
      Get(run[i].held.pods[u], k) - Get(run[f].world[u].shown, k)
  }

  /** If that holds of every pod read, then what was sent, held or dropped is the sum
      over the pods of last read minus first read. */
  lemma SteadyRunIsExact(run: seq<System>, events: seq<Event>, i: nat, firsts: seq<Option<nat>>, k: Counter)
    requires Run(run, events) && AllWatched(run, events, i, firsts)
    ensures Sum(Gains(run, events, i, firsts, k)) == Sent(run[i].reports, k) + Get(run[i].held.acc, k) + Lost(run, events, i, k)
  {
    RunBalances(run, events, i, k);
    forall u: nat | u < |firsts| ensures Gain(run, events, i, firsts, u, k) == Credit(run, events, i, u, k) {
      assert PodWatched(run, events, i, firsts, u);
      match firsts[u]
      case None => NoCreditUnknown(run, events, i, u, k);
      case Some(f) => WatchedPodIsExact(run, events, f, i, u, k);
    }
    assert Gains(run, events, i, firsts, k) == Credits(run, events, i, k);
  }

  // ---- windows ----

  /** The windows of the reports sent follow each other, the last ending where the
      next begins, and none is shorter than the least interval. */
  ghost predicate Tiles(from: int, reports: seq<Report>, to: int) {
    if reports == [] then from == to
    else
      var last := reports[|reports| - 1];
      last.to == to && last.from + MIN_INTERVAL <= last.to && Tiles(from, reports[..|reports| - 1], last.from)
  }

  lemma {:induction false} WindowsTile(run: seq<System>, events: seq<Event>, i: nat)
    requires Run(run, events) && i < |run|
    ensures Tiles(run[0].held.from, run[i].reports, run[i].held.from)
    decreases i
  {
    if i > 0 {
      WindowsTile(run, events, i - 1);
      assert StepAt(run, events, i - 1);
      var s, e, s' := run[i - 1], events[i - 1], run[i];
      if e.Passes? {
        ReadAllPods(s.held, s.world, e.uids, 0);
        if |s'.reports| > |s.reports| { assert s'.reports[..|s'.reports| - 1] == s.reports; }
      }
    }
  }

  ghost predicate InWindow(r: Report, t: int) { r.from <= t < r.to }

  /** Windows that tile are in order and apart, each inside the whole. */
  lemma {:induction false} TilesAreOrdered(from: int, reports: seq<Report>, to: int)
    requires Tiles(from, reports, to)
    ensures from <= to
    ensures forall i :: 0 <= i < |reports| ==> from <= reports[i].from && reports[i].from + MIN_INTERVAL <= reports[i].to <= to
    ensures forall i, j :: 0 <= i < j < |reports| ==> reports[i].to <= reports[j].from
    decreases |reports|
  {
    if reports != [] {
      var n := |reports| - 1;
      TilesAreOrdered(from, reports[..n], reports[n].from);
      forall i | 0 <= i < n ensures from <= reports[i].from && reports[i].from + MIN_INTERVAL <= reports[i].to <= reports[n].from {
        assert reports[..n][i] == reports[i];
      }
      forall i, j | 0 <= i < j < n ensures reports[i].to <= reports[j].from {
        assert reports[..n][i] == reports[i] && reports[..n][j] == reports[j];
      }
    }
  }

  /** Every instant up to the open window is in the window of exactly one report. */
  lemma {:induction false} InstantIsReported(from: int, reports: seq<Report>, to: int, t: int) returns (n: nat)
    requires Tiles(from, reports, to) && from <= t < to
    ensures n < |reports| && InWindow(reports[n], t)
    ensures forall m :: 0 <= m < |reports| && m != n ==> !InWindow(reports[m], t)
    decreases |reports|
  {
    var last := |reports| - 1;
    TilesAreOrdered(from, reports, to);
    if reports[last].from <= t {
      n := last;
    } else {
      n := InstantIsReported(from, reports[..last], reports[last].from, t);
      forall m | 0 <= m < |reports| && m != n ensures !InWindow(reports[m], t) {
        if m < last { assert !InWindow(reports[..last][m], t); }
      }
    }
  }

  /** Over every run, each instant before the open window is in exactly one report. */
  lemma RunReportsOnce(run: seq<System>, events: seq<Event>, i: nat, t: int) returns (n: nat)
    requires Run(run, events) && i < |run| && run[0].held.from <= t < run[i].held.from
    ensures n < |run[i].reports| && InWindow(run[i].reports[n], t)
    ensures forall m :: 0 <= m < |run[i].reports| && m != n ==> !InWindow(run[i].reports[m], t)
  {
    WindowsTile(run, events, i);
    n := InstantIsReported(run[0].held.from, run[i].reports, run[i].held.from, t);
  }
}
