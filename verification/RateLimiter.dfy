/** The rule server's keyed limiter: one token bucket per key, idle buckets
    dropped. Times and tokens are reals; the clock does not go back. */
module RateLimiter {

  datatype Bucket = Bucket(tokens: real, last: real, seen: real)

  /** One event per `every`, and `burst` at once. */
  datatype Config = Config(every: real, burst: nat)

  type Buckets = map<string, Bucket>

  const LIMIT: int := 10000

  ghost predicate IsConfig(c: Config) { c.every > 0.0 }

  function Min(x: real, y: real): real { if x <= y then x else y }

  /** The tokens of a bucket at a time. */
  function Level(c: Config, b: Bucket, now: real): real
    requires c.every > 0.0
  {
    Min(c.burst as real, b.tokens + (now - b.last) / c.every)
  }

  /** AllowN(now, 1): a token is taken when there is one; a refusal changes nothing. */
  function Take(c: Config, b: Bucket, now: real): (Bucket, bool)
    requires c.every > 0.0
  {
    var level := Level(c, b, now);
    if level >= 1.0 then (Bucket(level - 1.0, now, now), true) else (b.(seen := now), false)
  }

  /** A new limiter starts full. */
  function NewBucket(c: Config, now: real): Bucket { Bucket(c.burst as real, now, now) }

  predicate IsStale(c: Config, b: Bucket, now: real) { now - b.seen > c.every * c.burst as real }

  function Pruned(c: Config, m: Buckets, now: real): Buckets {
    map k | k in m && !IsStale(c, m[k], now) :: m[k]
  }

  /** One call on the limiter that never forgets a bucket. */
  function KeepStep(c: Config, m: Buckets, key: string, now: real): (Buckets, bool)
    requires c.every > 0.0
  {
    var (b, ok) := Take(c, if key in m then m[key] else NewBucket(c, now), now);
    (m[key := b], ok)
  }

  /** One call on the limiter that prunes when it is full. */
  function PruneStep(c: Config, m: Buckets, key: string, now: real): (Buckets, bool)
    requires c.every > 0.0
  {
    KeepStep(c, if key !in m && |m| >= LIMIT then Pruned(c, m, now) else m, key, now)
  }

  class KeyedLimiter {
    const config: Config
    var buckets: Buckets

    constructor (config: Config)
      ensures buckets == map[] && this.config == config
    {
      this.config := config;
      buckets := map[];
    }

    /** prune: drops the buckets idle long enough to be full again. */
    method Prune(now: real)
      modifies this
      ensures buckets == Pruned(config, old(buckets), now)
    {
      var before := buckets;
      var left := buckets.Keys;
      while exists k :: k in left
        invariant left <= before.Keys
        invariant buckets == map k | k in before && (k in left || !IsStale(config, before[k], now)) :: before[k]
        decreases left
      {
        var k :| k in left;
        left := left - {k};
        if now - buckets[k].seen > config.every * config.burst as real {
          buckets := buckets - {k};
        }
      }
    }

    /** allow. */
    method Allow(key: string, now: real) returns (ok: bool)
      requires config.every > 0.0
      modifies this
      ensures (buckets, ok) == PruneStep(config, old(buckets), key, now)
    {
      ghost var base := buckets;
      if key !in buckets {
        if |buckets| >= LIMIT {
          Prune(now);
        }
        base := buckets;
        buckets := buckets[key := NewBucket(config, now)];
      }
      var b;
      b, ok := Reserve(config, buckets[key], now);
      buckets := buckets[key := b];
      assert buckets == base[key := b];
    }
  }

  /** The token bucket's own step. */
  method Reserve(c: Config, b: Bucket, now: real) returns (b': Bucket, ok: bool)
    requires c.every > 0.0
    ensures (b', ok) == Take(c, b, now)
  {
    var tokens := b.tokens + (now - b.last) / c.every;
    if tokens > c.burst as real {
      tokens := c.burst as real;
    }
    if tokens >= 1.0 {
      return Bucket(tokens - 1.0, now, now), true;
    }
    return b.(seen := now), false;
  }

  // ---- pruning is invisible ----

  ghost predicate IsFull(c: Config, b: Bucket, now: real)
    requires c.every > 0.0
  {
    Level(c, b, now) == c.burst as real
  }

  lemma DivMonotone(x: real, y: real, d: real)
    requires d > 0.0 && x <= y
    ensures x / d <= y / d
  {
  }

  lemma DivExceeds(x: real, n: real, d: real)
    requires d > 0.0 && x > d * n
    ensures x / d > n
  {
  }

  lemma StaysFull(c: Config, b: Bucket, now: real, later: real)
    requires IsConfig(c) && IsFull(c, b, now) && now <= later
    ensures IsFull(c, b, later)
  {
    DivMonotone(now - b.last, later - b.last, c.every);
  }

  /** A bucket's tokens are never negative, and it was last changed before it was last seen. */
  ghost predicate IsSound(b: Bucket, now: real) { b.tokens >= 0.0 && b.last <= b.seen <= now }

  /** What prune drops is full. */
  lemma StaleIsFull(c: Config, b: Bucket, now: real)
    requires IsConfig(c) && IsSound(b, now) && IsStale(c, b, now)
    ensures IsFull(c, b, now)
  {
    DivExceeds(now - b.last, c.burst as real, c.every);
  }

  /** Two buckets that answer alike from `now` on: the same, or both full. */
  ghost predicate Alike(c: Config, x: Bucket, y: Bucket, now: real)
    requires c.every > 0.0
  {
    (x.tokens == y.tokens && x.last == y.last) || (IsFull(c, x, now) && IsFull(c, y, now))
  }

  /** The pruned map against the full one: a bucket missing from it is full. */
  ghost predicate Matches(c: Config, pruned: Buckets, kept: Buckets, now: real, k: string)
    requires c.every > 0.0
  {
    && (k in kept ==> IsSound(kept[k], now))
    && (k in pruned ==> k in kept && IsSound(pruned[k], now) && Alike(c, pruned[k], kept[k], now))
    && (k in kept && k !in pruned ==> IsFull(c, kept[k], now))
  }

  ghost predicate Simulates(c: Config, pruned: Buckets, kept: Buckets, now: real)
    requires c.every > 0.0
  {
    forall k: string :: Matches(c, pruned, kept, now, k)
  }

  lemma MatchesLater(c: Config, pruned: Buckets, kept: Buckets, now: real, later: real, k: string)
    requires IsConfig(c) && Matches(c, pruned, kept, now, k) && now <= later
    ensures Matches(c, pruned, kept, later, k)
  {
    if k in kept && IsFull(c, kept[k], now) { StaysFull(c, kept[k], now, later); }
    if k in pruned && IsFull(c, pruned[k], now) { StaysFull(c, pruned[k], now, later); }
  }

  lemma PruneMatches(c: Config, pruned: Buckets, kept: Buckets, now: real, k: string)
    requires IsConfig(c) && Matches(c, pruned, kept, now, k)
    ensures Matches(c, Pruned(c, pruned, now), kept, now, k)
  {
    if k in pruned && IsStale(c, pruned[k], now) { StaleIsFull(c, pruned[k], now); }
  }

  lemma TakeAlike(c: Config, x: Bucket, y: Bucket, now: real)
    requires IsConfig(c) && Alike(c, x, y, now) && IsSound(x, now) && IsSound(y, now)
    ensures Take(c, x, now).1 == Take(c, y, now).1
    ensures Alike(c, Take(c, x, now).0, Take(c, y, now).0, now)
    ensures IsSound(Take(c, x, now).0, now) && IsSound(Take(c, y, now).0, now)
  {
  }

  lemma NewIsFull(c: Config, now: real)
    requires IsConfig(c)
    ensures IsFull(c, NewBucket(c, now), now) && IsSound(NewBucket(c, now), now)
  {
    assert (now - now) / c.every == 0.0;
  }

  lemma KeepMatches(c: Config, pruned: Buckets, kept: Buckets, now: real, key: string)
    requires IsConfig(c) && Simulates(c, pruned, kept, now)
    ensures KeepStep(c, pruned, key, now).1 == KeepStep(c, kept, key, now).1
    ensures Simulates(c, KeepStep(c, pruned, key, now).0, KeepStep(c, kept, key, now).0, now)
  {
    NewIsFull(c, now);
    assert Matches(c, pruned, kept, now, key);
    var x := if key in pruned then pruned[key] else NewBucket(c, now);
    var y := if key in kept then kept[key] else NewBucket(c, now);
    TakeAlike(c, x, y, now);
    forall k: string ensures Matches(c, KeepStep(c, pruned, key, now).0, KeepStep(c, kept, key, now).0, now, k) {
      assert Matches(c, pruned, kept, now, k);
    }
  }

  /** One call: the same answer, and the maps still match. */
  lemma StepMatches(c: Config, pruned: Buckets, kept: Buckets, before: real, now: real, key: string)
    requires IsConfig(c) && Simulates(c, pruned, kept, before) && before <= now
    ensures PruneStep(c, pruned, key, now).1 == KeepStep(c, kept, key, now).1
    ensures Simulates(c, PruneStep(c, pruned, key, now).0, KeepStep(c, kept, key, now).0, now)
  {
    forall k: string ensures Matches(c, pruned, kept, now, k) && Matches(c, Pruned(c, pruned, now), kept, now, k) {
      assert Matches(c, pruned, kept, before, k);
      MatchesLater(c, pruned, kept, before, now, k);
      PruneMatches(c, pruned, kept, now, k);
    }
    KeepMatches(c, if key !in pruned && |pruned| >= LIMIT then Pruned(c, pruned, now) else pruned, kept, now, key);
  }

  // ---- runs ----

  datatype Call = Call(key: string, now: real)

  ghost predicate InOrder(calls: seq<Call>) { forall i, j :: 0 <= i < j < |calls| ==> calls[i].now <= calls[j].now }

  /** The buckets after the first `i` calls, with and without pruning. */
  function PrunedAfter(c: Config, calls: seq<Call>, i: nat): Buckets
    requires c.every > 0.0 && i <= |calls|
  {
    if i == 0 then map[] else PruneStep(c, PrunedAfter(c, calls, i - 1), calls[i - 1].key, calls[i - 1].now).0
  }

  function KeptAfter(c: Config, calls: seq<Call>, i: nat): Buckets
    requires c.every > 0.0 && i <= |calls|
  {
    if i == 0 then map[] else KeepStep(c, KeptAfter(c, calls, i - 1), calls[i - 1].key, calls[i - 1].now).0
  }

  /** The limiter's answer to call `i`. */
  function Answer(c: Config, calls: seq<Call>, i: nat): bool
    requires c.every > 0.0 && i < |calls|
  {
    PruneStep(c, PrunedAfter(c, calls, i), calls[i].key, calls[i].now).1
  }

  lemma {:induction false} RunMatches(c: Config, calls: seq<Call>, i: nat)
    requires IsConfig(c) && InOrder(calls) && 0 < i <= |calls|
    ensures Simulates(c, PrunedAfter(c, calls, i), KeptAfter(c, calls, i), calls[i - 1].now)
    decreases i
  {
    var now := calls[i - 1].now;
    var before := if i > 1 then calls[i - 2].now else now;
    if i > 1 {
      RunMatches(c, calls, i - 1);
    } else {
      assert forall k: string :: Matches(c, map[], map[], now, k);
    }
    StepMatches(c, PrunedAfter(c, calls, i - 1), KeptAfter(c, calls, i - 1), before, now, calls[i - 1].key);
  }

  /** Forgetting buckets never changes an answer. */
  lemma PruningIsInvisible(c: Config, calls: seq<Call>, i: nat)
    requires IsConfig(c) && InOrder(calls) && i < |calls|
    ensures Answer(c, calls, i) == KeepStep(c, KeptAfter(c, calls, i), calls[i].key, calls[i].now).1
  {
    var now := calls[i].now;
    if i > 0 {
      RunMatches(c, calls, i);
      StepMatches(c, PrunedAfter(c, calls, i), KeptAfter(c, calls, i), calls[i - 1].now, now, calls[i].key);
    }
  }

  // ---- the rate ----

  /** The tokens of a key: a key without a bucket has a full one. */
  function LevelOf(c: Config, m: Buckets, k: string, now: real): real
    requires c.every > 0.0
  {
    if k in m then Level(c, m[k], now) else c.burst as real
  }

  /** How many of calls i..j of a key were allowed. */
  function Allowed(c: Config, calls: seq<Call>, k: string, i: nat, j: nat): nat
    requires c.every > 0.0 && i <= j <= |calls|
    decreases j
  {
    if i == j then 0
    else Allowed(c, calls, k, i, j - 1) + if calls[j - 1].key == k && Answer(c, calls, j - 1) then 1 else 0
  }

  lemma LevelGrows(c: Config, b: Bucket, now: real, later: real)
    requires IsConfig(c) && now <= later
    ensures Level(c, b, later) <= Level(c, b, now) + (later - now) / c.every
  {
    assert (later - b.last) / c.every == (now - b.last) / c.every + (later - now) / c.every;
    DivMonotone(0.0, later - now, c.every);
  }

  lemma KeyLevelGrows(c: Config, m: Buckets, k: string, now: real, later: real)
    requires IsConfig(c) && now <= later
    ensures LevelOf(c, m, k, later) <= LevelOf(c, m, k, now) + (later - now) / c.every
  {
    DivMonotone(0.0, later - now, c.every);
    if k in m { LevelGrows(c, m[k], now, later); }
  }

  /** A call takes the token it is allowed. */
  lemma StepTakes(c: Config, m: Buckets, key: string, now: real, k: string)
    requires IsConfig(c)
    ensures var (m', ok) := KeepStep(c, m, key, now);
      LevelOf(c, m', k, now) == LevelOf(c, m, k, now) - if key == k && ok then 1.0 else 0.0
  {
    assert (now - now) / c.every == 0.0;
  }

  lemma DivSplit(x: real, y: real, z: real, d: real)
    requires d > 0.0
    ensures (z - x) / d == (y - x) / d + (z - y) / d
  {
  }

  lemma LevelIsBelowBurst(c: Config, m: Buckets, k: string, now: real)
    requires IsConfig(c)
    ensures LevelOf(c, m, k, now) <= c.burst as real
  {
  }

  /** One call moves its token from the level to the events allowed. */
  lemma CallSpends(c: Config, calls: seq<Call>, k: string, i: nat, j: nat)
    requires IsConfig(c) && InOrder(calls) && i < j <= |calls|
    ensures
      var taken := if calls[j - 1].key == k && Answer(c, calls, j - 1) then 1 else 0;
      && Allowed(c, calls, k, i, j) == Allowed(c, calls, k, i, j - 1) + taken
      && LevelOf(c, KeptAfter(c, calls, j), k, calls[j - 1].now) ==
         LevelOf(c, KeptAfter(c, calls, j - 1), k, calls[j - 1].now) - taken as real
  {
    PruningIsInvisible(c, calls, j - 1);
    StepTakes(c, KeptAfter(c, calls, j - 1), calls[j - 1].key, calls[j - 1].now, k);
  }

  /** The right-hand side of the bound: the burst and what the window brought. */
  function Budget(c: Config, from: real, to: real): real
    requires c.every > 0.0
  {
    c.burst as real + (to - from) / c.every
  }

  /** Allowed events plus tokens left never exceed the tokens at the start plus what time brought. */
  lemma {:induction false} TokensAreSpent(c: Config, calls: seq<Call>, k: string, i: nat, j: nat)
    requires IsConfig(c) && InOrder(calls) && i < j <= |calls|
    ensures Allowed(c, calls, k, i, j) as real + LevelOf(c, KeptAfter(c, calls, j), k, calls[j - 1].now)
      <= Budget(c, calls[i].now, calls[j - 1].now)
    decreases j
  {
    CallSpends(c, calls, k, i, j);
    if i + 1 == j {
      FirstCall(c, calls, k, i);
    } else {
      TokensAreSpent(c, calls, k, i, j - 1);
      NextCall(c, calls, k, i, j);
    }
  }

  lemma FirstCall(c: Config, calls: seq<Call>, k: string, i: nat)
    requires IsConfig(c) && i < |calls|
    ensures LevelOf(c, KeptAfter(c, calls, i), k, calls[i].now) <= Budget(c, calls[i].now, calls[i].now)
  {
    LevelIsBelowBurst(c, KeptAfter(c, calls, i), k, calls[i].now);
    assert (calls[i].now - calls[i].now) / c.every == 0.0;
  }

  lemma NextCall(c: Config, calls: seq<Call>, k: string, i: nat, j: nat)
    requires IsConfig(c) && InOrder(calls) && i + 1 < j <= |calls|
    requires Allowed(c, calls, k, i, j - 1) as real + LevelOf(c, KeptAfter(c, calls, j - 1), k, calls[j - 2].now)
      <= Budget(c, calls[i].now, calls[j - 2].now)
    ensures Allowed(c, calls, k, i, j - 1) as real + LevelOf(c, KeptAfter(c, calls, j - 1), k, calls[j - 1].now)
      <= Budget(c, calls[i].now, calls[j - 1].now)
  {
    KeyLevelGrows(c, KeptAfter(c, calls, j - 1), k, calls[j - 2].now, calls[j - 1].now);
    DivSplit(calls[i].now, calls[j - 2].now, calls[j - 1].now, c.every);
  }

  lemma {:induction false} TokensAreNotNegative(c: Config, calls: seq<Call>, k: string, i: nat)
    requires IsConfig(c) && InOrder(calls) && 0 < i <= |calls|
    ensures LevelOf(c, KeptAfter(c, calls, i), k, calls[i - 1].now) >= 0.0
  {
    RunMatches(c, calls, i);
    var m, now := KeptAfter(c, calls, i), calls[i - 1].now;
    assert Matches(c, PrunedAfter(c, calls, i), m, now, k);
    if k in m { DivMonotone(0.0, now - m[k].last, c.every); }
  }

  /** In any window of length T a key gets at most burst + T / every events. */
  lemma RateIsBounded(c: Config, calls: seq<Call>, k: string, i: nat, j: nat)
    requires IsConfig(c) && InOrder(calls) && i < j <= |calls|
    ensures Allowed(c, calls, k, i, j) as real <= c.burst as real + (calls[j - 1].now - calls[i].now) / c.every
  {
    TokensAreSpent(c, calls, k, i, j);
    TokensAreNotNegative(c, calls, k, j);
  }

  // ---- what is allowed ----

  /** The tokens that call `j` finds for a key. */
  function LevelBefore(c: Config, calls: seq<Call>, k: string, j: nat): real
    requires c.every > 0.0 && j < |calls|
  {
    LevelOf(c, KeptAfter(c, calls, j), k, calls[j].now)
  }

  /** A call is allowed exactly if it finds a token. */
  lemma AnswerIsLevel(c: Config, calls: seq<Call>, j: nat)
    requires IsConfig(c) && InOrder(calls) && j < |calls|
    ensures Answer(c, calls, j) <==> LevelBefore(c, calls, calls[j].key, j) >= 1.0
  {
    PruningIsInvisible(c, calls, j);
    assert (calls[j].now - calls[j].now) / c.every == 0.0;
  }

  /** Below the burst nothing that time brings is thrown away. */
  lemma LevelGrowsBy(c: Config, m: Buckets, k: string, now: real, later: real)
    requires IsConfig(c) && now <= later && LevelOf(c, m, k, later) < c.burst as real
    ensures LevelOf(c, m, k, later) == LevelOf(c, m, k, now) + (later - now) / c.every
  {
    DivSplit(m[k].last, now, later, c.every);
    DivMonotone(0.0, later - now, c.every);
  }

  /** Since some call, at which the key's bucket was full, every token was handed out. */
  lemma {:induction false} LastFull(c: Config, calls: seq<Call>, k: string, j: nat) returns (i: nat)
    requires IsConfig(c) && InOrder(calls) && j < |calls|
    ensures i <= j
    ensures LevelBefore(c, calls, k, j) == Budget(c, calls[i].now, calls[j].now) - Allowed(c, calls, k, i, j) as real
    decreases j
  {
    var m, now := KeptAfter(c, calls, j), calls[j].now;
    if LevelBefore(c, calls, k, j) >= c.burst as real {
      i := j;
      LevelIsBelowBurst(c, m, k, now);
      assert (now - now) / c.every == 0.0;
    } else {
      i := LastFull(c, calls, k, j - 1);
      CallSpends(c, calls, k, i, j);
      LevelGrowsBy(c, m, k, calls[j - 1].now, now);
      DivSplit(calls[i].now, calls[j - 1].now, now, c.every);
    }
  }

  /** Call `j` keeps the window that starts at call `i` within its budget. */
  ghost predicate Fits(c: Config, calls: seq<Call>, i: nat, j: nat)
    requires c.every > 0.0 && i <= j < |calls|
  {
    Allowed(c, calls, calls[j].key, i, j) as real + 1.0 <= Budget(c, calls[i].now, calls[j].now)
  }

  /** A call is allowed exactly if it keeps every window of its key within burst + T / every. */
  lemma AllowedIfItFits(c: Config, calls: seq<Call>, j: nat)
    requires IsConfig(c) && InOrder(calls) && j < |calls|
    ensures Answer(c, calls, j) <==> forall i: nat :: i <= j ==> Fits(c, calls, i, j)
  {
    var k := calls[j].key;
    AnswerIsLevel(c, calls, j);
    if Answer(c, calls, j) {
      forall i: nat | i <= j ensures Fits(c, calls, i, j) {
        RateIsBounded(c, calls, k, i, j + 1);
      }
    } else {
      var i := LastFull(c, calls, k, j);
      assert !Fits(c, calls, i, j);
    }
  }

  lemma {:induction false} AllowedGrows(c: Config, calls: seq<Call>, k: string, i: nat, j: nat)
    requires IsConfig(c) && i <= j <= |calls|
    ensures Allowed(c, calls, k, i, j) <= Allowed(c, calls, k, 0, j)
    decreases j
  {
    if i < j { AllowedGrows(c, calls, k, i, j - 1); }
  }

  lemma {:induction false} BudgetCoversBurst(c: Config, from: real, to: real)
    requires IsConfig(c) && from <= to
    ensures Budget(c, from, to) >= c.burst as real
  {
    DivMonotone(0.0, to - from, c.every);
  }

  lemma {:induction false} FewFit(c: Config, calls: seq<Call>, i: nat, j: nat)
    requires IsConfig(c) && InOrder(calls) && i <= j < |calls| && Allowed(c, calls, calls[j].key, 0, j) < c.burst
    ensures Fits(c, calls, i, j)
  {
    AllowedGrows(c, calls, calls[j].key, i, j);
    BudgetCoversBurst(c, calls[i].now, calls[j].now);
  }

  /** The first `burst` events of a key are allowed, whenever they come. */
  lemma {:induction false} BurstIsAllowed(c: Config, calls: seq<Call>, j: nat)
    requires IsConfig(c) && InOrder(calls) && j < |calls| && Allowed(c, calls, calls[j].key, 0, j) < c.burst
    ensures Answer(c, calls, j)
  {
    forall i: nat | i <= j ensures Fits(c, calls, i, j) {
      FewFit(c, calls, i, j);
    }
    AllowedIfItFits(c, calls, j);
  }
}
