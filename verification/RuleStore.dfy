/** The rule server's store: versions, publications and the published pointer
    of every set, the numbering under the set's row lock, and every run of
    server processes that share the database. */
module RuleStore {
  import opened Common
  import opened Signing

  datatype SetRow = SetRow(org: int, path: string, published: Option<int>)
  datatype Version = Version(set_: int, revision: int, content: string)
  datatype Publication = Publication(set_: int, seq_: int, version: int, keyId: string, signature: string)

  /** The committed rows, by id. */
  datatype Tables = Tables(
    sets: map<int, SetRow>,
    versions: map<int, Version>,
    pubs: map<int, Publication>,
    keys: map<(int, string), PublicKey>)

  // ---- numbering ----

  ghost function Revs(t: Tables, s: int): set<int> {
    set id | id in t.versions && t.versions[id].set_ == s :: t.versions[id].revision
  }

  ghost function Seqs(t: Tables, s: int): set<int> {
    set id | id in t.pubs && t.pubs[id].set_ == s :: t.pubs[id].seq_
  }

  /** COALESCE(MAX(x), 0) + 1. */
  ghost predicate IsNext(s: set<int>, x: int) {
    if s == {} then x == 1 else x - 1 in s && forall y :: y in s ==> y < x
  }

  /** Exactly the numbers 1..n. */
  ghost predicate UpTo(s: set<int>, n: nat) { forall x :: x in s <==> 1 <= x <= n }

  ghost predicate Dense(s: set<int>) { exists n: nat :: UpTo(s, n) }

  lemma NextIsLast(s: set<int>, n: nat, x: int)
    requires UpTo(s, n) && IsNext(s, x)
    ensures x == n + 1
  {
    if n > 0 { assert n in s; }
  }

  lemma NextKeepsDense(s: set<int>, x: int)
    requires Dense(s) && IsNext(s, x)
    ensures Dense(s + {x}) && x !in s
  {
    var n: nat :| UpTo(s, n);
    NextIsLast(s, n, x);
    assert UpTo(s + {x}, n + 1);
  }

  // ---- what the tables always satisfy ----

  ghost predicate References(t: Tables) {
    && (forall id :: id in t.versions ==> t.versions[id].set_ in t.sets)
    && (forall id :: id in t.pubs ==>
      && t.pubs[id].set_ in t.sets
      && t.pubs[id].version in t.versions
      && t.versions[t.pubs[id].version].set_ == t.pubs[id].set_)
  }

  lemma VersionHasSet(t: Tables, id: int)
    requires References(t) && id in t.versions
    ensures t.versions[id].set_ in t.sets
  {
  }

  ghost predicate Unique(t: Tables) {
    && (forall i, j :: i in t.versions && j in t.versions && i != j && t.versions[i].set_ == t.versions[j].set_ ==>
      t.versions[i].revision != t.versions[j].revision)
    && (forall i, j :: i in t.pubs && j in t.pubs && i != j && t.pubs[i].set_ == t.pubs[j].set_ ==>
      t.pubs[i].seq_ != t.pubs[j].seq_)
  }

  ghost predicate Numbered(t: Tables) {
    forall s :: s in t.sets ==> Dense(Revs(t, s)) && Dense(Seqs(t, s))
  }

  /** The newest publication of its set. */
  ghost predicate IsLatest(t: Tables, p: int) {
    p in t.pubs && forall q :: q in t.pubs && t.pubs[q].set_ == t.pubs[p].set_ ==> t.pubs[q].seq_ <= t.pubs[p].seq_
  }

  /** A set serves the version of its newest publication, and nothing before the first. */
  ghost predicate Pointed(t: Tables)
    requires References(t)
  {
    && (forall p :: IsLatest(t, p) ==> t.sets[t.pubs[p].set_].published == Some(t.pubs[p].version))
    && (forall s :: s in t.sets && Seqs(t, s) == {} ==> t.sets[s].published == None)
  }

  /** The stored signature verifies for the row's own set, number, revision and content. */
  ghost predicate Backed(suite: Suite, t: Tables, p: Publication)
    requires p.set_ in t.sets && p.version in t.versions
  {
    var row, v := t.sets[p.set_], t.versions[p.version];
    && (row.org, p.keyId) in t.keys
    && Verify(suite, t.keys[(row.org, p.keyId)], For(suite, row.path, p.seq_, v.revision, v.content), p.signature)
  }

  ghost predicate SignaturesHold(suite: Suite, t: Tables)
    requires References(t)
  {
    && (forall k :: k in t.keys ==> suite.keyId(t.keys[k]) == k.1)
    && (forall id :: id in t.pubs && t.pubs[id].signature != "" ==> Backed(suite, t, t.pubs[id]))
  }

  ghost predicate Good(suite: Suite, t: Tables) {
    References(t) && Unique(t) && Numbered(t) && Pointed(t) && SignaturesHold(suite, t)
  }

  // ---- the two writes ----

  function AddVersion(t: Tables, id: int, v: Version): Tables { t.(versions := t.versions[id := v]) }

  function AddPublication(t: Tables, id: int, p: Publication): Tables
    requires p.set_ in t.sets
  {
    t.(sets := t.sets[p.set_ := t.sets[p.set_].(published := Some(p.version))], pubs := t.pubs[id := p])
  }

  lemma RevsAfter(t: Tables, id: int, v: Version, s: int)
    requires id !in t.versions
    ensures Revs(AddVersion(t, id, v), s) == Revs(t, s) + if s == v.set_ then {v.revision} else {}
  {
    var t' := AddVersion(t, id, v);
    forall r | r in Revs(t, s) ensures r in Revs(t', s) {
      var i :| i in t.versions && t.versions[i].set_ == s && t.versions[i].revision == r;
      assert t'.versions[i] == t.versions[i];
    }
    if s == v.set_ { assert t'.versions[id] == v; }
  }

  lemma SeqsAfter(t: Tables, id: int, p: Publication, s: int)
    requires id !in t.pubs && p.set_ in t.sets
    ensures Seqs(AddPublication(t, id, p), s) == Seqs(t, s) + if s == p.set_ then {p.seq_} else {}
    ensures Revs(AddPublication(t, id, p), s) == Revs(t, s)
  {
    var t' := AddPublication(t, id, p);
    forall r | r in Seqs(t, s) ensures r in Seqs(t', s) {
      var i :| i in t.pubs && t.pubs[i].set_ == s && t.pubs[i].seq_ == r;
      assert t'.pubs[i] == t.pubs[i];
    }
    if s == p.set_ { assert t'.pubs[id] == p; }
  }

  lemma SeqsUnchanged(t: Tables, id: int, v: Version, s: int)
    ensures Seqs(AddVersion(t, id, v), s) == Seqs(t, s)
  {
  }

  lemma AddVersionKeepsGood(suite: Suite, t: Tables, id: int, v: Version)
    requires Good(suite, t) && id !in t.versions && v.set_ in t.sets && IsNext(Revs(t, v.set_), v.revision)
    ensures Good(suite, AddVersion(t, id, v))
  {
    var t' := AddVersion(t, id, v);
    NextKeepsDense(Revs(t, v.set_), v.revision);
    forall s | s in t'.sets ensures Dense(Revs(t', s)) && Dense(Seqs(t', s)) {
      RevsAfter(t, id, v, s);
      SeqsUnchanged(t, id, v, s);
      if s != v.set_ { assert Revs(t', s) == Revs(t, s); }
    }
    assert Unique(t') by {
      forall i | i in t.versions && t.versions[i].set_ == v.set_ ensures t.versions[i].revision != v.revision {
        assert t.versions[i].revision in Revs(t, v.set_);
      }
    }
    assert Pointed(t') by {
      forall s | s in t'.sets && Seqs(t', s) == {} ensures t'.sets[s].published == None { SeqsUnchanged(t, id, v, s); }
      forall p | IsLatest(t', p) ensures t'.sets[t'.pubs[p].set_].published == Some(t'.pubs[p].version) {
        assert IsLatest(t, p);
      }
    }
    forall k | k in t'.pubs && t'.pubs[k].signature != "" ensures Backed(suite, t', t'.pubs[k]) {
      assert Backed(suite, t, t.pubs[k]);
    }
  }

  /** The publication may be stored: its version is the set's own, its number is
      the next one, and a signature on it verifies. */
  ghost predicate Publishable(suite: Suite, t: Tables, p: Publication) {
    && p.set_ in t.sets
    && p.version in t.versions && t.versions[p.version].set_ == p.set_
    && IsNext(Seqs(t, p.set_), p.seq_)
    && (p.signature != "" ==> Backed(suite, t, p))
  }

  lemma AddPublicationPoints(t: Tables, id: int, p: Publication)
    requires References(t) && Pointed(t) && id !in t.pubs
    requires p.set_ in t.sets && p.version in t.versions && t.versions[p.version].set_ == p.set_
    requires IsNext(Seqs(t, p.set_), p.seq_)
    ensures References(AddPublication(t, id, p)) && Pointed(AddPublication(t, id, p))
  {
    var t' := AddPublication(t, id, p);
    assert References(t');
    forall q | IsLatest(t', q) ensures t'.sets[t'.pubs[q].set_].published == Some(t'.pubs[q].version) {
      if t'.pubs[q].set_ == p.set_ {
        assert t'.pubs[id].set_ == p.set_;
        assert q in t.pubs ==> t.pubs[q].seq_ in Seqs(t, p.set_);
      } else {
        assert IsLatest(t, q) by {
          forall r | r in t.pubs && t.pubs[r].set_ == t.pubs[q].set_ ensures t.pubs[r].seq_ <= t.pubs[q].seq_ {
            assert t'.pubs[r] == t.pubs[r];
          }
        }
      }
    }
    forall s | s in t'.sets && Seqs(t', s) == {} ensures t'.sets[s].published == None {
      SeqsAfter(t, id, p, s);
    }
  }

  lemma AddPublicationKeepsGood(suite: Suite, t: Tables, id: int, p: Publication)
    requires Good(suite, t) && id !in t.pubs && Publishable(suite, t, p)
    ensures Good(suite, AddPublication(t, id, p))
  {
    var t' := AddPublication(t, id, p);
    AddPublicationPoints(t, id, p);
    NextKeepsDense(Seqs(t, p.set_), p.seq_);
    forall s | s in t'.sets ensures Dense(Revs(t', s)) && Dense(Seqs(t', s)) {
      SeqsAfter(t, id, p, s);
      if s != p.set_ { assert Seqs(t', s) == Seqs(t, s); }
    }
    assert Unique(t') by {
      forall i | i in t.pubs && t.pubs[i].set_ == p.set_ ensures t.pubs[i].seq_ != p.seq_ {
        assert t.pubs[i].seq_ in Seqs(t, p.set_);
      }
    }
    forall k | k in t'.pubs && t'.pubs[k].signature != "" ensures Backed(suite, t', t'.pubs[k]) {
      assert k != id ==> Backed(suite, t, t.pubs[k]);
    }
  }

  // ---- server processes ----

  /** A publish request; the signature fields are empty on an unsigned one. */
  datatype Request = Request(revision: int, publication: int, keyId: string, signature: string) {
    predicate IsSigned() { signature != "" || keyId != "" }

    /** What the handler checks before it reaches the store. */
    predicate IsComplete() {
      && revision > 0
      && (IsSigned() ==> signature != "" && keyId != "" && publication > 0)
    }
  }

  /** Where a process is in its transaction. `key` is the public key the handler read. */
  datatype Txn =
    | Idle
    | CreateLocked(set_: int)
    | CreateRead(set_: int, revision: int)
    | CreateInserted(set_: int, v: Version)
    | PublishLocked(set_: int, req: Request, key: PublicKey)
    | PublishVersion(set_: int, req: Request, key: PublicKey, version: int)
    | PublishNumber(set_: int, req: Request, key: PublicKey, version: int, seq_: int)
    | PublishInserted(set_: int, req: Request, key: PublicKey, p: Publication)

  datatype State = State(db: Tables, locks: map<int, int>, txns: map<int, Txn>)

  datatype Step =
    | CreateSet(id: int, org: int, path: string)
    | AddKey(org: int, pk: PublicKey)
    | BeginCreate(proc: int, set_: int)
    | ReadRevision(proc: int, revision: int)
    | InsertVersion(proc: int, content: string)
    | CommitVersion(proc: int, id: int)
    | BeginPublish(proc: int, set_: int, req: Request, key: PublicKey)
    | ReadVersion(proc: int, version: int)
    | ReadNumber(proc: int, seq_: int)
    | CheckAndInsert(proc: int)
    | CommitPublication(proc: int, id: int)
    | Rollback(proc: int)

  function TxnOf(s: State, proc: int): Txn { if proc in s.txns then s.txns[proc] else Idle }

  function Locked(s: State, proc: int, t: Txn): State
    requires !t.Idle?
  {
    s.(locks := s.locks[t.set_ := proc], txns := s.txns[proc := t])
  }

  function Moved(s: State, proc: int, t: Txn): State { s.(txns := s.txns[proc := t]) }

  /** The end of a transaction releases the row lock. */
  function Ended(s: State, proc: int, db: Tables): State
    requires !TxnOf(s, proc).Idle?
  {
    State(db, s.locks - {TxnOf(s, proc).set_}, s.txns[proc := Idle])
  }

  /** One atomic statement of one process. */
  ghost predicate Next(suite: Suite, s: State, s': State, step: Step) {
    match step
    case CreateSet(id, org, path) =>
      && id !in s.db.sets
      && s' == s.(db := s.db.(sets := s.db.sets[id := SetRow(org, path, None)]))
    case AddKey(org, pk) =>
      && (org, suite.keyId(pk)) !in s.db.keys
      && s' == s.(db := s.db.(keys := s.db.keys[(org, suite.keyId(pk)) := pk]))
    case BeginCreate(proc, set_) =>
      && TxnOf(s, proc).Idle? && set_ in s.db.sets && set_ !in s.locks
      && s' == Locked(s, proc, CreateLocked(set_))
    case ReadRevision(proc, revision) =>
      && TxnOf(s, proc).CreateLocked?
      && IsNext(Revs(s.db, TxnOf(s, proc).set_), revision)
      && s' == Moved(s, proc, CreateRead(TxnOf(s, proc).set_, revision))
    case InsertVersion(proc, content) =>
      var t := TxnOf(s, proc);
      && t.CreateRead?
      && s' == Moved(s, proc, CreateInserted(t.set_, Version(t.set_, t.revision, content)))
    case CommitVersion(proc, id) =>
      var t := TxnOf(s, proc);
      && t.CreateInserted? && id !in s.db.versions
      && s' == Ended(s, proc, AddVersion(s.db, id, t.v))
    case BeginPublish(proc, set_, req, key) =>
      && TxnOf(s, proc).Idle? && set_ in s.db.sets && set_ !in s.locks
      && req.IsComplete()
      && KeyRead(s.db, set_, req, key)
      && s' == Locked(s, proc, PublishLocked(set_, req, key))
    case ReadVersion(proc, version) =>
      var t := TxnOf(s, proc);
      && t.PublishLocked?
      && version in s.db.versions && s.db.versions[version].set_ == t.set_
      && s.db.versions[version].revision == t.req.revision
      && s' == Moved(s, proc, PublishVersion(t.set_, t.req, t.key, version))
    case ReadNumber(proc, seq_) =>
      var t := TxnOf(s, proc);
      && t.PublishVersion?
      && IsNext(Seqs(s.db, t.set_), seq_)
      && (t.req.publication == 0 || t.req.publication == seq_)
      && s' == Moved(s, proc, PublishNumber(t.set_, t.req, t.key, t.version, seq_))
    case CheckAndInsert(proc) =>
      var t := TxnOf(s, proc);
      && t.PublishNumber? && t.set_ in s.db.sets && t.version in s.db.versions
      && (t.req.IsSigned() ==> CheckPasses(suite, s.db, t))
      && s' == Moved(s, proc, PublishInserted(t.set_, t.req, t.key, Publication(t.set_, t.seq_, t.version, t.req.keyId, t.req.signature)))
    case CommitPublication(proc, id) =>
      var t := TxnOf(s, proc);
      && t.PublishInserted? && id !in s.db.pubs && t.p.set_ in s.db.sets
      && s' == Ended(s, proc, AddPublication(s.db, id, t.p))
    case Rollback(proc) =>
      && !TxnOf(s, proc).Idle?
      && s' == Ended(s, proc, s.db)
  }

  /** The handler looked up the request's key; a registered key row never changes. */
  ghost predicate KeyRead(db: Tables, set_: int, req: Request, key: PublicKey)
    requires set_ in db.sets
  {
    req.IsSigned() ==> (db.sets[set_].org, req.keyId) in db.keys && db.keys[(db.sets[set_].org, req.keyId)] == key
  }

  /** The Check callback of the publish handler. */
  ghost predicate CheckPasses(suite: Suite, db: Tables, t: Txn)
    requires t.PublishNumber? && t.set_ in db.sets && t.version in db.versions
  {
    var v := db.versions[t.version];
    Verify(suite, t.key, For(suite, db.sets[t.set_].path, t.seq_, v.revision, v.content), t.req.signature)
  }

  /** The version the request names. */
  ghost predicate Names(t: Tables, s: int, req: Request, id: int) {
    id in t.versions && t.versions[id].set_ == s && t.versions[id].revision == req.revision
  }

  /** The publication is the one asked for: its set, its revision, its number if the
      request gave one, its key and its signature. */
  ghost predicate Answers(t: Tables, s: int, req: Request, p: Publication) {
    && p.set_ == s && Names(t, s, req, p.version)
    && (req.publication == 0 || req.publication == p.seq_)
    && p.keyId == req.keyId && p.signature == req.signature
  }

  /** What a process has read is still true, because it holds the row lock. */
  ghost predicate Fact(suite: Suite, db: Tables, t: Txn) {
    match t
    case Idle => true
    case CreateLocked(s) => s in db.sets
    case CreateRead(s, r) => s in db.sets && IsNext(Revs(db, s), r)
    case CreateInserted(s, v) => v.set_ == s && s in db.sets && IsNext(Revs(db, s), v.revision)
    case PublishLocked(s, req, key) => s in db.sets && req.IsComplete() && KeyRead(db, s, req, key)
    case PublishVersion(s, req, key, v) =>
      && s in db.sets && req.IsComplete() && KeyRead(db, s, req, key)
      && Names(db, s, req, v)
    case PublishNumber(s, req, key, v, n) =>
      && s in db.sets && req.IsComplete() && KeyRead(db, s, req, key)
      && Names(db, s, req, v)
      && IsNext(Seqs(db, s), n) && (req.publication == 0 || req.publication == n)
    case PublishInserted(s, req, key, p) => Publishable(suite, db, p) && Answers(db, s, req, p)
  }

  ghost predicate Holds(s: State, proc: int) {
    TxnOf(s, proc).Idle? || (TxnOf(s, proc).set_ in s.locks && s.locks[TxnOf(s, proc).set_] == proc)
  }

  ghost predicate Sound(suite: Suite, s: State, proc: int) { Holds(s, proc) && Fact(suite, s.db, TxnOf(s, proc)) }

  ghost predicate Invariant(suite: Suite, s: State) {
    && Good(suite, s.db)
    && (forall proc: int :: Sound(suite, s, proc))
  }

  /** Rows are only ever added, and a set keeps its organization and path. */
  ghost predicate Extends(t: Tables, t': Tables) {
    && (forall s :: s in t.sets ==> s in t'.sets && t'.sets[s].org == t.sets[s].org && t'.sets[s].path == t.sets[s].path)
    && (forall id :: id in t.versions ==> id in t'.versions && t'.versions[id] == t.versions[id])
    && (forall id :: id in t.pubs ==> id in t'.pubs && t'.pubs[id] == t.pubs[id])
    && (forall k :: k in t.keys ==> k in t'.keys && t'.keys[k] == t.keys[k])
  }

  lemma FactIsStable(suite: Suite, t: Tables, t': Tables, x: Txn)
    requires Fact(suite, t, x) && Extends(t, t')
    requires !x.Idle? ==> Revs(t', x.set_) == Revs(t, x.set_) && Seqs(t', x.set_) == Seqs(t, x.set_)
    ensures Fact(suite, t', x)
  {
  }

  /** Two processes in transactions are on two sets. */
  lemma OneHolder(suite: Suite, s: State, p: int, q: int)
    requires Invariant(suite, s) && p != q && !TxnOf(s, p).Idle? && !TxnOf(s, q).Idle?
    ensures TxnOf(s, p).set_ != TxnOf(s, q).set_
  {
    assert Sound(suite, s, p) && Sound(suite, s, q);
  }

  /** The new tables extend the old ones and change the numbers of at most the writer's set. */
  ghost predicate Touches(t: Tables, t': Tables, writer: Txn) {
    && Extends(t, t')
    && (forall s :: writer.Idle? || s != writer.set_ ==> Revs(t', s) == Revs(t, s) && Seqs(t', s) == Seqs(t, s))
  }

  lemma EndKeepsInvariant(suite: Suite, s: State, proc: int, db: Tables)
    requires Invariant(suite, s) && !TxnOf(s, proc).Idle? && Good(suite, db) && Touches(s.db, db, TxnOf(s, proc))
    ensures Invariant(suite, Ended(s, proc, db))
  {
    var s' := Ended(s, proc, db);
    forall q: int ensures Sound(suite, s', q) {
      assert Sound(suite, s, q);
      if q != proc && !TxnOf(s, q).Idle? {
        OneHolder(suite, s, proc, q);
        FactIsStable(suite, s.db, db, TxnOf(s, q));
      }
    }
  }

  lemma MoveKeepsInvariant(suite: Suite, s: State, proc: int, t: Txn)
    requires Invariant(suite, s) && !TxnOf(s, proc).Idle? && !t.Idle? && t.set_ == TxnOf(s, proc).set_ && Fact(suite, s.db, t)
    ensures Invariant(suite, Moved(s, proc, t))
  {
    var s' := Moved(s, proc, t);
    forall q: int ensures Sound(suite, s', q) {
      assert Sound(suite, s, q);
    }
  }

  lemma LockKeepsInvariant(suite: Suite, s: State, proc: int, t: Txn)
    requires Invariant(suite, s) && TxnOf(s, proc).Idle? && !t.Idle? && t.set_ !in s.locks && Fact(suite, s.db, t)
    ensures Invariant(suite, Locked(s, proc, t))
  {
    var s' := Locked(s, proc, t);
    forall q: int ensures Sound(suite, s', q) {
      assert Sound(suite, s, q);
    }
  }

  /** A write outside every transaction: a new set or a new key. */
  lemma GrowKeepsInvariant(suite: Suite, s: State, db: Tables)
    requires Invariant(suite, s) && Good(suite, db) && Touches(s.db, db, Idle)
    ensures Invariant(suite, s.(db := db))
  {
    var s' := s.(db := db);
    forall q: int ensures Sound(suite, s', q) {
      assert Sound(suite, s, q);
      FactIsStable(suite, s.db, db, TxnOf(s, q));
    }
  }

  lemma CreateSetKeepsGood(suite: Suite, t: Tables, id: int, org: int, path: string)
    requires Good(suite, t) && id !in t.sets
    ensures Good(suite, t.(sets := t.sets[id := SetRow(org, path, None)]))
    ensures Touches(t, t.(sets := t.sets[id := SetRow(org, path, None)]), Idle)
  {
    var t' := t.(sets := t.sets[id := SetRow(org, path, None)]);
    forall s ensures Revs(t', s) == Revs(t, s) && Seqs(t', s) == Seqs(t, s) {
    }
    assert Revs(t, id) == {} && Seqs(t, id) == {};
    assert UpTo({}, 0);
    forall p | IsLatest(t', p) ensures t'.sets[t'.pubs[p].set_].published == Some(t'.pubs[p].version) {
      assert IsLatest(t, p);
    }
    forall k | k in t'.pubs && t'.pubs[k].signature != "" ensures Backed(suite, t', t'.pubs[k]) {
      assert Backed(suite, t, t.pubs[k]);
    }
  }

  lemma AddKeyKeepsGood(suite: Suite, t: Tables, org: int, pk: PublicKey)
    requires Good(suite, t) && (org, suite.keyId(pk)) !in t.keys
    ensures Good(suite, t.(keys := t.keys[(org, suite.keyId(pk)) := pk]))
    ensures Touches(t, t.(keys := t.keys[(org, suite.keyId(pk)) := pk]), Idle)
  {
    var t' := t.(keys := t.keys[(org, suite.keyId(pk)) := pk]);
    forall s ensures Revs(t', s) == Revs(t, s) && Seqs(t', s) == Seqs(t, s) {
    }
    forall p | IsLatest(t', p) ensures t'.sets[t'.pubs[p].set_].published == Some(t'.pubs[p].version) {
      assert IsLatest(t, p);
    }
    forall k | k in t'.pubs && t'.pubs[k].signature != "" ensures Backed(suite, t', t'.pubs[k]) {
      assert Backed(suite, t, t.pubs[k]);
    }
  }

  lemma CommitVersionTouches(t: Tables, id: int, v: Version, x: Txn)
    requires id !in t.versions && !x.Idle? && v.set_ == x.set_
    ensures Touches(t, AddVersion(t, id, v), x)
  {
    forall s | s != x.set_ ensures Revs(AddVersion(t, id, v), s) == Revs(t, s) && Seqs(AddVersion(t, id, v), s) == Seqs(t, s) {
      RevsAfter(t, id, v, s);
      SeqsUnchanged(t, id, v, s);
    }
  }

  lemma CommitPublicationTouches(t: Tables, id: int, p: Publication, x: Txn)
    requires id !in t.pubs && !x.Idle? && p.set_ == x.set_ && p.set_ in t.sets
    ensures Touches(t, AddPublication(t, id, p), x)
  {
    forall s | s != x.set_
      ensures Revs(AddPublication(t, id, p), s) == Revs(t, s) && Seqs(AddPublication(t, id, p), s) == Seqs(t, s)
    {
      SeqsAfter(t, id, p, s);
    }
  }

  /** Every statement of every process keeps the invariant. */
  lemma NextKeepsInvariant(suite: Suite, s: State, s': State, step: Step)
    requires Invariant(suite, s) && Next(suite, s, s', step)
    ensures Invariant(suite, s') && Extends(s.db, s'.db)
  {
    match step
    case CreateSet(id, org, path) =>
      CreateSetKeepsGood(suite, s.db, id, org, path);
      GrowKeepsInvariant(suite, s, s'.db);
    case AddKey(org, pk) =>
      AddKeyKeepsGood(suite, s.db, org, pk);
      GrowKeepsInvariant(suite, s, s'.db);
    case BeginCreate(proc, set_) => LockKeepsInvariant(suite, s, proc, CreateLocked(set_));
    case BeginPublish(proc, set_, req, key) => LockKeepsInvariant(suite, s, proc, PublishLocked(set_, req, key));
    case ReadRevision(proc, _) =>
      assert Sound(suite, s, proc);
      MoveKeepsInvariant(suite, s, proc, TxnOf(s', proc));
    case InsertVersion(proc, _) =>
      assert Sound(suite, s, proc);
      MoveKeepsInvariant(suite, s, proc, TxnOf(s', proc));
    case ReadVersion(proc, _) =>
      assert Sound(suite, s, proc);
      MoveKeepsInvariant(suite, s, proc, TxnOf(s', proc));
    case ReadNumber(proc, _) =>
      assert Sound(suite, s, proc);
      MoveKeepsInvariant(suite, s, proc, TxnOf(s', proc));
    case CheckAndInsert(proc) =>
      assert Sound(suite, s, proc);
      MoveKeepsInvariant(suite, s, proc, TxnOf(s', proc));
    case CommitVersion(proc, id) =>
      var t := TxnOf(s, proc);
      assert Sound(suite, s, proc);
      AddVersionKeepsGood(suite, s.db, id, t.v);
      CommitVersionTouches(s.db, id, t.v, t);
      EndKeepsInvariant(suite, s, proc, s'.db);
    case CommitPublication(proc, id) =>
      var t := TxnOf(s, proc);
      assert Sound(suite, s, proc);
      AddPublicationKeepsGood(suite, s.db, id, t.p);
      CommitPublicationTouches(s.db, id, t.p, t);
      EndKeepsInvariant(suite, s, proc, s'.db);
    case Rollback(proc) =>
      EndKeepsInvariant(suite, s, proc, s.db);
  }

  // ---- runs ----

  const EMPTY: Tables := Tables(map[], map[], map[], map[])

  ghost predicate Run(suite: Suite, run: seq<State>, steps: seq<Step>) {
    && |run| == |steps| + 1
    && run[0] == State(EMPTY, map[], map[])
    && forall i :: 0 <= i < |steps| ==> StepAt(suite, run, steps, i)
  }

  ghost predicate StepAt(suite: Suite, run: seq<State>, steps: seq<Step>, i: int) {
    0 <= i < |steps| && i + 1 < |run| && Next(suite, run[i], run[i + 1], steps[i])
  }

  lemma {:induction false} RunKeepsInvariant(suite: Suite, run: seq<State>, steps: seq<Step>, i: int)
    requires Run(suite, run, steps) && 0 <= i < |run|
    ensures Invariant(suite, run[i])
    decreases i
  {
    if i == 0 {
      assert forall proc: int :: Sound(suite, run[0], proc);
    } else {
      RunKeepsInvariant(suite, run, steps, i - 1);
      assert StepAt(suite, run, steps, i - 1);
      NextKeepsInvariant(suite, run[i - 1], run[i], steps[i - 1]);
    }
  }

  /** Versions, publications and keys stay as they were first committed. */
  lemma {:induction false} RunOnlyAdds(suite: Suite, run: seq<State>, steps: seq<Step>, i: int, j: int)
    requires Run(suite, run, steps) && 0 <= i <= j < |run|
    ensures Extends(run[i].db, run[j].db)
    decreases j
  {
    if i < j {
      RunOnlyAdds(suite, run, steps, i, j - 1);
      RunKeepsInvariant(suite, run, steps, j - 1);
      assert StepAt(suite, run, steps, j - 1);
      NextKeepsInvariant(suite, run[j - 1], run[j], steps[j - 1]);
      ExtendsAgain(run[i].db, run[j - 1].db, run[j].db);
    }
  }

  lemma ExtendsAgain(a: Tables, b: Tables, c: Tables)
    requires Extends(a, b) && Extends(b, c)
    ensures Extends(a, c)
  {
  }

  /** Whatever the interleaving, a set's revisions are 1..n and its publication
      numbers 1..m, it serves the version of publication m, and every stored
      signature verifies for its own row. */
  lemma EveryStateIsNumbered(suite: Suite, run: seq<State>, steps: seq<Step>, i: int, s: int) returns (n: nat, m: nat)
    requires Run(suite, run, steps) && 0 <= i < |run| && s in run[i].db.sets
    ensures UpTo(Revs(run[i].db, s), n) && UpTo(Seqs(run[i].db, s), m)
    ensures m == 0 ==> run[i].db.sets[s].published == None
    ensures forall id :: id in run[i].db.pubs && run[i].db.pubs[id].set_ == s && run[i].db.pubs[id].seq_ == m ==>
      run[i].db.sets[s].published == Some(run[i].db.pubs[id].version)
    ensures forall id :: id in run[i].db.pubs && run[i].db.pubs[id].set_ == s && run[i].db.pubs[id].signature != "" ==>
      run[i].db.pubs[id].version in run[i].db.versions && Backed(suite, run[i].db, run[i].db.pubs[id])
  {
    RunKeepsInvariant(suite, run, steps, i);
    var t := run[i].db;
    n :| UpTo(Revs(t, s), n);
    m :| UpTo(Seqs(t, s), m);
    forall id | id in t.pubs && t.pubs[id].set_ == s && t.pubs[id].seq_ == m
      ensures t.sets[s].published == Some(t.pubs[id].version)
    {
      forall q | q in t.pubs && t.pubs[q].set_ == s ensures t.pubs[q].seq_ <= m {
        assert t.pubs[q].seq_ in Seqs(t, s);
      }
      assert IsLatest(t, id);
    }
  }

  /** A transaction about to commit never meets a row with its number, so the
      unique indexes refuse nothing while the row lock is held. */
  lemma NumberIsFree(suite: Suite, run: seq<State>, steps: seq<Step>, i: int, proc: int)
    requires Run(suite, run, steps) && 0 <= i < |run|
    ensures var t := TxnOf(run[i], proc);
      && (t.CreateInserted? ==> t.v.revision !in Revs(run[i].db, t.set_))
      && (t.PublishInserted? ==> t.p.seq_ !in Seqs(run[i].db, t.set_))
  {
    RunKeepsInvariant(suite, run, steps, i);
    assert Sound(suite, run[i], proc);
  }

  // ---- what is committed was asked for ----

  predicate IsPublish(t: Txn) { t.PublishLocked? || t.PublishVersion? || t.PublishNumber? || t.PublishInserted? }

  predicate IsCreate(t: Txn) { t.CreateLocked? || t.CreateRead? || t.CreateInserted? }

  /** Step `b` began the transaction that the process is in. */
  ghost predicate Began(steps: seq<Step>, b: int, i: int, proc: int, t: Txn) {
    && 0 <= b < i <= |steps|
    && (IsPublish(t) ==> steps[b] == BeginPublish(proc, t.set_, t.req, t.key))
    && (IsCreate(t) ==> steps[b] == BeginCreate(proc, t.set_))
  }

  /** A transaction carries the set and the request it began with. */
  lemma {:induction false} TxnBegan(suite: Suite, run: seq<State>, steps: seq<Step>, i: int, proc: int) returns (b: int)
    requires Run(suite, run, steps) && 0 <= i < |run| && !TxnOf(run[i], proc).Idle?
    ensures Began(steps, b, i, proc, TxnOf(run[i], proc))
    decreases i
  {
    assert StepAt(suite, run, steps, i - 1);
    var before, after := TxnOf(run[i - 1], proc), TxnOf(run[i], proc);
    StepKeepsRequest(suite, run[i - 1], run[i], steps[i - 1], proc);
    if before.Idle? {
      b := i - 1;
    } else {
      b := TxnBegan(suite, run, steps, i - 1, proc);
    }
  }

  /** A statement keeps the set and the request of every open transaction. */
  lemma StepKeepsRequest(suite: Suite, s: State, s': State, step: Step, proc: int)
    requires Next(suite, s, s', step) && !TxnOf(s', proc).Idle?
    ensures
      var t, t' := TxnOf(s, proc), TxnOf(s', proc);
      if t.Idle? then
        (IsPublish(t') ==> step == BeginPublish(proc, t'.set_, t'.req, t'.key)) && (IsCreate(t') ==> step == BeginCreate(proc, t'.set_))
      else
        && t'.set_ == t.set_ && (IsPublish(t') <==> IsPublish(t)) && (IsCreate(t') <==> IsCreate(t))
        && (IsPublish(t') ==> t'.req == t.req && t'.key == t.key)
  {
  }

  /** Whatever the interleaving: a committed publication is what the request that
      began its transaction asked for, and the set serves it. */
  lemma PublishedAsAsked(suite: Suite, run: seq<State>, steps: seq<Step>, i: int) returns (b: int)
    requires Run(suite, run, steps) && 0 <= i < |steps| && steps[i].CommitPublication?
    ensures 0 <= b < i && steps[b].BeginPublish? && steps[b].proc == steps[i].proc
    ensures
      var db, id := run[i + 1].db, steps[i].id;
      && id in db.pubs && Answers(db, steps[b].set_, steps[b].req, db.pubs[id])
      && steps[b].set_ in db.sets && db.sets[steps[b].set_].published == Some(db.pubs[id].version)
  {
    assert StepAt(suite, run, steps, i);
    var proc := steps[i].proc;
    RunKeepsInvariant(suite, run, steps, i);
    assert Sound(suite, run[i], proc);
    b := TxnBegan(suite, run, steps, i, proc);
  }

  /** A version about to be committed holds the text that its process inserted. */
  lemma {:induction false} ContentInserted(suite: Suite, run: seq<State>, steps: seq<Step>, i: int, proc: int) returns (c: int)
    requires Run(suite, run, steps) && 0 <= i < |run| && TxnOf(run[i], proc).CreateInserted?
    ensures 0 <= c < i <= |steps| && steps[c] == InsertVersion(proc, TxnOf(run[i], proc).v.content)
    decreases i
  {
    assert StepAt(suite, run, steps, i - 1);
    InsertKeepsContent(suite, run[i - 1], run[i], steps[i - 1], proc);
    if TxnOf(run[i - 1], proc).CreateInserted? {
      c := ContentInserted(suite, run, steps, i - 1, proc);
    } else {
      c := i - 1;
    }
  }

  lemma InsertKeepsContent(suite: Suite, s: State, s': State, step: Step, proc: int)
    requires Next(suite, s, s', step) && TxnOf(s', proc).CreateInserted?
    ensures TxnOf(s, proc) == TxnOf(s', proc) || step == InsertVersion(proc, TxnOf(s', proc).v.content)
    ensures TxnOf(s, proc).CreateInserted? ==> TxnOf(s, proc) == TxnOf(s', proc)
  {
  }

  /** ... and a committed version holds the text inserted for it, under the next
      revision of the set its transaction was begun on. */
  lemma CreatedAsAsked(suite: Suite, run: seq<State>, steps: seq<Step>, i: int) returns (b: int, c: int)
    requires Run(suite, run, steps) && 0 <= i < |steps| && steps[i].CommitVersion?
    ensures 0 <= b < i && steps[b].BeginCreate? && steps[b].proc == steps[i].proc
    ensures 0 <= c < i && steps[c].InsertVersion? && steps[c].proc == steps[i].proc
    ensures
      var db, id := run[i + 1].db, steps[i].id;
      && id in db.versions && db.versions[id].set_ == steps[b].set_ && db.versions[id].content == steps[c].content
      && IsNext(Revs(run[i].db, steps[b].set_), db.versions[id].revision)
  {
    assert StepAt(suite, run, steps, i);
    var proc := steps[i].proc;
    RunKeepsInvariant(suite, run, steps, i);
    assert Sound(suite, run[i], proc);
    b := TxnBegan(suite, run, steps, i, proc);
    c := ContentInserted(suite, run, steps, i, proc);
  }

  // ---- one process with the database to itself ----

  datatype Error = NotFound | Stale | BadSignature | Rejected
  datatype Result<+T> = Ok(value: T) | Err(error: Error)

  /** The largest number of a table's column, or 0. */
  ghost function Values(rows: map<int, int>): set<int> { set id | id in rows :: rows[id] }

  method MaxNumber(rows: map<int, int>) returns (m: int)
    requires forall id :: id in rows ==> rows[id] >= 1
    ensures IsNext(Values(rows), m + 1)
  {
    m := 0;
    var left := rows.Keys;
    while exists k :: k in left
      invariant left <= rows.Keys && m >= 0
      invariant m == 0 <==> left == rows.Keys
      invariant m > 0 ==> exists id :: id in rows && id !in left && rows[id] == m
      invariant forall id :: id in rows && id !in left ==> rows[id] <= m
      decreases left
    {
      var id :| id in left;
      if rows[id] > m { m := rows[id]; }
      left := left - {id};
    }
    assert left == {};
    if m > 0 {
      assert m in Values(rows);
    } else {
      assert Values(rows) == {};
    }
  }

  ghost predicate IsTimely(t: Tables, s: int, req: Request) {
    req.publication == 0 || IsNext(Seqs(t, s), req.publication)
  }

  /** The signature of the request covers the statement of the next publication. */
  ghost predicate Covers(suite: Suite, t: Tables, s: int, req: Request, key: PublicKey) {
    s in t.sets && forall id, n :: Names(t, s, req, id) && IsNext(Seqs(t, s), n) ==>
      Verify(suite, key, For(suite, t.sets[s].path, n, req.revision, t.versions[id].content), req.signature)
  }

  ghost predicate Acceptable(suite: Suite, t: Tables, s: int, req: Request, key: PublicKey) {
    req.revision in Revs(t, s) && IsTimely(t, s, req) && (req.IsSigned() ==> Covers(suite, t, s, req, key))
  }

  /** The answer to a request that is not acceptable: the first check that fails. */
  ghost function Refusal(suite: Suite, t: Tables, s: int, req: Request, key: PublicKey): Error {
    if req.revision !in Revs(t, s) then NotFound
    else if !IsTimely(t, s, req) then Stale
    else if req.IsSigned() && !Covers(suite, t, s, req, key) then BadSignature
    else Rejected
  }

  lemma NextIsUnique(s: set<int>, x: int, y: int)
    requires IsNext(s, x) && IsNext(s, y)
    ensures x == y
  {
  }

  /** Under the uniqueness of revisions and numbers, one check decides. */
  lemma CoversOne(suite: Suite, t: Tables, s: int, req: Request, key: PublicKey, id: int, n: int)
    requires Unique(t) && s in t.sets && Names(t, s, req, id) && IsNext(Seqs(t, s), n)
    ensures Covers(suite, t, s, req, key) <==>
      Verify(suite, key, For(suite, t.sets[s].path, n, req.revision, t.versions[id].content), req.signature)
  {
    forall i, m | Names(t, s, req, i) && IsNext(Seqs(t, s), m)
      ensures i == id && m == n
    {
      NextIsUnique(Seqs(t, s), m, n);
    }
  }

  class Store {
    var db: Tables

    constructor ()
      ensures db == EMPTY
    {
      db := EMPTY;
    }

    /** SELECT COALESCE(MAX(revision), 0) + 1 FROM versions WHERE set_id = ?. */
    method NextRevision(s: int) returns (revision: int)
      requires s in db.sets && Numbered(db)
      ensures IsNext(Revs(db, s), revision)
    {
      ghost var n: nat :| UpTo(Revs(db, s), n);
      var rows := map id | id in db.versions && db.versions[id].set_ == s :: db.versions[id].revision;
      forall id | id in rows ensures rows[id] >= 1 {
        assert rows[id] in Revs(db, s);
      }
      var m := MaxNumber(rows);
      assert Values(rows) == Revs(db, s) by {
        forall x | x in Revs(db, s) ensures x in Values(rows) {
          var id :| id in db.versions && db.versions[id].set_ == s && db.versions[id].revision == x;
          assert rows[id] == x;
        }
      }
      revision := m + 1;
    }

    /** NextPublication, and the same query inside publish. */
    method NextPublication(s: int) returns (seq_: int)
      requires s in db.sets && Numbered(db)
      ensures IsNext(Seqs(db, s), seq_)
    {
      ghost var n: nat :| UpTo(Seqs(db, s), n);
      var rows := map id | id in db.pubs && db.pubs[id].set_ == s :: db.pubs[id].seq_;
      forall id | id in rows ensures rows[id] >= 1 {
        assert rows[id] in Seqs(db, s);
      }
      var m := MaxNumber(rows);
      assert Values(rows) == Seqs(db, s) by {
        forall x | x in Seqs(db, s) ensures x in Values(rows) {
          var id :| id in db.pubs && db.pubs[id].set_ == s && db.pubs[id].seq_ == x;
          assert rows[id] == x;
        }
      }
      seq_ := m + 1;
    }

    /** createVersion: the next revision, or the tables as they were. */
    method CreateVersion(suite: Suite, s: int, canonical: int -> Option<string>, id: int) returns (r: Result<Version>)
      requires Good(suite, db) && id !in db.versions
      modifies this
      ensures Good(suite, db)
      ensures r.Err? ==> db == old(db)
      ensures r == Err(NotFound) <==> s !in old(db).sets
      ensures r == Err(Rejected) <==> s in old(db).sets && forall n :: IsNext(Revs(old(db), s), n) ==> canonical(n) == None
      ensures r.Err? ==> r.error == NotFound || r.error == Rejected
      ensures r.Ok? ==> s in old(db).sets && r.value.set_ == s && IsNext(Revs(old(db), s), r.value.revision)
      ensures r.Ok? ==> canonical(r.value.revision) == Some(r.value.content) && db == AddVersion(old(db), id, r.value)
    {
      if s !in db.sets {
        return Err(NotFound);
      }
      var revision := NextRevision(s);
      var content := canonical(revision);
      if content.None? {
        return Err(Rejected);
      }
      var v := Version(s, revision, content.value);
      AddVersionKeepsGood(suite, db, id, v);
      db := AddVersion(db, id, v);
      r := Ok(v);
    }

    method FindVersion(s: int, revision: int) returns (id: Option<int>)
      ensures id.Some? ==> id.value in db.versions && db.versions[id.value].set_ == s && db.versions[id.value].revision == revision
      ensures id.None? ==> forall k :: k in db.versions && db.versions[k].set_ == s ==> db.versions[k].revision != revision
    {
      var left := db.versions.Keys;
      while exists k :: k in left
        invariant forall k :: k in db.versions && k !in left && db.versions[k].set_ == s ==> db.versions[k].revision != revision
        invariant left <= db.versions.Keys
        decreases left
      {
        var k :| k in left;
        if db.versions[k].set_ == s && db.versions[k].revision == revision {
          return Some(k);
        }
        left := left - {k};
      }
      return None;
    }

    /** publish: the revision becomes the one the set serves, under the next
        number, or the tables stay as they were. */
    method Publish(suite: Suite, s: int, req: Request, key: PublicKey, id: int) returns (r: Result<Publication>)
      requires Good(suite, db) && id !in db.pubs && req.IsComplete() && (s in db.sets ==> KeyRead(db, s, req, key))
      modifies this
      ensures Good(suite, db)
      ensures r.Err? ==> db == old(db)
      ensures r.Err? ==> r.error == Refusal(suite, old(db), s, req, key)
      ensures r.Ok? ==> Acceptable(suite, old(db), s, req, key)
      ensures r.Ok? ==> Publishable(suite, old(db), r.value) && db == AddPublication(old(db), id, r.value)
      ensures r.Ok? ==> r.value.set_ == s && old(db).versions[r.value.version].revision == req.revision
      ensures r.Ok? ==> r.value.keyId == req.keyId && r.value.signature == req.signature
    {
      var version := FindVersion(s, req.revision);
      if version.None? {
        return Err(NotFound);
      }
      assert Names(db, s, req, version.value) && db.versions[version.value].revision in Revs(db, s);
      var v := db.versions[version.value];
      VersionHasSet(db, version.value);
      var seq_ := NextPublication(s);
      if req.publication != 0 && req.publication != seq_ {
        assert IsNext(Seqs(db, s), req.publication) ==> req.publication == seq_ by {
          if IsNext(Seqs(db, s), req.publication) {
            NextIsUnique(Seqs(db, s), req.publication, seq_);
          }
        }
        return Err(Stale);
      }
      CoversOne(suite, db, s, req, key, version.value, seq_);
      if req.IsSigned() && !Verify(suite, key, For(suite, db.sets[s].path, seq_, v.revision, v.content), req.signature) {
        return Err(BadSignature);
      }
      var p := Publication(s, seq_, version.value, req.keyId, req.signature);
      AddPublicationKeepsGood(suite, db, id, p);
      db := AddPublication(db, id, p);
      r := Ok(p);
    }

    /** The set's newest publication. */
    method LatestPublication(s: int) returns (p: Option<int>)
      ensures p.Some? ==> IsLatest(db, p.value) && db.pubs[p.value].set_ == s
      ensures p.None? ==> Seqs(db, s) == {}
    {
      p := None;
      var left := db.pubs.Keys;
      while exists k :: k in left
        invariant left <= db.pubs.Keys
        invariant p.Some? ==> p.value in db.pubs && db.pubs[p.value].set_ == s
        invariant forall k :: k in db.pubs && k !in left && db.pubs[k].set_ == s ==>
          p.Some? && db.pubs[k].seq_ <= db.pubs[p.value].seq_
        decreases left
      {
        var k :| k in left;
        if db.pubs[k].set_ == s && (p.None? || db.pubs[k].seq_ > db.pubs[p.value].seq_) {
          p := Some(k);
        }
        left := left - {k};
      }
    }
  }
}
