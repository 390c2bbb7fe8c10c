/** The rule server and the operator together: what a cluster accepts is what
    a publisher signed, and what was published and signed is accepted. */
module Publishing {
  import opened Common
  import opened Signing
  import opened RuleStore
  import opened RemoteRules

  // ---- the server's reads ----

  /** Published: the version the set serves. */
  ghost predicate ReadsPublished(t: Tables, s: int, v: Version) {
    && s in t.sets && t.sets[s].published.Some?
    && t.sets[s].published.value in t.versions
    && v == t.versions[t.sets[s].published.value]
  }

  /** LatestPublication: the newest publication of the set. */
  ghost predicate ReadsLatest(t: Tables, s: int, p: Publication) {
    exists id :: IsLatest(t, id) && t.pubs[id] == p && p.set_ == s
  }

  /** serveSignature: the body built from its two reads. */
  function ServedSignature(suite: Suite, path: string, p: Publication, v: Version): SignatureFile {
    var st := For(suite, path, p.seq_, v.revision, v.content);
    SignatureFile(st.set_, st.publication, st.revision, st.sha256, p.keyId, p.signature)
  }

  /** The operator's check accepts the pair. */
  ghost predicate Accepts(suite: Suite, sf: SignatureFile, body: string, set_: string, keys: seq<TrustedKey>, floor: int) {
    FileFits(suite, sf, body, set_, keys) && sf.publication >= floor
  }

  /** A file and signature read with no publish in between are accepted by any
      cluster that trusts the key and has a floor at or below the number, exactly
      when the stored signature text holds no blank but line ends. */
  lemma QuietPullIsAccepted(suite: Suite, t: Tables, s: int, p: Publication, v: Version, keys: seq<TrustedKey>, floor: int)
    requires Good(suite, t) && IsBase64(suite.base64)
    requires ReadsLatest(t, s, p) && ReadsPublished(t, s, v) && p.signature != ""
    requires KeyById(keys, p.keyId).Some? && (t.sets[s].org, p.keyId) in t.keys
    requires KeyById(keys, p.keyId).value.key == t.keys[(t.sets[s].org, p.keyId)]
    requires floor <= p.seq_
    ensures Accepts(suite, ServedSignature(suite, t.sets[s].path, p, v), v.content, t.sets[s].path, keys, floor)
      <==> OnlyLineEnds(p.signature)
  {
    var id :| IsLatest(t, id) && t.pubs[id] == p && p.set_ == s;
    assert Backed(suite, t, t.pubs[id]);
    assert v == t.versions[p.version];
    UntrimmedDecodes(suite, p.signature);
    if !OnlyLineEnds(p.signature) {
      PaddedIsRefused(suite, p.signature);
    }
  }

  lemma PaddedIsRefused(suite: Suite, sig: string)
    requires IsBase64(suite.base64) && !OnlyLineEnds(sig)
    ensures suite.base64(sig) == None
  {
  }

  /** A concrete text the server stores and the operator refuses: one trailing space. */
  lemma PaddingRefusedExample(suite: Suite, key: PublicKey, st: Statement, sig: string)
    requires IsBase64(suite.base64) && Verify(suite, key, st, sig) && sig == Trim(sig)
    ensures Verify(suite, key, st, sig + " ") && suite.base64(sig + " ") == None
  {
    var padded := sig + " ";
    assert padded[|sig|] == ' ' && ' ' in padded;
    assert padded[..|padded| - 1] == sig;
    TrimPadded(sig);
  }

  lemma TrimPadded(s: string)
    requires s == Trim(s)
    ensures Trim(s + " ") == s
  {
    TrimLeftStops(s);
    TrimRightIsPrefix(TrimLeft(s));
    var padded := s + " ";
    if s == [] {
      assert padded == " ";
      assert TrimLeft(padded) == TrimLeft(padded[1..]) == [];
    } else {
      assert s[0] == TrimLeft(s)[0];
      assert TrimLeft(s) == s;
      assert padded[0] == s[0];
      assert TrimLeft(padded) == padded;
      assert padded[..|padded| - 1] == s;
      assert TrimRight(padded) == TrimRight(s);
    }
  }

  // ---- unforgeability ----

  /** What the holders of the trusted private keys ever signed. */
  type Issues = set<(PublicKey, Statement)>

  /** Hashes are written in hexadecimal. */
  ghost predicate IsHex(suite: Suite, issued: Issues) {
    && (forall x :: x in issued ==> '\n' !in x.1.sha256)
    && (forall content :: '\n' !in suite.digest(content))
  }

  /** One check that somebody makes: if it succeeds, the text was signed with that
      key. A forger would have to find a signature that makes this false; nothing
      is said about signatures that nobody presents. */
  ghost predicate Genuine(suite: Suite, issued: Issues, key: PublicKey, text: string, sig: string) {
    suite.verify(key, text, sig) ==> exists x :: x in issued && x.0 == key && x.1.Text() == text
  }

  lemma SignedWasIssued(suite: Suite, issued: Issues, key: PublicKey, st: Statement, sig: string)
    requires IsHex(suite, issued) && '\n' !in st.sha256
    requires Genuine(suite, issued, key, st.Text(), sig) && suite.verify(key, st.Text(), sig)
    ensures (key, st) in issued
  {
    var x :| x in issued && x.0 == key && x.1.Text() == st.Text();
    TextIsInjective(x.1, st);
  }

  /** The check the operator makes of a signature file and a body is no forgery. */
  ghost predicate GenuineFile(suite: Suite, issued: Issues, keys: seq<TrustedKey>, set_: string, sf: SignatureFile, body: string) {
    KeyById(keys, sf.keyId).Some? && suite.base64(sf.signature).Some? ==>
      Genuine(suite, issued, KeyById(keys, sf.keyId).value.key, For(suite, set_, sf.publication, sf.revision, body).Text(),
              suite.base64(sf.signature).value)
  }

  lemma FitsWasIssued(suite: Suite, issued: Issues, keys: seq<TrustedKey>, set_: string, sf: SignatureFile, body: string)
    requires IsHex(suite, issued) && GenuineFile(suite, issued, keys, set_, sf, body) && FileFits(suite, sf, body, set_, keys)
    ensures (KeyById(keys, sf.keyId).value.key, For(suite, set_, sf.publication, sf.revision, body)) in issued
  {
    SignedWasIssued(suite, issued, KeyById(keys, sf.keyId).value.key, For(suite, set_, sf.publication, sf.revision, body),
                    suite.base64(sf.signature).value);
  }

  /** However the three reads of a pull race with publishes, an accepted pair is
      one a trusted key signed: this set, this number, this very file. */
  lemma RacedPullWasSigned(suite: Suite, keys: seq<TrustedKey>, issued: Issues, path: string,
                           served: Version, p: Publication, v: Version, floor: int)
    requires IsHex(suite, issued)
    requires GenuineFile(suite, issued, keys, path, ServedSignature(suite, path, p, v), served.content)
    requires Accepts(suite, ServedSignature(suite, path, p, v), served.content, path, keys, floor)
    ensures (KeyById(keys, p.keyId).value.key, For(suite, path, p.seq_, v.revision, served.content)) in issued
    ensures p.seq_ >= floor
  {
    FitsWasIssued(suite, issued, keys, path, ServedSignature(suite, path, p, v), served.content);
  }

  /** Two files with equal statement texts are one file, unless their hashes collide. */
  lemma StatementNamesItsFile(suite: Suite, set_: string, n: int, r: int, body: string, m: int, q: int, other: string)
    requires suite.digest(body) == suite.digest(other) ==> body == other
    requires For(suite, set_, n, r, body).Text() == For(suite, set_, m, q, other).Text()
    requires '\n' !in suite.digest(body) && '\n' !in suite.digest(other)
    ensures body == other && n == m && r == q
  {
    TextIsInjective(For(suite, set_, n, r, body), For(suite, set_, m, q, other));
  }

  // ---- runs of the operator ----

  /** A trusted key holder issued this file for the expected set under this number. */
  ghost predicate IssuedFor(suite: Suite, cfg: SignatureConfig, issued: Issues, v: Verified, body: string) {
    && cfg.Required? && KeyById(cfg.keys, v.keyId).Some?
    && exists revision: int ::
      (KeyById(cfg.keys, v.keyId).value.key, For(suite, cfg.set_, v.publication, revision, body)) in issued
  }

  ghost predicate CopyWasIssued<D>(suite: Suite, cfg: SignatureConfig, parse: string -> Option<D>, issued: Issues, cm: Option<Stored>) {
    HasCopy(cfg, parse, cm) ==> IssuedFor(suite, cfg, issued, SignerOf(cm.value), Entry(cm.value.data, REMOTE_KEY))
  }

  /** The signature that an answer presents for its body is no forgery. */
  ghost predicate GenuineAnswer(suite: Suite, cfg: SignatureConfig, issued: Issues, a: Answer)
    requires cfg.Required?
  {
    a.File? && a.signature.Accepted? && a.signature.value.Some? ==>
      GenuineFile(suite, issued, cfg.keys, cfg.set_, a.signature.value.value, a.body)
  }

  /** What a pull hands to the renderer was issued. */
  lemma PullWasIssued<D>(suite: Suite, cfg: SignatureConfig, parse: string -> Option<D>, issued: Issues, cm: Option<Stored>, a: Answer)
    requires Sane(suite, cfg, parse) && IsHex(suite, issued) && GenuineAnswer(suite, cfg, issued, a)
    requires CopyWasIssued(suite, cfg, parse, issued, cm)
    ensures var out := PullOnce(suite, cfg, parse, cm, a);
      out.doc.Some? ==> IssuedFor(suite, cfg, issued, out.verified, out.raw)
  {
    var good := LastGood(cfg, parse, cm);
    if a.File? && Judge(suite, cfg, parse, a, good.verified.publication).Accepted? {
      FitsWasIssued(suite, issued, cfg.keys, cfg.set_, a.signature.value.value, a.body);
    } else {
      assert PullOnce(suite, cfg, parse, cm, a).(failure := None) == good;
    }
  }

  lemma ReconcileKeepsIssued<D>(suite: Suite, cfg: SignatureConfig, parse: string -> Option<D>, hash: string -> string,
                                issued: Issues, cm: Option<Stored>, round: Round)
    requires Sane(suite, cfg, parse) && Decoded(round.answer) && CopyIsSigned(suite, cfg, parse, cm)
    requires IsHex(suite, issued) && GenuineAnswer(suite, cfg, issued, round.answer)
    requires CopyWasIssued(suite, cfg, parse, issued, cm)
    ensures CopyWasIssued(suite, cfg, parse, issued, Reconcile(suite, cfg, parse, hash, cm, round))
  {
    if round.written {
      var before := if cm.Some? then cm.value else Stored(map[], map[]);
      var out := PullOnce(suite, cfg, parse, cm, round.answer);
      PullIsSigned(suite, cfg, parse, cm, round.answer);
      PullWasIssued(suite, cfg, parse, issued, cm, round.answer);
      if out.doc.Some? {
        RenderedReadsBack(suite, cfg, parse, before, out, Floor(cfg, parse, cm), round.file, hash);
      } else {
        DistinctNames();
      }
    }
  }

  ghost predicate AllGenuine(suite: Suite, cfg: SignatureConfig, issued: Issues, rounds: seq<Round>)
    requires cfg.Required?
  {
    forall i :: 0 <= i < |rounds| ==> GenuineAnswer(suite, cfg, issued, rounds[i].answer)
  }

  lemma {:induction false} RunKeepsIssued<D>(suite: Suite, cfg: SignatureConfig, parse: string -> Option<D>, hash: string -> string,
                                             cms: seq<Option<Stored>>, cfgs: seq<SignatureConfig>, rounds: seq<Round>, i: nat, issued: Issues)
    requires SoundRun(suite, cfg, parse, hash, cms, cfgs, rounds)
    requires i < |cms| && CopyWasIssued(suite, cfg, parse, issued, cms[0])
    requires IsHex(suite, issued) && AllGenuine(suite, cfg, issued, rounds)
    ensures CopyWasIssued(suite, cfg, parse, issued, cms[i])
    decreases i
  {
    if i > 0 {
      RunKeepsIssued(suite, cfg, parse, hash, cms, cfgs, rounds, i - 1, issued);
      RunKeepsSigned(suite, cfg, parse, hash, cms, cfgs, rounds, i - 1);
      assert ReconcileAt(suite, parse, hash, cms, cfgs, rounds, i - 1);
      ReconcileKeepsIssued(suite, cfg, parse, hash, issued, cms[i - 1], rounds[i - 1]);
    }
  }

  /** Over any run of reconciles in which no answer forges a signature, every
      rendered remote document is the file of a statement some trusted key holder
      issued for the expected set. The first copy, if there is one, was issued too. */
  lemma RenderedWasIssued<D>(suite: Suite, cfg: SignatureConfig, parse: string -> Option<D>, hash: string -> string,
                             cms: seq<Option<Stored>>, cfgs: seq<SignatureConfig>, rounds: seq<Round>, i: nat, issued: Issues)
    requires SoundRun(suite, cfg, parse, hash, cms, cfgs, rounds)
    requires i < |rounds| && CopyWasIssued(suite, cfg, parse, issued, cms[0])
    requires IsHex(suite, issued) && AllGenuine(suite, cfg, issued, rounds)
    ensures var out := PullOnce(suite, cfg, parse, cms[i], rounds[i].answer);
      out.doc.Some? ==> parse(out.raw) == out.doc && IssuedFor(suite, cfg, issued, out.verified, out.raw)
  {
    RunRendersSigned(suite, cfg, parse, hash, cms, cfgs, rounds, i);
    RunKeepsIssued(suite, cfg, parse, hash, cms, cfgs, rounds, i, issued);
    PullWasIssued(suite, cfg, parse, issued, cms[i], rounds[i].answer);
  }
}
