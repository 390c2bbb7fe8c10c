/** The operator's side of remote rules: the signature check, one pull of a
    policy, the ConfigMap that keeps the last good copy, and every run of
    reconciles against arbitrary answers. */
module RemoteRules {
  import opened Common
  import opened Signing

  datatype TrustedKey = TrustedKey(id: string, key: PublicKey)
  datatype SignatureFile = SignatureFile(set_: string, publication: int, revision: int, sha256: string, keyId: string, signature: string)
  datatype Verified = Verified(publication: int, keyId: string)

  datatype Reason =
    | SignatureInvalid | SignatureUntrusted | SignatureReplayed | SignatureConfig | SignatureMissing
    | SecretNotFound | FetchFailed | InvalidFile

  datatype Outcome<+T> = Accepted(value: T) | Refused(reason: Reason)

  // ---- trusted keys ----

  const KEY_PREFIX: string := "ed25519:"
  const KEY_SIZE: int := 32

  /** The key a configured text stands for, if it is one. */
  function KeyOf(suite: Suite, text: string): Option<TrustedKey> {
    var s := Trim(text);
    if !(KEY_PREFIX <= s) then None
    else match suite.base64(s[|KEY_PREFIX|..])
      case None => None
      case Some(raw) => if |raw| != KEY_SIZE then None else Some(TrustedKey(suite.keyId(raw), raw))
  }

  /** ParseTrustedKeys: every key, in order, or nothing. */
  method ParseTrustedKeys(suite: Suite, texts: seq<string>) returns (keys: Option<seq<TrustedKey>>)
    ensures keys.None? <==> texts == [] || exists i :: 0 <= i < |texts| && KeyOf(suite, texts[i]).None?
    ensures keys.Some? ==> |keys.value| == |texts|
    ensures keys.Some? ==> forall i :: 0 <= i < |texts| ==> KeyOf(suite, texts[i]) == Some(keys.value[i])
    ensures keys.Some? ==> TrustedIds(suite, keys.value)
  {
    var out := [];
    for i := 0 to |texts|
      invariant |out| == i
      invariant forall k :: 0 <= k < i ==> KeyOf(suite, texts[k]) == Some(out[k])
    {
      var k := KeyOf(suite, texts[i]);
      if k.None? {
        return None;
      }
      out := out + [k.value];
    }
    if |out| == 0 {
      return None;
    }
    forall i | 0 <= i < |out| ensures out[i].id == suite.keyId(out[i].key) {
      assert KeyOf(suite, texts[i]) == Some(out[i]);
    }
    return Some(out);
  }

  ghost predicate TrustedIds(suite: Suite, keys: seq<TrustedKey>) {
    && keys != []
    && forall i :: 0 <= i < |keys| ==> keys[i].id == suite.keyId(keys[i].key)
  }

  /** The last configured key of an id; ids are 64 bits of a hash, so two keys may share one. */
  function KeyById(keys: seq<TrustedKey>, id: string): (k: Option<TrustedKey>)
    ensures k.None? <==> forall i :: 0 <= i < |keys| ==> keys[i].id != id
    ensures k.Some? ==> k.value in keys && k.value.id == id
  {
    if keys == [] then None
    else if keys[|keys| - 1].id == id then Some(keys[|keys| - 1])
    else KeyById(keys[..|keys| - 1], id)
  }

  method FindKey(keys: seq<TrustedKey>, id: string) returns (k: Option<TrustedKey>)
    ensures k == KeyById(keys, id)
  {
    k := None;
    for i := 0 to |keys|
      invariant k == KeyById(keys[..i], id)
    {
      assert keys[..i + 1][..i] == keys[..i];
      if keys[i].id == id {
        k := Some(keys[i]);
      }
    }
    assert keys[..|keys|] == keys;
  }

  // ---- the check ----

  /** A trusted key signed, for this set and number, a statement about exactly this file. */
  ghost predicate SignedFor(suite: Suite, keys: seq<TrustedKey>, set_: string, v: Verified, body: string) {
    exists revision: int, sig: string ::
      && KeyById(keys, v.keyId).Some?
      && |sig| == SIGNATURE_SIZE
      && suite.verify(KeyById(keys, v.keyId).value.key, For(suite, set_, v.publication, revision, body).Text(), sig)
  }

  /** The decoded signature file fits the body. */
  predicate FileFits(suite: Suite, sf: SignatureFile, body: string, set_: string, keys: seq<TrustedKey>) {
    && KeyById(keys, sf.keyId).Some?
    && SignatureFits(suite, KeyById(keys, sf.keyId).value.key,
                     For(suite, set_, sf.publication, sf.revision, body).Text(), suite.base64(sf.signature))
  }

  lemma FitsIsSigned(suite: Suite, sf: SignatureFile, body: string, set_: string, keys: seq<TrustedKey>)
    requires FileFits(suite, sf, body, set_, keys)
    ensures SignedFor(suite, keys, set_, Verified(sf.publication, sf.keyId), body)
  {
  }

  /** Check: `sigBody` is the signature file as the JSON decoder read it. */
  method Check(suite: Suite, sigBody: Option<SignatureFile>, body: string, set_: string, keys: seq<TrustedKey>, floor: int)
    returns (r: Outcome<Verified>)
    ensures r.Accepted? <==> sigBody.Some? && FileFits(suite, sigBody.value, body, set_, keys) && sigBody.value.publication >= floor
    ensures r.Accepted? ==> r.value == Verified(sigBody.value.publication, sigBody.value.keyId)
    ensures r.Accepted? ==> SignedFor(suite, keys, set_, r.value, body)
    ensures r == Refused(SignatureUntrusted) <==> sigBody.Some? && KeyById(keys, sigBody.value.keyId).None?
    ensures r == Refused(SignatureInvalid) <==>
      sigBody.None? || (KeyById(keys, sigBody.value.keyId).Some? && !FileFits(suite, sigBody.value, body, set_, keys))
    ensures r == Refused(SignatureReplayed) <==>
      sigBody.Some? && FileFits(suite, sigBody.value, body, set_, keys) && sigBody.value.publication < floor
  {
    if sigBody.None? {
      return Refused(SignatureInvalid);
    }
    var sf := sigBody.value;
    var key := FindKey(keys, sf.keyId);
    if key.None? {
      return Refused(SignatureUntrusted);
    }
    var text := HEADER + "\n" +
    "set: " + set_ + "\n" +
    "publication: " + FormatInt(sf.publication) + "\n" +
    "revision: " + FormatInt(sf.revision) + "\n" +
    "sha256: " + suite.digest(body) + "\n";
    assert text == For(suite, set_, sf.publication, sf.revision, body).Text();
    var sig := suite.base64(sf.signature);
    if !SignatureFits(suite, key.value.key, text, sig) {
      return Refused(SignatureInvalid);
    }
    if sf.publication < floor {
      return Refused(SignatureReplayed);
    }
    FitsIsSigned(suite, sf, body, set_, keys);
    return Accepted(Verified(sf.publication, sf.keyId));
  }

  // ---- one pull ----

  const POLICY_KEY: string := "policy.json"
  const REMOTE_KEY: string := "remote.json"
  const HASH: string := "pii-shield.io/policy-hash"
  const REMOTE_HASH: string := "pii-shield.io/remote-hash"
  const REMOTE_ETAG: string := "pii-shield.io/remote-etag"
  const REMOTE_PUBLICATION: string := "pii-shield.io/remote-publication"
  const REMOTE_SIGNED_BY: string := "pii-shield.io/remote-signed-by"

  /** A ConfigMap's data and annotations. */
  datatype Stored = Stored(data: map<string, string>, notes: map<string, string>)

  /** A missing entry reads as the empty string. */
  function Entry(m: map<string, string>, k: string): string { if k in m then m[k] else "" }

  /** spec.remoteConfig.signature: absent, unusable, or the keys and set it names. */
  datatype SignatureConfig = NotRequired | Unusable | Required(keys: seq<TrustedKey>, set_: string)

  /** What the network gives one pull: errors, a 304, or a body with the answer for its signature. */
  datatype Answer =
    | NoSecret
    | NoFile(reason: Reason)
    | Unchanged
    | File(body: string, etag: string, signature: Outcome<Option<SignatureFile>>)

  /** remoteOutcome without its status texts: `failure` is the condition's reason. */
  datatype Pull<+D> = Pull(doc: Option<D>, raw: string, etag: string, verified: Verified, failure: Option<Reason>)

  const UNVERIFIED: Verified := Verified(0, "")

  predicate IsTrusted(keys: seq<TrustedKey>, id: string) {
    exists i :: 0 <= i < |keys| && id != "" && keys[i].id == id
  }

  /** The ConfigMap holds a copy this configuration may use again. */
  predicate HasCopy<D>(cfg: SignatureConfig, parse: string -> Option<D>, cm: Option<Stored>) {
    && !cfg.Unusable?
    && cm.Some?
    && Entry(cm.value.data, REMOTE_KEY) != ""
    && parse(Entry(cm.value.data, REMOTE_KEY)).Some?
    && (cfg.Required? ==> IsTrusted(cfg.keys, Entry(cm.value.notes, REMOTE_SIGNED_BY)))
  }

  function SignerOf(cm: Stored): Verified {
    Verified(ParseInt64(Entry(cm.notes, REMOTE_PUBLICATION)), Entry(cm.notes, REMOTE_SIGNED_BY))
  }

  /** The last good copy as a pull outcome. */
  function LastGood<D>(cfg: SignatureConfig, parse: string -> Option<D>, cm: Option<Stored>): Pull<D> {
    if HasCopy(cfg, parse, cm) then
      var raw := Entry(cm.value.data, REMOTE_KEY);
      Pull(parse(raw), raw, Entry(cm.value.notes, REMOTE_ETAG), if cfg.Required? then SignerOf(cm.value) else UNVERIFIED, None)
    else Pull(None, "", "", UNVERIFIED, None)
  }

  /** The verdict on a pulled body. */
  function Judge<D>(suite: Suite, cfg: SignatureConfig, parse: string -> Option<D>, a: Answer, floor: int): Outcome<Verified>
    requires a.File? && !cfg.Unusable?
  {
    if parse(a.body).None? then Refused(InvalidFile)
    else if cfg.NotRequired? then Accepted(UNVERIFIED)
    else match a.signature
      case Refused(_) => Refused(SignatureMissing)
      case Accepted(None) => Refused(SignatureInvalid)
      case Accepted(Some(sf)) =>
        if KeyById(cfg.keys, sf.keyId).None? then Refused(SignatureUntrusted)
        else if !FileFits(suite, sf, a.body, cfg.set_, cfg.keys) then Refused(SignatureInvalid)
        else if sf.publication < floor then Refused(SignatureReplayed)
        else Accepted(Verified(sf.publication, sf.keyId))
  }

  /** What one pull leaves, as a function of the ConfigMap and the answer. */
  function PullOnce<D>(suite: Suite, cfg: SignatureConfig, parse: string -> Option<D>, cm: Option<Stored>, a: Answer): Pull<D> {
    if cfg.Unusable? then Pull(None, "", "", UNVERIFIED, Some(SignatureConfig))
    else
      var good := LastGood(cfg, parse, cm);
      match a
      case NoSecret => good.(failure := Some(SecretNotFound))
      case NoFile(reason) => good.(failure := Some(reason))
      case Unchanged => if good.etag == "" then good.(failure := Some(FetchFailed)) else good
      case File(body, etag, _) =>
        match Judge(suite, cfg, parse, a, good.verified.publication)
        case Refused(reason) => good.(failure := Some(reason))
        case Accepted(v) => Pull(parse(body), body, etag, v, None)
  }

  method SearchTrusted(keys: seq<TrustedKey>, id: string) returns (r: bool)
    ensures r == IsTrusted(keys, id)
  {
    for i := 0 to |keys|
      invariant forall k :: 0 <= k < i ==> id == "" || keys[k].id != id
    {
      if id != "" && keys[i].id == id {
        return true;
      }
    }
    return false;
  }

  /** The last good copy, read from the ConfigMap field by field. */
  method ReadLastGood<D>(cfg: SignatureConfig, parse: string -> Option<D>, cm: Option<Stored>) returns (out: Pull<D>)
    requires !cfg.Unusable?
    ensures out == LastGood(cfg, parse, cm)
  {
    out := Pull(None, "", "", UNVERIFIED, None);
    if cm.Some? {
      var s := Entry(cm.value.data, REMOTE_KEY);
      if s != "" {
        var doc := parse(s);
        var usable := doc.Some?;
        if usable && cfg.Required? {
          usable := SearchTrusted(cfg.keys, Entry(cm.value.notes, REMOTE_SIGNED_BY));
        }
        if usable {
          out := out.(doc := doc, raw := s, etag := Entry(cm.value.notes, REMOTE_ETAG));
          if cfg.Required? {
            var pub := ParseInt64(Entry(cm.value.notes, REMOTE_PUBLICATION));
            out := out.(verified := Verified(pub, Entry(cm.value.notes, REMOTE_SIGNED_BY)));
          }
        }
      }
    }
  }

  /** syncRemote. */
  method SyncRemote<D>(suite: Suite, cfg: SignatureConfig, parse: string -> Option<D>, cm: Option<Stored>, a: Answer)
    returns (out: Pull<D>)
    ensures out == PullOnce(suite, cfg, parse, cm, a)
  {
    if cfg.Unusable? {
      return Pull(None, "", "", UNVERIFIED, Some(SignatureConfig));
    }
    out := ReadLastGood(cfg, parse, cm);
    if a.NoSecret? {
      return out.(failure := Some(SecretNotFound));
    }
    if a.NoFile? {
      return out.(failure := Some(a.reason));
    }
    if a.Unchanged? {
      if out.etag == "" {
        return out.(failure := Some(FetchFailed));
      }
      return out;
    }
    var doc := parse(a.body);
    if doc.None? {
      return out.(failure := Some(InvalidFile));
    }
    var verified := UNVERIFIED;
    if cfg.Required? {
      if a.signature.Refused? {
        return out.(failure := Some(SignatureMissing));
      }
      var r := Check(suite, a.signature.value, a.body, cfg.set_, cfg.keys, out.verified.publication);
      if r.Refused? {
        return out.(failure := Some(r.reason));
      }
      verified := r.value;
    }
    out := out.(doc := doc, raw := a.body, etag := a.etag, verified := verified);
  }

  // ---- the ConfigMap ----

  /** The annotations that describe the remote copy. */
  function RemoteNotes<D>(notes: map<string, string>, out: Pull<D>, rawHash: string): map<string, string> {
    if out.doc.None? then notes - {REMOTE_HASH, REMOTE_ETAG, REMOTE_SIGNED_BY, REMOTE_PUBLICATION}
    else
      var hashed := notes[REMOTE_HASH := rawHash];
      var tagged := if out.etag != "" then hashed[REMOTE_ETAG := out.etag] else hashed - {REMOTE_ETAG};
      if out.verified.keyId != "" then
        tagged[REMOTE_SIGNED_BY := out.verified.keyId][REMOTE_PUBLICATION := FormatInt(out.verified.publication)]
      else tagged - {REMOTE_SIGNED_BY, REMOTE_PUBLICATION}
  }

  /** The ConfigMap after a write: the rendered file, the copy and what describes it. */
  function Rendered<D>(cm: Stored, out: Pull<D>, file: string, hash: string -> string): Stored {
    Stored(
      if out.doc.Some? then map[POLICY_KEY := file, REMOTE_KEY := out.raw] else map[POLICY_KEY := file],
      RemoteNotes(cm.notes[HASH := hash(file)], out, hash(out.raw)))
  }

  class ConfigMap {
    var data: map<string, string>
    var annotations: map<string, string>

    function Value(): Stored
      reads this
    {
      Stored(data, annotations)
    }

    constructor ()
      ensures Value() == Stored(map[], map[])
    {
      data, annotations := map[], map[];
    }

    /** renderConfigMap's annotations about the remote copy. */
    method Annotate<D>(out: Pull<D>, rawHash: string)
      modifies `annotations
      ensures annotations == RemoteNotes(old(annotations), out, rawHash)
    {
      if out.doc.Some? {
        annotations := annotations[REMOTE_HASH := rawHash];
        if out.etag != "" {
          annotations := annotations[REMOTE_ETAG := out.etag];
        } else {
          annotations := annotations - {REMOTE_ETAG};
        }
        if out.verified.keyId != "" {
          annotations := annotations[REMOTE_SIGNED_BY := out.verified.keyId];
          annotations := annotations[REMOTE_PUBLICATION := FormatInt(out.verified.publication)];
        } else {
          annotations := annotations - {REMOTE_SIGNED_BY, REMOTE_PUBLICATION};
        }
      } else {
        annotations := annotations - {REMOTE_HASH, REMOTE_ETAG, REMOTE_SIGNED_BY, REMOTE_PUBLICATION};
      }
    }

    /** renderConfigMap's update of the object. */
    method Render<D>(out: Pull<D>, file: string, hash: string -> string)
      modifies this
      ensures Value() == Rendered(old(Value()), out, file, hash)
    {
      annotations := annotations[HASH := hash(file)];
      data := map[POLICY_KEY := file];
      if out.doc.Some? {
        data := data[REMOTE_KEY := out.raw];
        assert data == map[POLICY_KEY := file, REMOTE_KEY := out.raw];
      }
      Annotate(out, hash(out.raw));
    }
  }

  // ---- reconciles ----

  /** One reconcile. `written` is false when the API server refused the write. */
  datatype Round = Round(answer: Answer, file: string, written: bool)

  function Reconcile<D>(suite: Suite, cfg: SignatureConfig, parse: string -> Option<D>, hash: string -> string,
                        cm: Option<Stored>, round: Round): Option<Stored>
  {
    if !round.written then cm
    else
      var before := if cm.Some? then cm.value else Stored(map[], map[]);
      Some(Rendered(before, PullOnce(suite, cfg, parse, cm, round.answer), round.file, hash))
  }

  /** The replay floor the next pull will use. */
  function Floor<D>(cfg: SignatureConfig, parse: string -> Option<D>, cm: Option<Stored>): int {
    LastGood(cfg, parse, cm).verified.publication
  }

  /** A kept copy was signed, by a key trusted now, for this set and the recorded number. */
  ghost predicate CopyIsSigned<D>(suite: Suite, cfg: SignatureConfig, parse: string -> Option<D>, cm: Option<Stored>) {
    cfg.Required? && HasCopy(cfg, parse, cm) ==>
      SignedFor(suite, cfg.keys, cfg.set_, SignerOf(cm.value), Entry(cm.value.data, REMOTE_KEY))
  }

  /** The environment: key ids are not empty, an empty text is no policy file,
      and the JSON decoder yields 64-bit numbers. */
  ghost predicate Sane<D>(suite: Suite, cfg: SignatureConfig, parse: string -> Option<D>) {
    && cfg.Required?
    && TrustedIds(suite, cfg.keys)
    && (forall k :: suite.keyId(k) != "")
    && parse("").None?
  }

  ghost predicate Decoded(a: Answer) {
    a.File? && a.signature.Accepted? && a.signature.value.Some? ==> IsInt64(a.signature.value.value.publication)
  }

  lemma FoundIsTrusted(suite: Suite, keys: seq<TrustedKey>, id: string)
    requires TrustedIds(suite, keys) && (forall k :: suite.keyId(k) != "") && KeyById(keys, id).Some?
    ensures IsTrusted(keys, id)
  {
    var k := KeyById(keys, id).value;
    var i :| 0 <= i < |keys| && keys[i] == k;
    assert suite.keyId(keys[i].key) == id;
  }

  /** A pull outcome that may be rendered and recorded. */
  ghost predicate Recordable<D>(suite: Suite, cfg: SignatureConfig, parse: string -> Option<D>, out: Pull<D>, floor: int) {
    && cfg.Required? && out.doc.Some?
    && out.raw != "" && parse(out.raw) == out.doc
    && IsTrusted(cfg.keys, out.verified.keyId)
    && IsInt64(out.verified.publication) && floor <= out.verified.publication
    && SignedFor(suite, cfg.keys, cfg.set_, out.verified, out.raw)
  }

  lemma LastGoodIsSigned<D>(suite: Suite, cfg: SignatureConfig, parse: string -> Option<D>, cm: Option<Stored>)
    requires cfg.Required? && CopyIsSigned(suite, cfg, parse, cm) && HasCopy(cfg, parse, cm)
    ensures Recordable(suite, cfg, parse, LastGood(cfg, parse, cm), Floor(cfg, parse, cm))
  {
  }

  lemma AcceptedIsSigned<D>(suite: Suite, cfg: SignatureConfig, parse: string -> Option<D>, a: Answer, floor: int)
    requires Sane(suite, cfg, parse) && Decoded(a) && a.File? && Judge(suite, cfg, parse, a, floor).Accepted?
    ensures Recordable(suite, cfg, parse, Pull(parse(a.body), a.body, a.etag, Judge(suite, cfg, parse, a, floor).value, None), floor)
  {
    var sf := a.signature.value.value;
    FitsIsSigned(suite, sf, a.body, cfg.set_, cfg.keys);
    FoundIsTrusted(suite, cfg.keys, sf.keyId);
  }

  /** What a pull hands to the renderer is signed, and not older than the floor. */
  lemma PullIsSigned<D>(suite: Suite, cfg: SignatureConfig, parse: string -> Option<D>, cm: Option<Stored>, a: Answer)
    requires Sane(suite, cfg, parse) && Decoded(a) && CopyIsSigned(suite, cfg, parse, cm)
    ensures HasCopy(cfg, parse, cm) ==> PullOnce(suite, cfg, parse, cm, a).doc.Some?
    ensures PullOnce(suite, cfg, parse, cm, a).doc.Some? ==>
      Recordable(suite, cfg, parse, PullOnce(suite, cfg, parse, cm, a), Floor(cfg, parse, cm))
  {
    var good := LastGood(cfg, parse, cm);
    var out := PullOnce(suite, cfg, parse, cm, a);
    if HasCopy(cfg, parse, cm) { LastGoodIsSigned(suite, cfg, parse, cm); }
    if a.File? && Judge(suite, cfg, parse, a, good.verified.publication).Accepted? {
      AcceptedIsSigned(suite, cfg, parse, a, good.verified.publication);
    } else {
      assert out.(failure := None) == good;
    }
  }

  /** Tag and hash are read back as written; signer and number too, if there is a signer. */
  lemma NotesReadBack<D>(notes: map<string, string>, out: Pull<D>, rawHash: string)
    requires out.doc.Some?
    ensures var n := RemoteNotes(notes, out, rawHash);
      && Entry(n, REMOTE_ETAG) == out.etag
      && Entry(n, REMOTE_HASH) == rawHash
      && Entry(n, REMOTE_SIGNED_BY) == out.verified.keyId
      && (out.verified.keyId != "" ==> Entry(n, REMOTE_PUBLICATION) == FormatInt(out.verified.publication))
  {
    DistinctNames();
  }

  /** The ConfigMap serves the rendered file under its own hash, holds nothing else
      but the copy, and keeps every annotation of others. */
  lemma RenderedServes<D>(cm: Stored, out: Pull<D>, file: string, hash: string -> string)
    ensures var after := Rendered(cm, out, file, hash);
      && after.data.Keys == (if out.doc.Some? then {POLICY_KEY, REMOTE_KEY} else {POLICY_KEY})
      && after.data[POLICY_KEY] == file && Entry(after.notes, HASH) == hash(file)
      && forall k :: k !in {HASH, REMOTE_HASH, REMOTE_ETAG, REMOTE_SIGNED_BY, REMOTE_PUBLICATION} ==>
           (k in after.notes <==> k in cm.notes) && Entry(after.notes, k) == Entry(cm.notes, k)
  {
    DistinctNames();
  }

  lemma DataReadsBack<D>(cm: Stored, out: Pull<D>, file: string, hash: string -> string)
    requires out.doc.Some?
    ensures Entry(Rendered(cm, out, file, hash).data, REMOTE_KEY) == out.raw
  {
    DistinctNames();
  }

  /** Reading back what a write recorded. */
  lemma RenderedReadsBack<D>(suite: Suite, cfg: SignatureConfig, parse: string -> Option<D>, before: Stored, out: Pull<D>, floor: int,
                             file: string, hash: string -> string)
    requires Recordable(suite, cfg, parse, out, floor)
    ensures var cm := Rendered(before, out, file, hash);
      && HasCopy(cfg, parse, Some(cm))
      && SignerOf(cm) == out.verified
      && Entry(cm.data, REMOTE_KEY) == out.raw
      && LastGood(cfg, parse, Some(cm)) == out.(failure := None)
  {
    ParseFormatted(out.verified.publication);
    NotesReadBack(before.notes[HASH := hash(file)], out, hash(out.raw));
    DataReadsBack(before, out, file, hash);
  }

  lemma DistinctNames()
    ensures POLICY_KEY != REMOTE_KEY
    ensures REMOTE_HASH != REMOTE_ETAG && REMOTE_HASH != REMOTE_PUBLICATION && REMOTE_HASH != REMOTE_SIGNED_BY
    ensures REMOTE_ETAG != REMOTE_PUBLICATION && REMOTE_ETAG != REMOTE_SIGNED_BY && REMOTE_PUBLICATION != REMOTE_SIGNED_BY
    ensures HASH != REMOTE_HASH && HASH != REMOTE_ETAG && HASH != REMOTE_PUBLICATION && HASH != REMOTE_SIGNED_BY
  {
    assert POLICY_KEY[0] == 'p' && REMOTE_KEY[0] == 'r';
    assert |HASH| == 25 && |REMOTE_HASH| == 25 && |REMOTE_ETAG| == 25 && |REMOTE_SIGNED_BY| == 30 && |REMOTE_PUBLICATION| == 32;
    assert HASH[14] == 'p' && REMOTE_HASH[14] == 'r' && REMOTE_ETAG[14] == 'r';
    assert REMOTE_HASH[21] == 'h' && REMOTE_ETAG[21] == 'e';
  }

  /** A reconcile keeps the copy, its signature and the floor. */
  lemma ReconcileKeepsCopy<D>(suite: Suite, cfg: SignatureConfig, parse: string -> Option<D>, hash: string -> string,
                              cm: Option<Stored>, round: Round)
    requires Sane(suite, cfg, parse) && Decoded(round.answer) && CopyIsSigned(suite, cfg, parse, cm)
    ensures var cm' := Reconcile(suite, cfg, parse, hash, cm, round);
      && CopyIsSigned(suite, cfg, parse, cm')
      && (HasCopy(cfg, parse, cm) ==> HasCopy(cfg, parse, cm'))
      && Floor(cfg, parse, cm) <= Floor(cfg, parse, cm')
  {
    if round.written {
      var before := if cm.Some? then cm.value else Stored(map[], map[]);
      var out := PullOnce(suite, cfg, parse, cm, round.answer);
      PullIsSigned(suite, cfg, parse, cm, round.answer);
      if out.doc.Some? {
        RenderedReadsBack(suite, cfg, parse, before, out, Floor(cfg, parse, cm), round.file, hash);
      }
    }
  }

  /** A run: the ConfigMap before and after each reconcile, the configuration and
      the answers of each. */
  ghost predicate Reconciles<D>(suite: Suite, parse: string -> Option<D>, hash: string -> string,
                                cms: seq<Option<Stored>>, cfgs: seq<SignatureConfig>, rounds: seq<Round>)
  {
    && |cms| == |rounds| + 1 && |cfgs| == |rounds|
    && forall i :: 0 <= i < |rounds| ==> ReconcileAt(suite, parse, hash, cms, cfgs, rounds, i)
  }

  ghost predicate ReconcileAt<D>(suite: Suite, parse: string -> Option<D>, hash: string -> string,
                                 cms: seq<Option<Stored>>, cfgs: seq<SignatureConfig>, rounds: seq<Round>, i: int)
  {
    && 0 <= i < |rounds| && i + 1 < |cms| && i < |cfgs|
    && Decoded(rounds[i].answer)
    && cms[i + 1] == Reconcile(suite, cfgs[i], parse, hash, cms[i], rounds[i])
  }

  /** The configuration does not change. */
  ghost predicate Fixed(cfgs: seq<SignatureConfig>, cfg: SignatureConfig) { forall i :: 0 <= i < |cfgs| ==> cfgs[i] == cfg }

  /** A run under one sane configuration, from a signed copy or none. */
  ghost predicate SoundRun<D>(suite: Suite, cfg: SignatureConfig, parse: string -> Option<D>, hash: string -> string,
                              cms: seq<Option<Stored>>, cfgs: seq<SignatureConfig>, rounds: seq<Round>)
  {
    && Sane(suite, cfg, parse) && Reconciles(suite, parse, hash, cms, cfgs, rounds) && Fixed(cfgs, cfg)
    && CopyIsSigned(suite, cfg, parse, cms[0])
  }

  /** Whatever the source answers: every copy kept is signed. */
  lemma {:induction false} RunKeepsSigned<D>(suite: Suite, cfg: SignatureConfig, parse: string -> Option<D>, hash: string -> string,
                                             cms: seq<Option<Stored>>, cfgs: seq<SignatureConfig>, rounds: seq<Round>, i: nat)
    requires SoundRun(suite, cfg, parse, hash, cms, cfgs, rounds)
    requires i < |cms|
    ensures CopyIsSigned(suite, cfg, parse, cms[i])
    decreases i
  {
    if i > 0 {
      RunKeepsSigned(suite, cfg, parse, hash, cms, cfgs, rounds, i - 1);
      assert ReconcileAt(suite, parse, hash, cms, cfgs, rounds, i - 1);
      ReconcileKeepsCopy(suite, cfg, parse, hash, cms[i - 1], rounds[i - 1]);
    }
  }

  /** A copy is not lost and the floor does not go down. */
  ghost predicate NoWorse<D>(cfg: SignatureConfig, parse: string -> Option<D>, cm: Option<Stored>, later: Option<Stored>) {
    (HasCopy(cfg, parse, cm) ==> HasCopy(cfg, parse, later)) && Floor(cfg, parse, cm) <= Floor(cfg, parse, later)
  }

  ghost predicate Rises(floors: seq<int>, copies: seq<bool>, k: int)
    requires |floors| == |copies|
  {
    0 <= k && k + 1 < |floors| ==> floors[k] <= floors[k + 1] && (copies[k] ==> copies[k + 1])
  }

  lemma {:induction false} RisesFar(floors: seq<int>, copies: seq<bool>, i: nat, j: nat)
    requires |floors| == |copies| && i <= j < |floors| && forall k :: Rises(floors, copies, k)
    ensures floors[i] <= floors[j] && (copies[i] ==> copies[j])
    decreases j
  {
    if i < j {
      RisesFar(floors, copies, i, j - 1);
      assert Rises(floors, copies, j - 1);
    }
  }

  lemma StepNeverGoesBack<D>(suite: Suite, cfg: SignatureConfig, parse: string -> Option<D>, hash: string -> string,
                             cms: seq<Option<Stored>>, cfgs: seq<SignatureConfig>, rounds: seq<Round>, k: nat)
    requires SoundRun(suite, cfg, parse, hash, cms, cfgs, rounds)
    requires k < |rounds|
    ensures NoWorse(cfg, parse, cms[k], cms[k + 1])
  {
    RunKeepsSigned(suite, cfg, parse, hash, cms, cfgs, rounds, k);
    assert ReconcileAt(suite, parse, hash, cms, cfgs, rounds, k);
    ReconcileKeepsCopy(suite, cfg, parse, hash, cms[k], rounds[k]);
  }

  /** ... a copy is never lost, and the recorded number never goes down. */
  lemma RunNeverGoesBack<D>(suite: Suite, cfg: SignatureConfig, parse: string -> Option<D>, hash: string -> string,
                            cms: seq<Option<Stored>>, cfgs: seq<SignatureConfig>, rounds: seq<Round>, i: nat, j: nat)
    requires SoundRun(suite, cfg, parse, hash, cms, cfgs, rounds)
    requires i <= j < |cms|
    ensures NoWorse(cfg, parse, cms[i], cms[j])
  {
    var floors := seq(|cms|, k requires 0 <= k < |cms| => Floor(cfg, parse, cms[k]));
    var copies := seq(|cms|, k requires 0 <= k < |cms| => HasCopy(cfg, parse, cms[k]));
    forall k: int ensures Rises(floors, copies, k) {
      if 0 <= k < |rounds| { StepNeverGoesBack(suite, cfg, parse, hash, cms, cfgs, rounds, k); }
    }
    RisesFar(floors, copies, i, j);
  }

  /** ... and every document rendered in round `i` is a file a trusted key
      signed for the expected set, under a number no lower than the floor. */
  lemma RunRendersSigned<D>(suite: Suite, cfg: SignatureConfig, parse: string -> Option<D>, hash: string -> string,
                            cms: seq<Option<Stored>>, cfgs: seq<SignatureConfig>, rounds: seq<Round>, i: nat)
    requires SoundRun(suite, cfg, parse, hash, cms, cfgs, rounds)
    requires i < |rounds|
    ensures var out := PullOnce(suite, cfg, parse, cms[i], rounds[i].answer);
      out.doc.Some? ==>
        && parse(out.raw) == out.doc
        && SignedFor(suite, cfg.keys, cfg.set_, out.verified, out.raw)
        && Floor(cfg, parse, cms[0]) <= out.verified.publication
  {
    RunKeepsSigned(suite, cfg, parse, hash, cms, cfgs, rounds, i);
    RunNeverGoesBack(suite, cfg, parse, hash, cms, cfgs, rounds, 0, i);
    assert ReconcileAt(suite, parse, hash, cms, cfgs, rounds, i);
    PullIsSigned(suite, cfg, parse, cms[i], rounds[i].answer);
  }

  // ---- when the configuration changes ----

  /** The pull takes the answer's file. */
  ghost predicate Takes<D>(suite: Suite, cfg: SignatureConfig, parse: string -> Option<D>, cm: Option<Stored>, a: Answer) {
    !cfg.Unusable? && a.File? && Judge(suite, cfg, parse, a, Floor(cfg, parse, cm)).Accepted?
  }

  lemma PullKeepsGood<D>(suite: Suite, cfg: SignatureConfig, parse: string -> Option<D>, cm: Option<Stored>, a: Answer)
    requires !Takes(suite, cfg, parse, cm, a)
    ensures PullOnce(suite, cfg, parse, cm, a).(failure := None) == LastGood(cfg, parse, cm)
  {
  }

  /** A pull succeeds exactly if it takes a file, or is told that the file whose tag it
      has is unchanged; a pull that fails hands on the last good copy. */
  lemma PullSucceeds<D>(suite: Suite, cfg: SignatureConfig, parse: string -> Option<D>, cm: Option<Stored>, a: Answer)
    ensures PullOnce(suite, cfg, parse, cm, a).failure.None? <==>
      Takes(suite, cfg, parse, cm, a) || (a.Unchanged? && LastGood(cfg, parse, cm).etag != "")
  {
  }

  /** Under any configuration and any answer that is not taken, a written reconcile
      keeps the copy exactly when the configuration of that moment may use it, and
      then keeps it as it was. */
  lemma CopySurvives<D>(suite: Suite, cfg: SignatureConfig, parse: string -> Option<D>, hash: string -> string, cm: Option<Stored>,
                        a: Answer, file: string)
    requires !Takes(suite, cfg, parse, cm, a)
    ensures var after := Reconcile(suite, cfg, parse, hash, cm, Round(a, file, true));
      && (REMOTE_KEY in after.value.data <==> HasCopy(cfg, parse, cm))
      && (HasCopy(cfg, parse, cm) ==>
        && after.value.data[REMOTE_KEY] == cm.value.data[REMOTE_KEY]
        && Entry(after.value.notes, REMOTE_ETAG) == Entry(cm.value.notes, REMOTE_ETAG))
  {
    DistinctNames();
    PullKeepsGood(suite, cfg, parse, cm, a);
  }

  /** A file that is taken is recorded with its own tag. */
  lemma TakenIsRecorded<D>(suite: Suite, cfg: SignatureConfig, parse: string -> Option<D>, hash: string -> string, cm: Option<Stored>,
                           a: Answer, file: string)
    requires Takes(suite, cfg, parse, cm, a)
    ensures var after := Reconcile(suite, cfg, parse, hash, cm, Round(a, file, true)).value;
      && Entry(after.data, REMOTE_KEY) == a.body && Entry(after.notes, REMOTE_ETAG) == a.etag
      && Entry(after.notes, REMOTE_HASH) == hash(a.body)
  {
    var before := if cm.Some? then cm.value else Stored(map[], map[]);
    var out := PullOnce(suite, cfg, parse, cm, a);
    NotesReadBack(before.notes[HASH := hash(file)], out, hash(out.raw));
    DataReadsBack(before, out, file, hash);
  }

  ghost predicate Holds(cm: Option<Stored>, body: string, etag: string) {
    && cm.Some? && REMOTE_KEY in cm.value.data
    && cm.value.data[REMOTE_KEY] == body && Entry(cm.value.notes, REMOTE_ETAG) == etag
  }

  /** Round `j` took a file, and `body` under `etag` is that file. */
  ghost predicate TookAt<D>(suite: Suite, parse: string -> Option<D>, cms: seq<Option<Stored>>, cfgs: seq<SignatureConfig>, rounds: seq<Round>,
                            j: int, body: string, etag: string)
  {
    && 0 <= j < |rounds| && j < |cms| && j < |cfgs| && rounds[j].written
    && Takes(suite, cfgs[j], parse, cms[j], rounds[j].answer)
    && rounds[j].answer.body == body && rounds[j].answer.etag == etag
  }

  /** One reconcile: the copy and its tag are those before it, or those of the file it took. */
  lemma OriginStep<D>(suite: Suite, parse: string -> Option<D>, hash: string -> string, cms: seq<Option<Stored>>, cfgs: seq<SignatureConfig>,
                      rounds: seq<Round>, i: nat, body: string, etag: string)
    requires Reconciles(suite, parse, hash, cms, cfgs, rounds) && i < |rounds| && Holds(cms[i + 1], body, etag)
    ensures Holds(cms[i], body, etag) || TookAt(suite, parse, cms, cfgs, rounds, i, body, etag)
  {
    assert ReconcileAt(suite, parse, hash, cms, cfgs, rounds, i);
    var cm, r := cms[i], rounds[i];
    if r.written {
      assert r == Round(r.answer, r.file, true);
      if Takes(suite, cfgs[i], parse, cm, r.answer) {
        TakenIsRecorded(suite, cfgs[i], parse, hash, cm, r.answer, r.file);
      } else {
        CopySurvives(suite, cfgs[i], parse, hash, cm, r.answer, r.file);
      }
    }
  }

  /** Over every run, with a configuration of its own in every round: a recorded body
      and its recorded tag come from one and the same file, taken in an earlier
      round, or both were there at the start. */
  lemma {:induction false} CopyHasOneOrigin<D>(suite: Suite, parse: string -> Option<D>, hash: string -> string, cms: seq<Option<Stored>>,
                                               cfgs: seq<SignatureConfig>, rounds: seq<Round>, i: nat, body: string, etag: string)
    requires Reconciles(suite, parse, hash, cms, cfgs, rounds) && i < |cms| && Holds(cms[i], body, etag)
    ensures Holds(cms[0], body, etag) || exists j :: 0 <= j < i && TookAt(suite, parse, cms, cfgs, rounds, j, body, etag)
    decreases i
  {
    if i > 0 {
      OriginStep(suite, parse, hash, cms, cfgs, rounds, i - 1, body, etag);
      if Holds(cms[i - 1], body, etag) { CopyHasOneOrigin(suite, parse, hash, cms, cfgs, rounds, i - 1, body, etag); }
    }
  }

  /** A written round serves its own file under its own hash, and a refused write
      changes nothing. */
  lemma RoundIsServed<D>(suite: Suite, parse: string -> Option<D>, hash: string -> string, cms: seq<Option<Stored>>, cfgs: seq<SignatureConfig>,
                         rounds: seq<Round>, i: nat)
    requires Reconciles(suite, parse, hash, cms, cfgs, rounds) && i < |rounds|
    ensures !rounds[i].written ==> cms[i + 1] == cms[i]
    ensures rounds[i].written ==>
      && cms[i + 1].Some? && Entry(cms[i + 1].value.data, POLICY_KEY) == rounds[i].file
      && Entry(cms[i + 1].value.notes, HASH) == hash(rounds[i].file)
  {
    assert ReconcileAt(suite, parse, hash, cms, cfgs, rounds, i);
    if rounds[i].written {
      var before := if cms[i].Some? then cms[i].value else Stored(map[], map[]);
      RenderedServes(before, PullOnce(suite, cfgs[i], parse, cms[i], rounds[i].answer), rounds[i].file, hash);
    }
  }

  /** The publication number a ConfigMap records; 0 without one. */
  function Recorded(cm: Option<Stored>): int { if cm.Some? then SignerOf(cm.value).publication else 0 }

  /** The recorded number is safe under a configuration: the copy it belongs to
      counts, or there is no number to lose. */
  predicate NumberIsSafe<D>(cfg: SignatureConfig, parse: string -> Option<D>, cm: Option<Stored>) {
    (cfg.Required? && HasCopy(cfg, parse, cm)) || Recorded(cm) <= 0
  }

  ghost predicate NamedKeys(cfg: SignatureConfig) {
    cfg.Required? ==> forall i :: 0 <= i < |cfg.keys| ==> cfg.keys[i].id != ""
  }

  /** What a write records as number. */
  lemma RenderedNumber<D>(before: Stored, out: Pull<D>, file: string, hash: string -> string)
    requires IsInt64(out.verified.publication)
    ensures Recorded(Some(Rendered(before, out, file, hash))) ==
      if out.doc.Some? && out.verified.keyId != "" then out.verified.publication else 0
  {
    DistinctNames();
    if out.doc.Some? && out.verified.keyId != "" {
      NotesReadBack(before.notes[HASH := hash(file)], out, hash(out.raw));
      ParseFormatted(out.verified.publication);
    }
  }

  /** The number a pull hands on, and whether it has a signer. */
  lemma PullNumber<D>(suite: Suite, cfg: SignatureConfig, parse: string -> Option<D>, cm: Option<Stored>, a: Answer)
    requires Decoded(a) && NamedKeys(cfg)
    ensures var out := PullOnce(suite, cfg, parse, cm, a);
      && IsInt64(out.verified.publication)
      && (cfg.Required? && out.doc.Some? ==> out.verified.keyId != "" && out.verified.publication >= Floor(cfg, parse, cm))
      && (cfg.Required? && HasCopy(cfg, parse, cm) ==> out.doc.Some?)
      && (!cfg.Required? ==> out.verified == UNVERIFIED)
  {
    if Takes(suite, cfg, parse, cm, a) {
      if cfg.Required? {
        var sf := a.signature.value.value;
        var k := KeyById(cfg.keys, sf.keyId).value;
        assert k in cfg.keys;
      }
    } else {
      PullKeepsGood(suite, cfg, parse, cm, a);
    }
  }

  /** A written reconcile with this answer does not lower the recorded number. */
  ghost predicate KeepsNumber<D>(suite: Suite, cfg: SignatureConfig, parse: string -> Option<D>, hash: string -> string,
                                 cm: Option<Stored>, a: Answer, file: string)
  {
    Recorded(cm) <= Recorded(Reconcile(suite, cfg, parse, hash, cm, Round(a, file, true)))
  }

  lemma SafeNumberIsKept<D>(suite: Suite, cfg: SignatureConfig, parse: string -> Option<D>, hash: string -> string,
                            cm: Option<Stored>, a: Answer, file: string)
    requires NamedKeys(cfg) && Decoded(a) && NumberIsSafe(cfg, parse, cm)
    ensures KeepsNumber(suite, cfg, parse, hash, cm, a, file)
  {
    var before := if cm.Some? then cm.value else Stored(map[], map[]);
    PullNumber(suite, cfg, parse, cm, a);
    RenderedNumber(before, PullOnce(suite, cfg, parse, cm, a), file, hash);
    if cfg.Required? && HasCopy(cfg, parse, cm) {
      assert Floor(cfg, parse, cm) == Recorded(cm);
    }
  }

  lemma UnsafeNumberIsLost<D>(suite: Suite, cfg: SignatureConfig, parse: string -> Option<D>, hash: string -> string,
                              cm: Option<Stored>, file: string)
    requires NamedKeys(cfg) && !NumberIsSafe(cfg, parse, cm)
    ensures !KeepsNumber(suite, cfg, parse, hash, cm, NoSecret, file)
  {
    var before := if cm.Some? then cm.value else Stored(map[], map[]);
    PullNumber(suite, cfg, parse, cm, NoSecret);
    RenderedNumber(before, PullOnce(suite, cfg, parse, cm, NoSecret), file, hash);
  }

  /** No answer can lower the recorded number, exactly when it is safe. Removing the
      signer's key, breaking the signature settings or turning them off makes it
      unsafe. */
  lemma NumberIsKept<D>(suite: Suite, cfg: SignatureConfig, parse: string -> Option<D>, hash: string -> string,
                        cm: Option<Stored>, file: string)
    requires NamedKeys(cfg)
    ensures (forall a :: Decoded(a) ==> KeepsNumber(suite, cfg, parse, hash, cm, a, file)) <==> NumberIsSafe(cfg, parse, cm)
  {
    if NumberIsSafe(cfg, parse, cm) {
      forall a | Decoded(a)
        ensures KeepsNumber(suite, cfg, parse, hash, cm, a, file)
      {
        SafeNumberIsKept(suite, cfg, parse, hash, cm, a, file);
      }
    } else {
      UnsafeNumberIsLost(suite, cfg, parse, hash, cm, file);
    }
  }

  /** Over a run with a configuration of its own in every round, the number never
      goes down between two points as long as every write in between finds it safe. */
  lemma {:induction false} RunKeepsNumber<D>(suite: Suite, parse: string -> Option<D>, hash: string -> string,
                                             cms: seq<Option<Stored>>, cfgs: seq<SignatureConfig>, rounds: seq<Round>, i: nat, j: nat)
    requires Reconciles(suite, parse, hash, cms, cfgs, rounds) && i <= j < |cms|
    requires forall k :: 0 <= k < |cfgs| ==> NamedKeys(cfgs[k])
    requires forall k :: i <= k < j && rounds[k].written ==> NumberIsSafe(cfgs[k], parse, cms[k])
    ensures Recorded(cms[i]) <= Recorded(cms[j])
    decreases j
  {
    if i < j {
      RunKeepsNumber(suite, parse, hash, cms, cfgs, rounds, i, j - 1);
      assert ReconcileAt(suite, parse, hash, cms, cfgs, rounds, j - 1);
      if rounds[j - 1].written {
        SafeNumberIsKept(suite, cfgs[j - 1], parse, hash, cms[j - 1], rounds[j - 1].answer, rounds[j - 1].file);
        assert rounds[j - 1] == Round(rounds[j - 1].answer, rounds[j - 1].file, true);
      }
    }
  }

  /** Publication 7, signed by key "a". */
  function Seventh(): Stored {
    Stored(map[REMOTE_KEY := "new"], map[REMOTE_SIGNED_BY := "a", REMOTE_PUBLICATION := "7"])
  }

  lemma SeventhReads()
    ensures Entry(Seventh().data, REMOTE_KEY) == "new"
    ensures SignerOf(Seventh()) == Verified(7, "a")
  {
    DistinctNames();
    assert "7"[..0] == "";
    assert ParseNat("7") == Some(7);
  }

  /** Publication 3 by key "b" is a replay while key "a" is trusted, and is accepted
      once "a" has left the list: the floor went with the copy, which any reconcile
      without a new file removes. */
  lemma FloorLostExample<D>(suite: Suite, parse: string -> Option<D>, hash: string -> string, set_: string,
                            a: TrustedKey, b: TrustedKey, sf: SignatureFile, file: string)
    requires a.id == "a" && b.id == "b" && parse("new").Some? && parse("old").Some?
    requires sf.publication == 3 && sf.keyId == "b" && FileFits(suite, sf, "old", set_, [b])
    ensures
      var both, one := Required([a, b], set_), Required([b], set_);
      var answer := File("old", "", Accepted(Some(sf)));
      && PullOnce(suite, both, parse, Some(Seventh()), answer).failure == Some(SignatureReplayed)
      && PullOnce(suite, one, parse, Some(Seventh()), answer) == Pull(parse("old"), "old", "", Verified(3, "b"), None)
      && Recorded(Some(Seventh())) == 7
      && REMOTE_KEY !in Reconcile(suite, one, parse, hash, Some(Seventh()), Round(NoSecret, file, true)).value.data
      && Recorded(Reconcile(suite, one, parse, hash, Some(Seventh()), Round(answer, file, true))) == 3
  {
    var both, one := Required([a, b], set_), Required([b], set_);
    var answer := File("old", "", Accepted(Some(sf)));
    SeventhReads();
    assert KeyById([b], "b") == Some(b) && KeyById([a, b], "b") == Some(b);
    assert IsTrusted([a, b], "a") by {
      assert [a, b][0].id == "a";
    }
    assert !IsTrusted([b], "a");
    assert FileFits(suite, sf, "old", set_, [a, b]);
    assert Floor(both, parse, Some(Seventh())) == 7 && Floor(one, parse, Some(Seventh())) == 0;
    CopySurvives(suite, one, parse, hash, Some(Seventh()), NoSecret, file);
    var out := PullOnce(suite, one, parse, Some(Seventh()), answer);
    RenderedNumber(Seventh(), out, file, hash);
  }
}
