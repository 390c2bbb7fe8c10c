/** Two ways a policy's rules reach a sidecar: as environment variables, or as a
    rendered policy file with the rule variables dropped. Both give the scanner
    the same rules exactly for the policies described by `Deliverable`.

    JSON and float formatting, regular expressions and case folding are the
    functions of a `Codec`. */
module RuleDelivery {
  import opened Common
  import opened Signing
  import UrlMask

  datatype Rule = Rule(pattern: string, name: string)

  /** The rule fields shared by a PiiPolicy, a policy file and a scanner
      configuration. In a policy or a file, zero or an empty list is unset. */
  datatype Rules = Rules(
    entropy: real, confidence: real, minLength: int,
    keys: seq<string>, patterns: seq<string>, custom: seq<Rule>, safe: seq<Rule>)

  type Policy = Rules
  type Document = Rules
  type Config = Rules

  datatype Codec = Codec(
    float: real -> string, number: string -> Option<real>,
    json: seq<Rule> -> string, unjson: string -> Option<seq<Rule>>,
    compiles: string -> bool, combines: seq<string> -> bool, lower: string -> string)

  const MAX_LENGTH: int := 1024

  /** What the libraries guarantee: formatted values read back, with their sign,
      and are neither empty nor padded; folding keeps a text non-empty. */
  ghost predicate IsCodec(c: Codec) {
    && (forall x :: c.float(x) != "" && Trim(c.float(x)) == c.float(x))
    && (forall x ::
      && c.number(c.float(x)).Some?
      && (c.number(c.float(x)).value < 0.0 <==> x < 0.0)
      && (c.number(c.float(x)).value == 0.0 <==> x == 0.0))
    && (forall rs :: rs != [] ==> c.json(rs) != "" && c.unjson(c.json(rs)) == Some(rs))
    && (forall s :: c.lower(s) == "" <==> s == "")
    && c.combines([])
  }

  /** The built-in defaults hold no patterns and no rules. */
  ghost predicate IsDefault(def: Config) { def.patterns == [] && def.custom == [] && def.safe == [] }

  // ---- lists ----

  function Normal(c: Codec, k: string): string { c.lower(Trim(k)) }

  function Normals(c: Codec, ks: seq<string>): seq<string> { seq(|ks|, i requires 0 <= i < |ks| => Normal(c, ks[i])) }

  function Cleaned(ps: seq<string>): seq<string> {
    if ps == [] then []
    else Cleaned(ps[..|ps| - 1]) + (if Trim(ps[|ps| - 1]) == "" then [] else [Trim(ps[|ps| - 1])])
  }

  function Compiling(c: Codec, rs: seq<Rule>): seq<Rule> {
    if rs == [] then []
    else Compiling(c, rs[..|rs| - 1]) + (if c.compiles(rs[|rs| - 1].pattern) then [rs[|rs| - 1]] else [])
  }

  predicate Usable(c: Codec, r: Rule) { r.pattern != "" && c.compiles(r.pattern) }

  /** The normalising loop over PII_SENSITIVE_KEYS. */
  method Normalize(c: Codec, ks: seq<string>) returns (out: seq<string>)
    ensures out == Normals(c, ks)
  {
    out := ks;
    for i := 0 to |ks|
      invariant |out| == |ks|
      invariant forall k :: 0 <= k < i ==> out[k] == Normal(c, ks[k])
      invariant forall k :: i <= k < |ks| ==> out[k] == ks[k]
    {
      out := out[i := Normal(c, out[i])];
    }
  }

  /** The key loop of the policy file, which refuses a blank entry. */
  method NormalizeAll(c: Codec, ks: seq<string>) returns (out: Option<seq<string>>)
    ensures out == if forall k :: k in ks ==> Normal(c, k) != "" then Some(Normals(c, ks)) else None
  {
    var keys := [];
    for i := 0 to |ks|
      invariant keys == Normals(c, ks[..i])
      invariant forall k :: 0 <= k < i ==> Normal(c, ks[k]) != ""
    {
      var k := Normal(c, ks[i]);
      if k == "" {
        assert ks[i] in ks;
        return None;
      }
      keys := keys + [k];
    }
    assert ks[..|ks|] == ks;
    out := Some(keys);
  }

  /** ApplySensitiveKeyPatterns. */
  method CleanPatterns(ps: seq<string>) returns (out: seq<string>)
    ensures out == Cleaned(ps)
  {
    out := [];
    for i := 0 to |ps|
      invariant out == Cleaned(ps[..i])
    {
      assert ps[..i + 1][..i] == ps[..i];
      var t := Trim(ps[i]);
      if t != "" {
        out := out + [t];
      }
    }
    assert ps[..|ps|] == ps;
  }

  /** dropInvalidRegexRules. */
  method DropInvalid(c: Codec, rs: seq<Rule>) returns (out: seq<Rule>)
    ensures out == Compiling(c, rs)
  {
    out := [];
    for i := 0 to |rs|
      invariant out == Compiling(c, rs[..i])
    {
      assert rs[..i + 1][..i] == rs[..i];
      if c.compiles(rs[i].pattern) {
        out := out + [rs[i]];
      }
    }
    assert rs[..|rs|] == rs;
  }

  /** checkRegexRules. */
  method CheckRules(c: Codec, rs: seq<Rule>) returns (ok: bool)
    ensures ok <==> forall r :: r in rs ==> Usable(c, r)
  {
    for i := 0 to |rs|
      invariant forall k :: 0 <= k < i ==> Usable(c, rs[k])
    {
      if rs[i].pattern == "" || !c.compiles(rs[i].pattern) {
        assert rs[i] in rs && !Usable(c, rs[i]);
        return false;
      }
    }
    ok := true;
  }

  lemma {:induction false} CompilingAll(c: Codec, rs: seq<Rule>)
    requires forall r :: r in rs ==> Usable(c, r)
    ensures Compiling(c, rs) == rs
    decreases |rs|
  {
    if rs != [] {
      CompilingAll(c, rs[..|rs| - 1]);
      assert Usable(c, rs[|rs| - 1]);
      assert rs[..|rs| - 1] + [rs[|rs| - 1]] == rs;
    }
  }

  // ---- environment variables ----

  /** The variables of a sidecar: one per rule field, and all others. */
  datatype Name = Confidence | Entropy | MinLength | Keys | Patterns | CustomList | SafeList | Other(name: string)

  datatype EnvVar = EnvVar(name: Name, value: string)
  type Env = seq<EnvVar>

  /** os.Getenv: the last setting, or the empty string. */
  function Getenv(env: Env, n: Name): string {
    if env == [] then ""
    else if env[|env| - 1].name == n then env[|env| - 1].value
    else Getenv(env[..|env| - 1], n)
  }

  /** add: an empty value is no variable. */
  function Add(env: Env, v: EnvVar): Env { if v.value == "" then env else env + [v] }

  function AddAll(base: Env, vs: Env): Env {
    if vs == [] then base else Add(AddAll(base, vs[..|vs| - 1]), vs[|vs| - 1])
  }

  function JoinComma(ss: seq<string>): string { if ss == [] then "" else UrlMask.Rejoin(ss, ',') }

  /** marshalRegexRules. */
  function Marshal(c: Codec, rs: seq<Rule>): string { if rs == [] then "" else c.json(rs) }

  /** The rule variables of a policy, with the empty value for an unset field. */
  function RuleVars(c: Codec, p: Policy): Env {
    [
      EnvVar(Confidence, if p.confidence != 0.0 then c.float(p.confidence) else ""),
      EnvVar(Entropy, if p.entropy != 0.0 then c.float(p.entropy) else ""),
      EnvVar(MinLength, if p.minLength > 0 then FormatInt(p.minLength) else ""),
      EnvVar(Keys, JoinComma(p.keys)),
      EnvVar(Patterns, JoinComma(p.patterns)),
      EnvVar(CustomList, Marshal(c, p.custom)),
      EnvVar(SafeList, Marshal(c, p.safe))
    ]
  }

  lemma AddOne(base: Env, vs: Env, v: EnvVar)
    ensures AddAll(base, vs + [v]) == Add(AddAll(base, vs), v)
  {
    assert (vs + [v])[..|vs|] == vs;
  }

  /** The first `i` variables have been added. */
  ghost predicate Added(env: Env, base: Env, vs: Env, i: nat) { i <= |vs| && env == AddAll(base, vs[..i]) }

  lemma AddedNone(base: Env, vs: Env)
    ensures Added(base, base, vs, 0)
  {
  }

  lemma AddedNext(env: Env, base: Env, vs: Env, i: nat, v: EnvVar)
    requires Added(env, base, vs, i) && i < |vs| && v == vs[i]
    ensures Added(Add(env, v), base, vs, i + 1)
  {
    assert vs[..i + 1] == vs[..i] + [v];
    AddOne(base, vs[..i], v);
  }

  lemma AddedAll(env: Env, base: Env, vs: Env)
    requires Added(env, base, vs, |vs|)
    ensures env == AddAll(base, vs)
  {
    assert vs[..|vs|] == vs;
  }

  /** The three numbers of scannerEnv. */
  method AddNumbers(c: Codec, p: Policy, base: Env) returns (env: Env)
    ensures Added(env, base, RuleVars(c, p), 3)
  {
    env := base;
    ghost var vs := RuleVars(c, p);
    AddedNone(base, vs);
    AddedNext(env, base, vs, 0, vs[0]);
    if p.confidence != 0.0 {
      env := Add(env, EnvVar(Confidence, c.float(p.confidence)));
    }
    AddedNext(env, base, vs, 1, vs[1]);
    if p.entropy != 0.0 {
      env := Add(env, EnvVar(Entropy, c.float(p.entropy)));
    }
    AddedNext(env, base, vs, 2, vs[2]);
    if p.minLength > 0 {
      env := Add(env, EnvVar(MinLength, FormatInt(p.minLength)));
    }
  }

  /** scannerEnv: `base` holds the salt, the fail policy and the mode. */
  method ScannerEnv(c: Codec, p: Policy, base: Env) returns (env: Env)
    ensures env == AddAll(base, RuleVars(c, p))
  {
    ghost var vs := RuleVars(c, p);
    env := AddNumbers(c, p, base);
    AddedNext(env, base, vs, 3, vs[3]);
    env := Add(env, EnvVar(Keys, JoinComma(p.keys)));
    AddedNext(env, base, vs, 4, vs[4]);
    env := Add(env, EnvVar(Patterns, JoinComma(p.patterns)));
    AddedNext(env, base, vs, 5, vs[5]);
    env := Add(env, EnvVar(CustomList, Marshal(c, p.custom)));
    AddedNext(env, base, vs, 6, vs[6]);
    env := Add(env, EnvVar(SafeList, Marshal(c, p.safe)));
    AddedAll(env, base, vs);
  }

  ghost predicate NoRules(env: Env) { forall v :: v in env ==> v.name.Other? }

  lemma {:induction false} NoRulesUnset(env: Env, n: Name)
    requires NoRules(env) && !n.Other?
    ensures Getenv(env, n) == ""
    decreases |env|
  {
    if env != [] {
      assert env[|env| - 1] in env;
      NoRulesUnset(env[..|env| - 1], n);
    }
  }

  lemma GetenvAdd(env: Env, v: EnvVar, n: Name)
    ensures Getenv(Add(env, v), n) == if v.name == n && v.value != "" then v.value else Getenv(env, n)
  {
    assert (env + [v])[..|env|] == env;
  }

  ghost predicate Distinct(vs: Env) { forall i, j :: 0 <= i < j < |vs| ==> vs[i].name != vs[j].name }

  /** Every variable added once is read back; an unset one reads as empty. */
  lemma {:induction false} GetenvAddAll(base: Env, vs: Env, i: nat)
    requires Distinct(vs) && i < |vs| && Getenv(base, vs[i].name) == ""
    ensures Getenv(AddAll(base, vs), vs[i].name) == vs[i].value
    decreases |vs|
  {
    var front := vs[..|vs| - 1];
    GetenvAdd(AddAll(base, front), vs[|vs| - 1], vs[i].name);
    if i < |front| {
      assert vs[i].name != vs[|vs| - 1].name;
      GetenvAddAll(base, front, i);
    } else {
      GetenvOther(base, front, vs[i].name);
    }
  }

  lemma {:induction false} GetenvOther(base: Env, vs: Env, n: Name)
    requires forall k :: 0 <= k < |vs| ==> vs[k].name != n
    ensures Getenv(AddAll(base, vs), n) == Getenv(base, n)
    decreases |vs|
  {
    if vs != [] {
      GetenvAdd(AddAll(base, vs[..|vs| - 1]), vs[|vs| - 1], n);
      GetenvOther(base, vs[..|vs| - 1], n);
    }
  }

  function WithoutRules(env: Env): Env {
    if env == [] then []
    else WithoutRules(env[..|env| - 1]) + (if env[|env| - 1].name.Other? then [env[|env| - 1]] else [])
  }

  /** dropRuleEnv on one container: exactly the rule variables go. */
  method DropRuleEnv(env: Env) returns (out: Env)
    ensures out == WithoutRules(env)
    ensures NoRules(out)
    ensures forall n: Name :: n.Other? ==> Getenv(out, n) == Getenv(env, n)
  {
    out := [];
    for i := 0 to |env|
      invariant out == WithoutRules(env[..i]) && NoRules(out)
      invariant forall n: Name :: n.Other? ==> Getenv(out, n) == Getenv(env[..i], n)
    {
      assert env[..i + 1][..i] == env[..i];
      if env[i].name.Other? {
        assert (out + [env[i]])[..|out|] == out;
        out := out + [env[i]];
      }
    }
    assert env[..|env|] == env;
  }

  lemma {:induction false} WithoutRulesKeeps(env: Env)
    requires NoRules(env)
    ensures WithoutRules(env) == env
    decreases |env|
  {
    if env != [] {
      var front, v := env[..|env| - 1], env[|env| - 1];
      assert env == front + [v];
      assert v in env;
      WithoutRulesKeeps(front);
    }
  }

  /** Dropping undoes exactly what the rule fields added. */
  lemma {:induction false} DroppedIsBase(base: Env, vs: Env)
    requires NoRules(base)
    requires forall k :: 0 <= k < |vs| ==> !vs[k].name.Other?
    ensures WithoutRules(AddAll(base, vs)) == base
    decreases |vs|
  {
    if vs == [] {
      WithoutRulesKeeps(base);
    } else {
      var front := AddAll(base, vs[..|vs| - 1]);
      DroppedIsBase(base, vs[..|vs| - 1]);
      assert (front + [vs[|vs| - 1]])[..|front|] == front;
    }
  }

  // ---- the two readings ----

  function NumberOr(c: Codec, value: string, kept: real): real {
    if value == "" then kept else match c.number(Trim(value)) case None => kept case Some(x) => x
  }

  function LengthOr(value: string, kept: int): int {
    if value != "" && 0 < ParseInt64(Trim(value)) <= MAX_LENGTH then ParseInt64(Trim(value)) else kept
  }

  function KeysOr(c: Codec, value: string, kept: seq<string>): seq<string> {
    if value == "" then kept else Normals(c, UrlMask.Split(value, ','))
  }

  function PatternsOr(value: string, kept: seq<string>): seq<string> {
    if value == "" then kept else Cleaned(UrlMask.Split(value, ','))
  }

  function RulesOr(c: Codec, value: string, kept: seq<Rule>): seq<Rule> {
    if value == "" then kept else match c.unjson(value) case None => kept case Some(rs) => Compiling(c, rs)
  }

  function Overridden(c: Codec, env: Env, cfg: Config): Config {
    Rules(
      NumberOr(c, Getenv(env, Entropy), cfg.entropy),
      NumberOr(c, Getenv(env, Confidence), cfg.confidence),
      LengthOr(Getenv(env, MinLength), cfg.minLength),
      KeysOr(c, Getenv(env, Keys), cfg.keys),
      PatternsOr(Getenv(env, Patterns), cfg.patterns),
      RulesOr(c, Getenv(env, CustomList), cfg.custom),
      RulesOr(c, Getenv(env, SafeList), cfg.safe))
  }

  method ApplyRuleList(c: Codec, value: string, kept: seq<Rule>) returns (out: seq<Rule>)
    ensures out == RulesOr(c, value, kept)
  {
    out := kept;
    if value != "" {
      match c.unjson(value) {
        case None =>
        case Some(rs) => out := DropInvalid(c, rs);
      }
    }
  }

  /** The three numbers of ApplyEnvOverrides. */
  method ApplyNumbers(c: Codec, env: Env, cfg: Config) returns (out: Config)
    ensures out == cfg.(
      entropy := NumberOr(c, Getenv(env, Entropy), cfg.entropy),
      confidence := NumberOr(c, Getenv(env, Confidence), cfg.confidence),
      minLength := LengthOr(Getenv(env, MinLength), cfg.minLength))
  {
    out := cfg;
    if Getenv(env, Entropy) != "" {
      match c.number(Trim(Getenv(env, Entropy))) {
        case None =>
        case Some(x) => out := out.(entropy := x);
      }
    }
    if Getenv(env, Confidence) != "" {
      match c.number(Trim(Getenv(env, Confidence))) {
        case None =>
        case Some(x) => out := out.(confidence := x);
      }
    }
    if Getenv(env, MinLength) != "" {
      var n := ParseInt64(Trim(Getenv(env, MinLength)));
      if n > 0 && n <= MAX_LENGTH {
        out := out.(minLength := n);
      }
    }
  }

  /** ApplyEnvOverrides on the rule fields: a variable that is unset or invalid
      leaves its field as it was. */
  method ApplyEnvOverrides(c: Codec, env: Env, cfg: Config) returns (out: Config)
    ensures out == Overridden(c, env, cfg)
  {
    out := ApplyNumbers(c, env, cfg);
    if Getenv(env, Keys) != "" {
      var keys := Normalize(c, UrlMask.Split(Getenv(env, Keys), ','));
      out := out.(keys := keys);
    }
    if Getenv(env, Patterns) != "" {
      var patterns := CleanPatterns(UrlMask.Split(Getenv(env, Patterns), ','));
      out := out.(patterns := patterns);
    }
    var custom := ApplyRuleList(c, Getenv(env, CustomList), out.custom);
    var safe := ApplyRuleList(c, Getenv(env, SafeList), out.safe);
    out := out.(custom := custom, safe := safe);
  }

  lemma UnsetKeeps(c: Codec, env: Env, cfg: Config)
    requires NoRules(env)
    ensures Overridden(c, env, cfg) == cfg
  {
    NoRulesUnset(env, Entropy);
    NoRulesUnset(env, Confidence);
    NoRulesUnset(env, MinLength);
    NoRulesUnset(env, Keys);
    NoRulesUnset(env, Patterns);
    NoRulesUnset(env, CustomList);
    NoRulesUnset(env, SafeList);
  }

  /** shortest: the number that the formatted value reads back as. */
  function Shortest(c: Codec, x: real): real { match c.number(c.float(x)) case None => x case Some(v) => v }

  const EMPTY: Document := Rules(0.0, 0.0, 0, [], [], [], [])

  /** Merge: every field set in the policy replaces that of the document. */
  function Merge(c: Codec, remote: Document, p: Policy): Document {
    Rules(
      if p.entropy != 0.0 then Shortest(c, p.entropy) else remote.entropy,
      if p.confidence != 0.0 then Shortest(c, p.confidence) else remote.confidence,
      if p.minLength > 0 then p.minLength else remote.minLength,
      if p.keys != [] then p.keys else remote.keys,
      if p.patterns != [] then p.patterns else remote.patterns,
      if p.custom != [] then p.custom else remote.custom,
      if p.safe != [] then p.safe else remote.safe)
  }

  function Local(c: Codec, p: Policy): Document { Merge(c, EMPTY, p) }

  /** The files that the scanner accepts. */
  ghost predicate Acceptable(c: Codec, doc: Document) {
    && doc.entropy >= 0.0 && doc.confidence >= 0.0 && 0 <= doc.minLength <= MAX_LENGTH
    && (forall k :: k in doc.keys ==> Normal(c, k) != "")
    && (forall s :: s in doc.patterns ==> c.compiles(s))
    && (doc.patterns != [] ==> c.combines(Cleaned(doc.patterns)))
    && (forall r :: r in doc.custom ==> Usable(c, r))
    && (forall r :: r in doc.safe ==> Usable(c, r))
  }

  /** What an accepted file says, over the defaults. */
  function FileRules(c: Codec, def: Config, doc: Document): Config {
    Rules(
      if doc.entropy > 0.0 then doc.entropy else def.entropy,
      if doc.confidence > 0.0 then doc.confidence else def.confidence,
      if doc.minLength > 0 then doc.minLength else def.minLength,
      if doc.keys != [] then Normals(c, doc.keys) else def.keys,
      if doc.patterns != [] then Cleaned(doc.patterns) else def.patterns,
      if doc.custom != [] then Compiling(c, doc.custom) else def.custom,
      if doc.safe != [] then Compiling(c, doc.safe) else def.safe)
  }

  method CheckPatterns(c: Codec, ps: seq<string>) returns (ok: bool)
    ensures ok <==> forall s :: s in ps ==> c.compiles(s)
  {
    for i := 0 to |ps|
      invariant forall k :: 0 <= k < i ==> c.compiles(ps[k])
    {
      if !c.compiles(ps[i]) {
        assert ps[i] in ps;
        return false;
      }
    }
    ok := true;
  }

  /** ParsePolicyJSON on a decoded file: all or nothing. */
  method ParsePolicy(c: Codec, def: Config, doc: Document) returns (r: Option<Config>)
    ensures r.Some? <==> Acceptable(c, doc)
    ensures r.Some? ==> r.value == FileRules(c, def, doc)
  {
    var cfg := def;
    if doc.entropy < 0.0 {
      return None;
    }
    if doc.entropy > 0.0 {
      cfg := cfg.(entropy := doc.entropy);
    }
    if doc.confidence < 0.0 {
      return None;
    }
    if doc.confidence > 0.0 {
      cfg := cfg.(confidence := doc.confidence);
    }
    if doc.minLength < 0 || doc.minLength > MAX_LENGTH {
      return None;
    }
    if doc.minLength > 0 {
      cfg := cfg.(minLength := doc.minLength);
    }
    if doc.keys != [] {
      var keys := NormalizeAll(c, doc.keys);
      if keys.None? {
        return None;
      }
      cfg := cfg.(keys := keys.value);
    }
    r := ParseLists(c, cfg, doc);
  }

  /** The second half of ParsePolicyJSON: patterns and rule lists. */
  method ParseLists(c: Codec, before: Config, doc: Document) returns (r: Option<Config>)
    ensures r.Some? <==>
      && (forall s :: s in doc.patterns ==> c.compiles(s))
      && (doc.patterns != [] ==> c.combines(Cleaned(doc.patterns)))
      && (forall r :: r in doc.custom ==> Usable(c, r))
      && (forall r :: r in doc.safe ==> Usable(c, r))
    ensures r.Some? ==> r.value == before.(
      patterns := if doc.patterns != [] then Cleaned(doc.patterns) else before.patterns,
      custom := if doc.custom != [] then Compiling(c, doc.custom) else before.custom,
      safe := if doc.safe != [] then Compiling(c, doc.safe) else before.safe)
  {
    var cfg := before;
    if doc.patterns != [] {
      var ok := CheckPatterns(c, doc.patterns);
      if !ok {
        return None;
      }
      var patterns := CleanPatterns(doc.patterns);
      if !c.combines(patterns) {
        return None;
      }
      cfg := cfg.(patterns := patterns);
    }
    var ok := CheckRules(c, doc.custom);
    if !ok {
      return None;
    }
    if doc.custom != [] {
      var rs := DropInvalid(c, doc.custom);
      cfg := cfg.(custom := rs);
    }
    ok := CheckRules(c, doc.safe);
    if !ok {
      return None;
    }
    if doc.safe != [] {
      var rs := DropInvalid(c, doc.safe);
      cfg := cfg.(safe := rs);
    }
    r := Some(cfg);
  }

  // ---- local rules over remote ones ----

  /** A policy merged into a remote file and read over the defaults is the policy read
      over the remote file: every field it sets wins, and the others stay. */
  lemma MergeLayers(c: Codec, def: Config, remote: Document, p: Policy)
    requires IsCodec(c) && p.entropy >= 0.0 && p.confidence >= 0.0
    ensures FileRules(c, def, Merge(c, remote, p)) == FileRules(c, FileRules(c, def, remote), Local(c, p))
  {
    assert c.number(c.float(p.entropy)).Some? && c.number(c.float(p.confidence)).Some?;
  }

  // ---- what reaches the scanner ----

  lemma {:induction false} CleanedAppend(a: seq<string>, b: seq<string>)
    ensures Cleaned(a + b) == Cleaned(a) + Cleaned(b)
    decreases |b|
  {
    if b == [] {
      assert a + b == a;
    } else {
      assert (a + b)[..|a + b| - 1] == a + b[..|b| - 1];
      CleanedAppend(a, b[..|b| - 1]);
    }
  }

  /** Cleaned patterns are the patterns without the blanks around them, but for the blank ones. */
  lemma {:induction false} CleanedMeans(ps: seq<string>, q: string)
    ensures q in Cleaned(ps) <==> q != "" && exists p :: p in ps && Trim(p) == q
    decreases |ps|
  {
    if ps != [] {
      var n := |ps| - 1;
      assert ps == ps[..n] + [ps[n]];
      CleanedMeans(ps[..n], q);
    }
  }

  lemma {:induction false} CompilingAppend(c: Codec, a: seq<Rule>, b: seq<Rule>)
    ensures Compiling(c, a + b) == Compiling(c, a) + Compiling(c, b)
    decreases |b|
  {
    if b == [] {
      assert a + b == a;
    } else {
      assert (a + b)[..|a + b| - 1] == a + b[..|b| - 1];
      CompilingAppend(c, a, b[..|b| - 1]);
    }
  }

  /** Exactly the rules that do not compile are dropped. */
  lemma {:induction false} CompilingMeans(c: Codec, rs: seq<Rule>, r: Rule)
    ensures r in Compiling(c, rs) <==> r in rs && c.compiles(r.pattern)
    decreases |rs|
  {
    if rs != [] {
      var n := |rs| - 1;
      assert rs == rs[..n] + [rs[n]];
      CompilingMeans(c, rs[..n], r);
    }
  }

  /** A configuration the scanner can run: a length of 1 to 1024, rules that compile,
      and patterns without blanks around them. */
  ghost predicate IsRunnable(c: Codec, cfg: Config) {
    && 1 <= cfg.minLength <= 1024
    && (forall r :: r in cfg.custom || r in cfg.safe ==> c.compiles(r.pattern))
    && (forall p :: p in cfg.patterns ==> p != "" && Trim(p) == p)
  }

  lemma CleanedIsTrimmed(ps: seq<string>)
    ensures forall p :: p in Cleaned(ps) ==> p != "" && Trim(p) == p
  {
    forall p | p in Cleaned(ps) ensures p != "" && Trim(p) == p {
      CleanedMeans(ps, p);
      var q :| q in ps && Trim(q) == p;
      TrimTwice(q);
    }
  }

  lemma CompilingCompiles(c: Codec, rs: seq<Rule>)
    ensures forall r :: r in Compiling(c, rs) ==> c.compiles(r.pattern)
  {
    forall r | r in Compiling(c, rs) ensures c.compiles(r.pattern) { CompilingMeans(c, rs, r); }
  }

  /** Whatever the variables hold, the configuration stays runnable. */
  lemma OverriddenIsRunnable(c: Codec, env: Env, cfg: Config)
    requires IsRunnable(c, cfg)
    ensures IsRunnable(c, Overridden(c, env, cfg))
  {
    CleanedIsTrimmed(UrlMask.Split(Getenv(env, Patterns), ','));
    RulesCompile(c, Getenv(env, CustomList), cfg.custom);
    RulesCompile(c, Getenv(env, SafeList), cfg.safe);
  }

  lemma RulesCompile(c: Codec, value: string, kept: seq<Rule>)
    requires forall r :: r in kept ==> c.compiles(r.pattern)
    ensures forall r :: r in RulesOr(c, value, kept) ==> c.compiles(r.pattern)
  {
    match c.unjson(value)
    case None =>
    case Some(rs) => CompilingCompiles(c, rs);
  }

  /** So it does by file, for every file that is accepted. */
  lemma FileIsRunnable(c: Codec, def: Config, doc: Document)
    requires IsRunnable(c, def) && Acceptable(c, doc)
    ensures IsRunnable(c, FileRules(c, def, doc))
  {
    CleanedIsTrimmed(doc.patterns);
    CompilingCompiles(c, doc.custom);
    CompilingCompiles(c, doc.safe);
  }

  // ---- folded keys ----

  /** What the libraries guarantee of folding: doing it again changes nothing, no ASCII
      capital is left, and it neither adds nor removes blanks at the ends. */
  ghost predicate IsFolding(c: Codec) {
    && (forall s :: c.lower(c.lower(s)) == c.lower(s))
    && (forall s, i :: 0 <= i < |c.lower(s)| ==> !('A' <= c.lower(s)[i] <= 'Z'))
    && (forall s :: Trim(c.lower(s)) == c.lower(Trim(s)))
  }

  /** A key as the matcher needs it: folded, without capitals and without blanks around it. */
  ghost predicate IsFoldedKey(c: Codec, k: string) {
    c.lower(k) == k && (forall i :: 0 <= i < |k| ==> !('A' <= k[i] <= 'Z')) && Trim(k) == k
  }

  ghost predicate AreFolded(c: Codec, ks: seq<string>) { forall k :: k in ks ==> IsFoldedKey(c, k) }

  lemma NormalIsFolded(c: Codec, k: string)
    requires IsFolding(c)
    ensures IsFoldedKey(c, Normal(c, k))
  {
    TrimTwice(k);
    assert Trim(c.lower(Trim(k))) == c.lower(Trim(Trim(k)));
  }

  /** Whatever the entries of a policy look like, every key that reaches the scanner is
      folded: none is skipped by the matcher, by either delivery. */
  lemma KeysAreFolded(c: Codec, def: Config, env: Env, doc: Document)
    requires IsFolding(c) && AreFolded(c, def.keys)
    ensures AreFolded(c, Overridden(c, env, def).keys) && AreFolded(c, FileRules(c, def, doc).keys)
  {
    forall k: string ensures IsFoldedKey(c, Normal(c, k)) { NormalIsFolded(c, k); }
  }

  /** Blanks and capitals do not matter. */
  lemma PaddedKeyIsSame(c: Codec, k: string)
    requires IsFolding(c)
    ensures Normal(c, Normal(c, k)) == Normal(c, k)
  {
    NormalIsFolded(c, k);
  }

  // ---- comma-joined lists ----

  /** A joined list has a comma for every boundary, and more exactly if an entry has one. */
  lemma {:induction false} JoinedCommas(ss: seq<string>)
    requires ss != []
    ensures multiset(UrlMask.Rejoin(ss, ','))[','] >= |ss| - 1
    ensures (exists s :: s in ss && ',' in s) ==> multiset(UrlMask.Rejoin(ss, ','))[','] > |ss| - 1
    decreases |ss|
  {
    if |ss| > 1 {
      JoinedCommas(ss[1..]);
      assert ss == [ss[0]] + ss[1..];
      assert ',' in ss[0] ==> ',' in multiset(ss[0]);
    } else {
      assert ',' in ss[0] ==> ',' in multiset(ss[0]);
    }
  }

  lemma JoinedIsNonempty(ss: seq<string>)
    requires ss != [] && ss[0] != ""
    ensures UrlMask.Rejoin(ss, ',') != ""
  {
  }

  lemma {:induction false} TrimLeftKeeps(s: string, x: char)
    requires !IsBlank(x)
    ensures x in TrimLeft(s) <==> x in s
    decreases |s|
  {
    if s != [] && IsBlank(s[0]) {
      TrimLeftKeeps(s[1..], x);
      assert s == [s[0]] + s[1..];
    }
  }

  lemma {:induction false} TrimRightKeeps(s: string, x: char)
    requires !IsBlank(x)
    ensures x in TrimRight(s) <==> x in s
    decreases |s|
  {
    if s != [] && IsBlank(s[|s| - 1]) {
      TrimRightKeeps(s[..|s| - 1], x);
      assert s == s[..|s| - 1] + [s[|s| - 1]];
    }
  }

  lemma TrimKeeps(s: string, x: char)
    requires !IsBlank(x)
    ensures x in Trim(s) <==> x in s
  {
    TrimLeftKeeps(s, x);
    TrimRightKeeps(TrimLeft(s), x);
  }

  /** A comma survives cleaning, and none is made. */
  lemma {:induction false} CleanedCommas(ps: seq<string>)
    ensures (exists s :: s in Cleaned(ps) && ',' in s) <==> (exists s :: s in ps && ',' in s)
    decreases |ps|
  {
    if ps != [] {
      var front, last := ps[..|ps| - 1], ps[|ps| - 1];
      CleanedCommas(front);
      TrimKeeps(last, ',');
      assert ps == front + [last];
      if ',' in last {
        assert Trim(last) in Cleaned(ps);
        assert last in ps;
      }
      if s :| s in Cleaned(front) && ',' in s {
        assert s in Cleaned(ps);
      }
    }
  }

  // ---- agreement, field by field ----

  ghost predicate CommaFree(ss: seq<string>) { forall s :: s in ss ==> ',' !in s }

  lemma NumbersAgree(c: Codec, x: real, def: real)
    requires IsCodec(c) && x >= 0.0
    ensures NumberOr(c, if x != 0.0 then c.float(x) else "", def) ==
            (var d := if x != 0.0 then Shortest(c, x) else 0.0; if d > 0.0 then d else def)
  {
    assert c.float(x) != "" && Trim(c.float(x)) == c.float(x);
    assert c.number(c.float(x)).Some?;
  }

  lemma UnpaddedIsTrimmed(s: string)
    requires s != "" && !IsBlank(s[0]) && !IsBlank(s[|s| - 1])
    ensures Trim(s) == s
  {
  }

  lemma LengthsAgree(n: int, def: int)
    requires n <= MAX_LENGTH
    ensures LengthOr(if n > 0 then FormatInt(n) else "", def) == if n > 0 then n else def
  {
    if n > 0 {
      ParseFormatted(n);
      var s := FormatInt(n);
      assert IsDigit(s[0]) && IsDigit(s[|s| - 1]);
      UnpaddedIsTrimmed(s);
    }
  }

  /** Non-blank keys survive the joined variable exactly if none holds a comma. */
  lemma KeysAgree(c: Codec, ks: seq<string>, def: seq<string>)
    requires IsCodec(c) && ks != [] && forall k :: k in ks ==> Normal(c, k) != ""
    ensures KeysOr(c, JoinComma(ks), def) == Normals(c, ks) <==> CommaFree(ks)
  {
    assert ks[0] in ks;
    assert ks[0] != "" by {
      assert Trim("") == "" && c.lower("") == "";
    }
    JoinedIsNonempty(ks);
    if CommaFree(ks) {
      UrlMask.SplitJoined(ks, ',');
    } else {
      UrlMask.SplitSize(UrlMask.Rejoin(ks, ','), ',');
      JoinedCommas(ks);
      assert |KeysOr(c, JoinComma(ks), def)| > |Normals(c, ks)|;
    }
  }

  /** Patterns survive the joined variable exactly if none holds a comma. */
  lemma PatternsAgree(ps: seq<string>)
    requires ps != []
    ensures PatternsOr(JoinComma(ps), []) == Cleaned(ps) <==> CommaFree(ps)
  {
    var v := JoinComma(ps);
    if CommaFree(ps) {
      if v == "" {
        assert |ps| == 1 && ps[0] == "";
        assert ps[..0] == [];
      } else {
        UrlMask.SplitJoined(ps, ',');
      }
    } else {
      CleanedCommas(ps);
      var s :| s in ps && ',' in s;
      if v != "" {
        UrlMask.SplitSize(v, ',');
        CleanedCommas(UrlMask.Split(v, ','));
      }
    }
  }

  lemma RulesAgree(c: Codec, rs: seq<Rule>)
    requires IsCodec(c) && forall r :: r in rs ==> Usable(c, r)
    ensures RulesOr(c, Marshal(c, rs), []) == if rs != [] then Compiling(c, rs) else []
  {
    CompilingAll(c, rs);
  }

  // ---- the two deliveries ----

  /** The policies that both deliveries read alike. */
  ghost predicate Deliverable(c: Codec, p: Policy) {
    && p.entropy >= 0.0 && p.confidence >= 0.0 && p.minLength <= MAX_LENGTH
    && CommaFree(p.keys) && (forall k :: k in p.keys ==> Trim(k) != "")
    && CommaFree(p.patterns) && (forall s :: s in p.patterns ==> c.compiles(s)) && c.combines(Cleaned(p.patterns))
    && (forall r :: r in p.custom ==> Usable(c, r))
    && (forall r :: r in p.safe ==> Usable(c, r))
  }

  /** Acceptance of the rendered file in terms of the policy. */
  lemma AcceptableLocal(c: Codec, p: Policy)
    requires IsCodec(c)
    ensures Deliverable(c, p) <==> Acceptable(c, Local(c, p)) && CommaFree(p.keys) && CommaFree(p.patterns)
  {
    assert c.number(c.float(p.entropy)).Some? && c.number(c.float(p.confidence)).Some?;
    assert Cleaned([]) == [];
    forall k | k in p.keys
      ensures Normal(c, k) != "" <==> Trim(k) != ""
    {
      assert c.lower(Trim(k)) == "" <==> Trim(k) == "";
    }
  }

  /** What a sidecar makes of the seven variables of a policy. */
  function EnvRules(c: Codec, cfg: Config, p: Policy): Config {
    Rules(
      NumberOr(c, if p.entropy != 0.0 then c.float(p.entropy) else "", cfg.entropy),
      NumberOr(c, if p.confidence != 0.0 then c.float(p.confidence) else "", cfg.confidence),
      LengthOr(if p.minLength > 0 then FormatInt(p.minLength) else "", cfg.minLength),
      KeysOr(c, JoinComma(p.keys), cfg.keys),
      PatternsOr(JoinComma(p.patterns), cfg.patterns),
      RulesOr(c, Marshal(c, p.custom), cfg.custom),
      RulesOr(c, Marshal(c, p.safe), cfg.safe))
  }

  /** The values the sidecar finds under the seven names. */
  lemma RuleVarsRead(c: Codec, p: Policy, base: Env, cfg: Config)
    requires NoRules(base)
    ensures Overridden(c, AddAll(base, RuleVars(c, p)), cfg) == EnvRules(c, cfg, p)
  {
    RuleVarRead(c, p, base, 0);
    RuleVarRead(c, p, base, 1);
    RuleVarRead(c, p, base, 2);
    RuleVarRead(c, p, base, 3);
    RuleVarRead(c, p, base, 4);
    RuleVarRead(c, p, base, 5);
    RuleVarRead(c, p, base, 6);
  }

  lemma RuleVarRead(c: Codec, p: Policy, base: Env, i: nat)
    requires NoRules(base) && i < 7
    ensures Getenv(AddAll(base, RuleVars(c, p)), RuleVars(c, p)[i].name) == RuleVars(c, p)[i].value
  {
    var vs := RuleVars(c, p);
    NoRulesUnset(base, vs[i].name);
    GetenvAddAll(base, vs, i);
  }

  /** A file rendered for a policy and read by a sidecar without rule variables. */
  ghost predicate FileDelivers(c: Codec, def: Config, p: Policy, base: Env, cfg: Config) {
    && Acceptable(c, Local(c, p))
    && Overridden(c, WithoutRules(AddAll(base, RuleVars(c, p))), FileRules(c, def, Local(c, p))) == cfg
  }

  /** Dropping the rule variables once the file is mounted keeps the sidecar's
      rules if and only if the policy is deliverable. */
  lemma DeliveriesAgree(c: Codec, def: Config, p: Policy, base: Env)
    requires IsCodec(c) && IsDefault(def) && NoRules(base)
    ensures FileDelivers(c, def, p, base, Overridden(c, AddAll(base, RuleVars(c, p)), def)) <==> Deliverable(c, p)
  {
    DroppedIsBase(base, RuleVars(c, p));
    UnsetKeeps(c, base, FileRules(c, def, Local(c, p)));
    AcceptableLocal(c, p);
    if Acceptable(c, Local(c, p)) {
      RuleVarsRead(c, p, base, def);
      FieldsAgree(c, def, p);
    }
  }

  lemma FieldsAgree(c: Codec, def: Config, p: Policy)
    requires IsCodec(c) && IsDefault(def) && Acceptable(c, Local(c, p))
    ensures FileRules(c, def, Local(c, p)) == EnvRules(c, def, p) <==> CommaFree(p.keys) && CommaFree(p.patterns)
  {
    assert c.number(c.float(p.entropy)).Some? && c.number(c.float(p.confidence)).Some?;
    NumbersAgree(c, p.entropy, def.entropy);
    NumbersAgree(c, p.confidence, def.confidence);
    LengthsAgree(p.minLength, def.minLength);
    if p.keys != [] {
      KeysAgree(c, p.keys, def.keys);
    }
    if p.patterns != [] {
      PatternsAgree(p.patterns);
    }
    RulesAgree(c, p.custom);
    RulesAgree(c, p.safe);
  }

  /** A key with a comma: the file holds one key, the variable splits into two. */
  lemma CommaKeyExample(c: Codec, def: Config, base: Env)
    requires IsCodec(c) && IsDefault(def) && NoRules(base)
    ensures
      var p := EMPTY.(keys := ["a,b"]);
      && Acceptable(c, Local(c, p))
      && !FileDelivers(c, def, p, base, Overridden(c, AddAll(base, RuleVars(c, p)), def))
  {
    var p := EMPTY.(keys := ["a,b"]);
    UnpaddedIsTrimmed("a,b");
    assert "a,b"[1] == ',' && "a,b" in p.keys;
    assert !CommaFree(p.keys);
    AcceptableLocal(c, p);
    DeliveriesAgree(c, def, p, base);
  }
}
