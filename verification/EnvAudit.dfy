/** The credential audit: which environment keys are still placeholders, factory defaults or half of a pair. */
module EnvAudit {
  import opened Common
  import opened Sorting
  import opened Text

  type Lookup = string -> string

  datatype Finding = Finding(key: string, reason: string)

  /** A URL key, the credential key that goes with it, and the key whose value stands in for it, if any. */
  datatype Chain = Chain(url: string, key: string, fallback: string)

  const PLACEHOLDER := "placeholder"
  const TEMPLATE_DEFAULT := "template_default"
  const MISSING_MAIN := "missing_main"
  const MISSING_PAIR := "missing_pair"

  const MAIN_KEY := "SILICONFLOW_API_KEY"

  const PLACEHOLDER_PREFIXES: seq<string> := [
    "your-", "your_", "sk-your", "change-me", "change_me",
    "changeme", "placeholder", "xxxx", "todo", "<"
  ]

  const TEMPLATE_DEFAULTS: map<string, string> := map[
    "HEALTH_TOKEN" := "local-dev-health-2026",
    "LLM_GATEWAY_TOKEN" := "change-me-gateway-shared-secret"
  ]

  const CREDENTIAL_KEYS: seq<string> := [
    "SILICONFLOW_API_KEY", "DEEPSEEK_API_KEY", "ZHIPU_API_KEY", "GLM_API_KEY", "EMBEDDING_API_KEY",
    "RERANK_API_KEY", "SMTP_HOST", "SMTP_USER", "SMTP_PASS", "SMTP_FROM", "HEALTH_TOKEN",
    "LLM_GATEWAY_TOKEN", "COLLECTOR_KEY"
  ]

  const EMBEDDING := Chain("EMBEDDING_API_URL", "EMBEDDING_API_KEY", "")
  const RERANK := Chain("RERANK_API_URL", "RERANK_API_KEY", "EMBEDDING_API_KEY")
  const GATEWAY := Chain("LLM_GATEWAY_URL", "LLM_GATEWAY_TOKEN", "")
  const SMTP := Chain("SMTP_HOST", "SMTP_PASS", "")

  const PAIRED_CHAINS: seq<Chain> := [EMBEDDING, RERANK, GATEWAY, SMTP]

  // ---------- what a value is ----------

  /** Blank, or beginning like a template value whatever the case. */
  predicate IsPlaceholder(v: string) {
    Trim(v) == "" || exists i :: 0 <= i < |PLACEHOLDER_PREFIXES| && PLACEHOLDER_PREFIXES[i] <= Lower(Trim(v))
  }

  predicate IsSet(lookup: Lookup, key: string) {
    Trim(lookup(key)) != ""
  }

  /** Set to something that is not a placeholder. */
  predicate IsUsable(lookup: Lookup, key: string) {
    !IsPlaceholder(lookup(key))
  }

  predicate IsDefault(lookup: Lookup, key: string) {
    key in TEMPLATE_DEFAULTS && EqualFold(Trim(lookup(key)), TEMPLATE_DEFAULTS[key])
  }

  /** `IsPlaceholderCredential` */
  method IsPlaceholderCredential(v: string) returns (r: bool)
    ensures r == IsPlaceholder(v)
  {
    var s := Trim(v);
    if s == "" {
      return true;
    }
    var low := Lower(s);
    for i := 0 to |PLACEHOLDER_PREFIXES|
      invariant forall j :: 0 <= j < i ==> !(PLACEHOLDER_PREFIXES[j] <= low)
    {
      if PLACEHOLDER_PREFIXES[i] <= low {
        return true;
      }
    }
    return false;
  }

  // ---------- what the audit says of a key ----------

  /** The credential half of a chain is there: its own key is usable, or the one that stands in for it is. */
  predicate HasKey(lookup: Lookup, c: Chain) {
    IsUsable(lookup, c.key) || (c.fallback != "" && IsUsable(lookup, c.fallback))
  }

  /** The half of a chain that is missing while the other is there. */
  function MissingHalf(lookup: Lookup, c: Chain): Option<string> {
    if IsSet(lookup, c.url) && !HasKey(lookup, c) then Some(c.key)
    else if !IsSet(lookup, c.url) && HasKey(lookup, c) then Some(c.url)
    else None
  }

  /** What the first stage says of a key of the list: a template value, or the value of the template. */
  function KeyReason(lookup: Lookup, key: string): Option<string> {
    if !IsSet(lookup, key) then None
    else if !IsUsable(lookup, key) then Some(PLACEHOLDER)
    else if IsDefault(lookup, key) then Some(TEMPLATE_DEFAULT)
    else None
  }

  predicate MainMissing(lookup: Lookup) {
    !EqualFold(Trim(lookup("AI_MOCK_MODE")), "true") && !IsUsable(lookup, MAIN_KEY)
  }

  /** What has been looked at: some credential keys, perhaps the main key, and some chains. */
  datatype Scope = Scope(lookup: Lookup, keys: seq<string>, main: bool, chains: seq<Chain>) {
    /** The reason of the earliest stage that flags a key, wherever in the lists it stands. */
    ghost function Reason(key: string): Option<string> {
      if key in keys && KeyReason(lookup, key).Some? then KeyReason(lookup, key)
      else if key == MAIN_KEY && main && MainMissing(lookup) then Some(MISSING_MAIN)
      else if exists c :: c in chains && MissingHalf(lookup, c) == Some(key) then Some(MISSING_PAIR)
      else None
    }
  }

  ghost predicate KeysIncrease(out: seq<Finding>) {
    forall i, j :: 0 <= i < j < |out| ==> Less(out[i].key, out[j].key)
  }

  /** One finding for each flagged key, with its reason, in strictly increasing order of the keys. */
  ghost predicate Canonical(scope: Scope, out: seq<Finding>) {
    && KeysIncrease(out)
    && forall f :: f in out <==> scope.Reason(f.key) == Some(f.reason)
  }

  // ---------- the audit ----------

  /** What the audit has noted: the findings in order of discovery, and the keys they are about. */
  datatype Notes = Notes(out: seq<Finding>, seen: set<string>) {
    /** `add`: only the first reason for a key is kept. */
    function Add(key: string, reason: string): Notes {
      if key in seen then this else Notes(out + [Finding(key, reason)], seen + {key})
    }
  }

  ghost predicate DistinctKeys(out: seq<Finding>) {
    forall i, j :: 0 <= i < j < |out| ==> out[i].key != out[j].key
  }

  /** The notes hold just the keys flagged so far, once each, with their reasons. */
  ghost predicate Hold(notes: Notes, scope: Scope) {
    && (forall f :: f in notes.out <==> scope.Reason(f.key) == Some(f.reason))
    && (forall k :: k in notes.seen <==> scope.Reason(k).Some?)
    && DistinctKeys(notes.out)
  }

  /** A wider scope gives a key a reason that had none, and leaves every other key alone. */
  ghost predicate Adds(old_: Scope, new_: Scope, key: string, reason: string) {
    forall k :: new_.Reason(k) == if k == key && old_.Reason(k).None? then Some(reason) else old_.Reason(k)
  }

  lemma AddHolds(notes: Notes, old_: Scope, new_: Scope, key: string, reason: string)
    requires Hold(notes, old_) && Adds(old_, new_, key, reason)
    ensures Hold(notes.Add(key, reason), new_)
  {
    if key !in notes.seen {
      var out := notes.Add(key, reason).out;
      forall i | 0 <= i < |notes.out| ensures out[i].key != key {
        assert notes.out[i] in notes.out;
      }
      forall f ensures f in out <==> new_.Reason(f.key) == Some(f.reason) {
        assert f in out <==> f in notes.out || f == Finding(key, reason);
      }
    }
  }

  /** Stage one for one key: why it is flagged. */
  method ReasonOf(lookup: Lookup, k: string) returns (reason: Option<string>)
    ensures reason == KeyReason(lookup, k)
  {
    var v := Trim(lookup(k));
    TrimIdempotent(lookup(k));
    if v == "" {
      return None;
    }
    var placeholder := IsPlaceholderCredential(v);
    if placeholder {
      return Some(PLACEHOLDER);
    }
    if k in TEMPLATE_DEFAULTS && EqualFold(v, TEMPLATE_DEFAULTS[k]) {
      return Some(TEMPLATE_DEFAULT);
    }
    return None;
  }

  method AuditKey(ghost scope: Scope, lookup: Lookup, k: string, notes: Notes) returns (r: Notes)
    requires Hold(notes, scope) && scope.lookup == lookup && !scope.main && scope.chains == []
    ensures Hold(r, scope.(keys := scope.keys + [k]))
  {
    ghost var wider := scope.(keys := scope.keys + [k]);
    KeyAdds(scope, k);
    r := notes;
    var reason := ReasonOf(lookup, k);
    if reason.Some? {
      AddHolds(notes, scope, wider, k, reason.value);
      r := notes.Add(k, reason.value);
    }
  }

  lemma KeyAdds(scope: Scope, k: string)
    requires !scope.main && scope.chains == []
    ensures var wider, reason := scope.(keys := scope.keys + [k]), KeyReason(scope.lookup, k);
            if reason.Some? then Adds(scope, wider, k, reason.value) else forall x :: wider.Reason(x) == scope.Reason(x)
  {
    assert forall x :: x in scope.keys + [k] <==> x in scope.keys || x == k;
  }

  /** Stage two: the main key. */
  method AuditMain(ghost scope: Scope, lookup: Lookup, notes: Notes) returns (r: Notes)
    requires Hold(notes, scope) && scope.lookup == lookup && !scope.main && scope.chains == []
    ensures Hold(r, scope.(main := true))
  {
    var missing := false;
    if !EqualFold(Trim(lookup("AI_MOCK_MODE")), "true") {
      var mainKey := Trim(lookup(MAIN_KEY));
      TrimIdempotent(lookup(MAIN_KEY));
      var placeholder := IsPlaceholderCredential(mainKey);
      missing := mainKey == "" || placeholder;
    }
    assert missing == MainMissing(lookup);
    MainAdds(scope);
    r := notes;
    if missing {
      AddHolds(notes, scope, scope.(main := true), MAIN_KEY, MISSING_MAIN);
      r := notes.Add(MAIN_KEY, MISSING_MAIN);
    }
  }

  lemma MainAdds(scope: Scope)
    requires !scope.main && scope.chains == []
    ensures var wider := scope.(main := true);
            if MainMissing(scope.lookup) then Adds(scope, wider, MAIN_KEY, MISSING_MAIN)
            else forall k :: wider.Reason(k) == scope.Reason(k)
  {
  }

  /** Stage three for one chain: which half is missing. */
  method MissingOf(lookup: Lookup, c: Chain) returns (missing: Option<string>)
    ensures missing == MissingHalf(lookup, c)
  {
    var urlV, keyV := Trim(lookup(c.url)), Trim(lookup(c.key));
    TrimIdempotent(lookup(c.key));
    var keyPlaceholder := IsPlaceholderCredential(keyV);
    if c.fallback != "" {
      var fb := Trim(lookup(c.fallback));
      TrimIdempotent(lookup(c.fallback));
      var fbPlaceholder := IsPlaceholderCredential(fb);
      if fb != "" && !fbPlaceholder && (keyV == "" || keyPlaceholder) {
        keyV := fb;
      }
    }
    var placeholder := IsPlaceholderCredential(keyV);
    var urlSet, keySet := urlV != "", keyV != "" && !placeholder;
    missing := None;
    if urlSet != keySet {
      missing := Some(if !urlSet then c.url else c.key);
    }
  }

  method AuditChain(ghost scope: Scope, lookup: Lookup, c: Chain, notes: Notes) returns (r: Notes)
    requires Hold(notes, scope) && scope.lookup == lookup
    ensures Hold(r, scope.(chains := scope.chains + [c]))
  {
    ghost var wider := scope.(chains := scope.chains + [c]);
    ChainAdds(scope, c);
    r := notes;
    var missing := MissingOf(lookup, c);
    if missing.Some? {
      AddHolds(notes, scope, wider, missing.value, MISSING_PAIR);
      r := notes.Add(missing.value, MISSING_PAIR);
    }
  }

  lemma ChainAdds(scope: Scope, c: Chain)
    ensures var wider, half := scope.(chains := scope.chains + [c]), MissingHalf(scope.lookup, c);
            if half.Some? then Adds(scope, wider, half.value, MISSING_PAIR)
            else forall k :: wider.Reason(k) == scope.Reason(k)
  {
    var all := scope.chains + [c];
    forall k ensures (exists d :: d in all && MissingHalf(scope.lookup, d) == Some(k)) <==>
      ((exists d :: d in scope.chains && MissingHalf(scope.lookup, d) == Some(k)) || MissingHalf(scope.lookup, c) == Some(k))
    {
      if d :| d in scope.chains && MissingHalf(scope.lookup, d) == Some(k) {
        assert d in all;
      }
      assert c in all;
    }
  }

  /** `AuditCredentialPlaceholders`, over any list of keys and any list of chains. */
  method AuditCredentialPlaceholders(lookup: Lookup, keys: seq<string>, chains: seq<Chain>) returns (out: seq<Finding>)
    ensures Canonical(Scope(lookup, keys, true, chains), out)
  {
    var notes := Notes([], {});
    for i := 0 to |keys|
      invariant Hold(notes, Scope(lookup, keys[..i], false, []))
    {
      notes := AuditKey(Scope(lookup, keys[..i], false, []), lookup, keys[i], notes);
      assert keys[..i + 1] == keys[..i] + [keys[i]];
    }
    assert keys[..|keys|] == keys;
    notes := AuditMain(Scope(lookup, keys, false, []), lookup, notes);
    for i := 0 to |chains|
      invariant Hold(notes, Scope(lookup, keys, true, chains[..i]))
    {
      notes := AuditChain(Scope(lookup, keys, true, chains[..i]), lookup, chains[i], notes);
      assert chains[..i + 1] == chains[..i] + [chains[i]];
    }
    assert chains[..|chains|] == chains;
    out := Sort(notes.out, FindingBefore);
    SortedNotes(notes, Scope(lookup, keys, true, chains));
  }

  predicate FindingBefore(a: Finding, b: Finding) {
    if a.key == b.key then Less(a.reason, b.reason) else Less(a.key, b.key)
  }

  lemma FindingOrder()
    ensures IsOrder(FindingBefore)
  {
    forall a, b | FindingBefore(a, b) ensures !FindingBefore(b, a) {
      LessIsTotal(a.key, b.key);
      LessIsTotal(a.reason, b.reason);
    }
    forall a, b, c | FindingBefore(a, c) ensures FindingBefore(a, b) || FindingBefore(b, c) {
      if a.key == c.key {
        LessSplits(a.reason, b.reason, c.reason);
        LessIsTotal(a.key, b.key);
      } else {
        LessSplits(a.key, b.key, c.key);
      }
    }
  }

  lemma SortedNotes(notes: Notes, scope: Scope)
    requires Hold(notes, scope)
    ensures Canonical(scope, Sort(notes.out, FindingBefore))
  {
    var out := Sort(notes.out, FindingBefore);
    FindingOrder();
    SortMeans(notes.out, FindingBefore);
    forall f ensures f in out <==> f in notes.out {
      assert f in out <==> f in multiset(out);
    }
    forall i, j | 0 <= i < j < |out| ensures Less(out[i].key, out[j].key) {
      assert out[i] in out && out[j] in out;
      if out[i] == out[j] {
        Twice(out, i, j);
        AtMostOnce(notes.out, out[i]);
      }
      LessIsTotal(out[i].key, out[j].key);
    }
  }

  lemma {:induction false} AtMostOnce(out: seq<Finding>, f: Finding)
    requires DistinctKeys(out)
    ensures multiset(out)[f] <= 1
  {
    if out != [] {
      AtMostOnce(out[1..], f);
      assert out == [out[0]] + out[1..];
      assert out[0] !in out[1..];
    }
  }

  // ---------- what the result depends on ----------

  /** Findings that say of every key what some scope says of it, in order, are the only ones that do. */
  lemma {:induction false} IncreasingUnique(a: seq<Finding>, b: seq<Finding>)
    requires KeysIncrease(a) && KeysIncrease(b)
    requires forall f :: f in a <==> f in b
    ensures a == b
  {
    SameEmptiness(a, b);
    if a != [] {
      assert a[0] in b && b[0] in a;
      LessIsTotal(a[0].key, b[0].key);
      LessIsTotal(a[0].key, a[0].key);
      assert a[0] == b[0];
      forall f ensures f in a[1..] <==> f in b[1..] {
        TailIsRest(a, f);
        TailIsRest(b, f);
      }
      IncreasingUnique(a[1..], b[1..]);
    }
  }

  lemma SameEmptiness<T>(a: seq<T>, b: seq<T>)
    requires forall f :: f in a <==> f in b
    ensures a == [] <==> b == []
  {
    if a != [] { assert a[0] in b; }
    if b != [] { assert b[0] in a; }
  }

  lemma TailIsRest(a: seq<Finding>, f: Finding)
    requires a != [] && KeysIncrease(a)
    ensures f in a[1..] <==> f in a && f != a[0]
  {
    if f in a[1..] {
      var i :| 0 < i < |a| && a[i] == f;
      LessIsTotal(a[0].key, a[i].key);
    }
  }

  /** However the keys and the chains are listed, and however often, the audit says the same. */
  lemma OrderNeverShows(lookup: Lookup, keys: seq<string>, chains: seq<Chain>, a: seq<Finding>,
                        keys': seq<string>, chains': seq<Chain>, b: seq<Finding>)
    requires (forall k :: k in keys <==> k in keys') && (forall c :: c in chains <==> c in chains')
    requires Canonical(Scope(lookup, keys, true, chains), a)
    requires Canonical(Scope(lookup, keys', true, chains'), b)
    ensures a == b
  {
    forall k ensures Scope(lookup, keys, true, chains).Reason(k) == Scope(lookup, keys', true, chains').Reason(k) {
    }
    IncreasingUnique(a, b);
  }

  // ---------- chains that are not configured at all ----------

  /** Neither half of the chain is set. */
  predicate Unset(lookup: Lookup, c: Chain) {
    !IsSet(lookup, c.url) && !IsSet(lookup, c.key)
  }

  /** The audit of the production lists. */
  function CodeScope(lookup: Lookup): Scope {
    Scope(lookup, CREDENTIAL_KEYS, true, PAIRED_CHAINS)
  }

  ghost predicate Reported(lookup: Lookup, key: string) {
    CodeScope(lookup).Reason(key).Some?
  }

  ghost predicate QuietAbout(lookup: Lookup, c: Chain) {
    !Reported(lookup, c.url) && !Reported(lookup, c.key)
  }

  /** Two chains share neither a URL key nor a credential key. */
  predicate Apart(c: Chain, d: Chain) {
    c.url != d.url && c.url != d.key && c.key != d.url && c.key != d.key
  }

  lemma ChainsApart()
    ensures forall c, d :: c in PAIRED_CHAINS && d in PAIRED_CHAINS && c != d ==> Apart(c, d)
    ensures forall c :: c in PAIRED_CHAINS ==> c.url != MAIN_KEY && c.key != MAIN_KEY
    ensures forall c :: c in PAIRED_CHAINS ==> (c.fallback != "" <==> c == RERANK)
  {
    assert forall c :: c in PAIRED_CHAINS ==> c == EMBEDDING || c == RERANK || c == GATEWAY || c == SMTP;
    assert "LLM_GATEWAY_URL"[12] != "LLM_GATEWAY_TOKEN"[12];
    assert "SMTP_HOST"[5] != "SMTP_PASS"[5];
  }

  lemma QuietIffNotHalf(scope: Scope, c: Chain)
    requires c in scope.chains && Unset(scope.lookup, c) && c.url != MAIN_KEY && c.key != MAIN_KEY
    requires forall d :: d in scope.chains && d != c ==> Apart(c, d)
    ensures scope.Reason(c.url).None? && scope.Reason(c.key).None? <==> MissingHalf(scope.lookup, c).None?
  {
  }

  /** "Nothing configured, nothing reported" holds of every chain exactly when reranking, if it is not
      configured, has no embedding key to borrow: the borrowed key counts as half a configuration. */
  lemma UnsetIsQuietIff(lookup: Lookup)
    ensures (forall c :: c in PAIRED_CHAINS && Unset(lookup, c) ==> QuietAbout(lookup, c))
      <==> !(Unset(lookup, RERANK) && IsUsable(lookup, EMBEDDING.key))
  {
    ChainsApart();
    assert RERANK in PAIRED_CHAINS;
    forall c | c in PAIRED_CHAINS && Unset(lookup, c)
      ensures QuietAbout(lookup, c) <==> !(c == RERANK && IsUsable(lookup, EMBEDDING.key))
    {
      QuietIffNotHalf(CodeScope(lookup), c);
    }
  }

  /** An environment with embedding and without reranking is told that the reranking address is missing. */
  lemma UnconfiguredReranking() returns (lookup: Lookup)
    ensures Unset(lookup, RERANK) && Reported(lookup, RERANK.url)
    ensures IsSet(lookup, EMBEDDING.url) && IsUsable(lookup, EMBEDDING.key)
  {
    lookup := k => if k == "EMBEDDING_API_URL" || k == "EMBEDDING_API_KEY" then "e" else "";
    assert Trim("e") == "e" && Lower("e") == "e";
    assert forall i :: 0 <= i < |PLACEHOLDER_PREFIXES| ==> !(PLACEHOLDER_PREFIXES[i] <= "e");
    assert RERANK in PAIRED_CHAINS && MissingHalf(lookup, RERANK) == Some(RERANK.url);
  }

  // ---------- a placeholder and the key that stands in for it ----------

  /** The chain for an audit that borrows the stand-in only where the chain's own key is not set at all. */
  function Strictly(lookup: Lookup, c: Chain): Chain {
    if IsSet(lookup, c.key) then c.(fallback := "") else c
  }

  function StrictChains(lookup: Lookup): seq<Chain> {
    [Strictly(lookup, EMBEDDING), Strictly(lookup, RERANK), Strictly(lookup, GATEWAY), Strictly(lookup, SMTP)]
  }

  /** A placeholder in the chain's own key, a usable stand-in, and no address. */
  predicate PlaceholderReplaced(lookup: Lookup, c: Chain) {
    && !IsSet(lookup, c.url) && IsSet(lookup, c.key) && !IsUsable(lookup, c.key)
    && c.fallback != "" && IsUsable(lookup, c.fallback)
  }

  /** One chain: where the two audits differ over it, the key is noted as a placeholder already, or the code
      reports the address. */
  lemma StrictHalf(lookup: Lookup, c: Chain)
    ensures var code, strict := MissingHalf(lookup, c), MissingHalf(lookup, Strictly(lookup, c));
            code == strict
            || (strict == Some(c.key) && code == None && KeyReason(lookup, c.key) == Some(PLACEHOLDER))
            || (PlaceholderReplaced(lookup, c) && code == Some(c.url) && strict == None)
    ensures PlaceholderReplaced(lookup, c) ==>
      MissingHalf(lookup, c) == Some(c.url) && MissingHalf(lookup, Strictly(lookup, c)) == None
  {
  }

  function StrictScope(lookup: Lookup): Scope {
    Scope(lookup, CREDENTIAL_KEYS, true, StrictChains(lookup))
  }

  /** A chain reports a key of its own: some chain of the strict list and the chain it comes from. */
  lemma StrictMissing(lookup: Lookup, key: string)
    ensures (exists d :: d in StrictChains(lookup) && MissingHalf(lookup, d) == Some(key))
      <==> (exists c :: c in PAIRED_CHAINS && MissingHalf(lookup, Strictly(lookup, c)) == Some(key))
  {
    var strict := StrictChains(lookup);
    assert forall k :: 0 <= k < 4 ==> strict[k] == Strictly(lookup, PAIRED_CHAINS[k]);
    if d :| d in strict && MissingHalf(lookup, d) == Some(key) {
      var k :| 0 <= k < 4 && strict[k] == d;
      assert PAIRED_CHAINS[k] in PAIRED_CHAINS;
    }
    if c :| c in PAIRED_CHAINS && MissingHalf(lookup, Strictly(lookup, c)) == Some(key) {
      var k :| 0 <= k < 4 && PAIRED_CHAINS[k] == c;
      assert strict[k] in strict;
    }
  }

  lemma CredentialKeyOfRerank()
    ensures RERANK.key in CREDENTIAL_KEYS
  {
    assert CREDENTIAL_KEYS[5] == RERANK.key;
  }

  /** One chain reports the same to both audits, but for a key that the first stage has noted. */
  lemma SameHalf(lookup: Lookup, c: Chain, key: string)
    requires c in PAIRED_CHAINS && !PlaceholderReplaced(lookup, RERANK)
    requires !(key in CREDENTIAL_KEYS && KeyReason(lookup, key).Some?)
    ensures MissingHalf(lookup, c) == Some(key) <==> MissingHalf(lookup, Strictly(lookup, c)) == Some(key)
  {
    ChainsApart();
    CredentialKeyOfRerank();
    StrictHalf(lookup, c);
    if c != RERANK {
      assert Strictly(lookup, c) == c;
    }
  }

  lemma SameReasons(lookup: Lookup, key: string)
    requires !PlaceholderReplaced(lookup, RERANK)
    ensures CodeScope(lookup).Reason(key) == StrictScope(lookup).Reason(key)
  {
    if !(key in CREDENTIAL_KEYS && KeyReason(lookup, key).Some?) {
      StrictMissing(lookup, key);
      forall c | c in PAIRED_CHAINS
        ensures MissingHalf(lookup, c) == Some(key) <==> MissingHalf(lookup, Strictly(lookup, c)) == Some(key)
      {
        SameHalf(lookup, c, key);
      }
      SameExists(lookup, key);
    }
  }

  lemma SameExists(lookup: Lookup, key: string)
    requires forall c :: c in PAIRED_CHAINS ==>
      (MissingHalf(lookup, c) == Some(key) <==> MissingHalf(lookup, Strictly(lookup, c)) == Some(key))
    ensures (exists c :: c in PAIRED_CHAINS && MissingHalf(lookup, c) == Some(key))
      <==> (exists c :: c in PAIRED_CHAINS && MissingHalf(lookup, Strictly(lookup, c)) == Some(key))
  {
  }

  lemma OnlyCodeReports(lookup: Lookup)
    requires PlaceholderReplaced(lookup, RERANK)
    ensures CodeScope(lookup).Reason(RERANK.url) == Some(MISSING_PAIR)
    ensures StrictScope(lookup).Reason(RERANK.url) == None
  {
    ChainsApart();
    StrictHalf(lookup, RERANK);
    assert RERANK in PAIRED_CHAINS;
    StrictMissing(lookup, RERANK.url);
    forall c | c in PAIRED_CHAINS ensures MissingHalf(lookup, Strictly(lookup, c)) != Some(RERANK.url) {
      assert c != RERANK ==> Apart(RERANK, c);
    }
  }

  /** The findings differ from those of an audit that never replaces a placeholder exactly when reranking has a
      placeholder for its key, no address, and a usable embedding key: the code then reports the address. With
      an address the placeholder is noted in the first stage, and the two audits agree. */
  lemma PlaceholderBorrowIff(lookup: Lookup, code: seq<Finding>, strict: seq<Finding>)
    requires Canonical(CodeScope(lookup), code) && Canonical(StrictScope(lookup), strict)
    ensures code != strict <==> PlaceholderReplaced(lookup, RERANK)
  {
    if PlaceholderReplaced(lookup, RERANK) {
      OnlyCodeReports(lookup);
      var f := Finding(RERANK.url, MISSING_PAIR);
      assert f in code && f !in strict;
    } else {
      forall key ensures CodeScope(lookup).Reason(key) == StrictScope(lookup).Reason(key) {
        SameReasons(lookup, key);
      }
      IncreasingUnique(code, strict);
    }
  }

  /** Reranking has a placeholder for its key and no address, beside a usable embedding key. */
  lemma PlaceholderIsReplaced() returns (lookup: Lookup)
    ensures lookup("RERANK_API_KEY") == "todo" && PlaceholderReplaced(lookup, RERANK)
    ensures CodeScope(lookup).Reason(RERANK.url) == Some(MISSING_PAIR)
  {
    lookup := k => if k == "RERANK_API_KEY" then "todo" else if k == "EMBEDDING_API_KEY" then "e" else "";
    assert Trim("e") == "e" && Lower("e") == "e";
    assert forall i :: 0 <= i < |PLACEHOLDER_PREFIXES| ==> !(PLACEHOLDER_PREFIXES[i] <= "e");
    assert Trim("todo") == "todo" && Lower("todo") == "todo" && PLACEHOLDER_PREFIXES[8] == "todo";
    OnlyCodeReports(lookup);
  }

  // ---------- the verdicts in the environment's own values ----------

  /** The main key is missing exactly when the mode, but for blanks and case, is not the word true, and the value of
      the key is blank or a template. */
  lemma MainMissingIff(lookup: Lookup)
    ensures MainMissing(lookup) <==>
      Lower(Trim(lookup("AI_MOCK_MODE"))) != "true" && IsPlaceholder(lookup("SILICONFLOW_API_KEY"))
  {
    assert Lower("true") == "true";
  }

  /** A chain without a stand-in is reported exactly when one half is there without the other. */
  lemma PlainChainIff(lookup: Lookup, c: Chain)
    requires c.fallback == ""
    ensures MissingHalf(lookup, c).None? <==> (Trim(lookup(c.url)) != "" <==> !IsPlaceholder(lookup(c.key)))
    ensures MissingHalf(lookup, c) == Some(c.url) && c.url != c.key ==> Trim(lookup(c.url)) == ""
  {
  }

  /** A key of the list is flagged exactly when its value is not blank, and is a template or the factory default. */
  lemma KeyReasonIff(lookup: Lookup, key: string)
    ensures var v := Trim(lookup(key));
            && (KeyReason(lookup, key) == Some("placeholder") <==> v != "" && IsPlaceholder(v))
            && (KeyReason(lookup, key) == Some("template_default") <==>
                  v != "" && !IsPlaceholder(v)
                  && ((key == "HEALTH_TOKEN" && Lower(v) == "local-dev-health-2026")
                      || (key == "LLM_GATEWAY_TOKEN" && Lower(v) == "change-me-gateway-shared-secret")))
            && (KeyReason(lookup, key).Some? ==> KeyReason(lookup, key).value in {"placeholder", "template_default"})
  {
    TrimIdempotent(lookup(key));
    assert PLACEHOLDER == "placeholder" && TEMPLATE_DEFAULT == "template_default" && PLACEHOLDER[0] != TEMPLATE_DEFAULT[0];
    DefaultIff(lookup, key);
    SameTrimmed(lookup(key));
  }

  lemma SameTrimmed(v: string)
    ensures IsPlaceholder(Trim(v)) <==> IsPlaceholder(v)
  {
    TrimIdempotent(v);
  }

  /** The two factory defaults, whatever the case. */
  lemma DefaultIff(lookup: Lookup, key: string)
    ensures IsDefault(lookup, key) <==>
      (key == "HEALTH_TOKEN" && Lower(Trim(lookup(key))) == "local-dev-health-2026")
      || (key == "LLM_GATEWAY_TOKEN" && Lower(Trim(lookup(key))) == "change-me-gateway-shared-secret")
  {
    DefaultKeys(key);
    DefaultsLower();
    if key in TEMPLATE_DEFAULTS {
      FoldsTo(Trim(lookup(key)), TEMPLATE_DEFAULTS[key]);
    }
  }

  predicate NoCapitals(s: string) {
    forall i :: 0 <= i < |s| ==> !('A' <= s[i] <= 'Z')
  }

  lemma DefaultsLower()
    ensures NoCapitals("local-dev-health-2026") && NoCapitals("change-me-gateway-shared-secret")
  {
  }

  lemma FoldsTo(v: string, lower: string)
    requires NoCapitals(lower)
    ensures EqualFold(v, lower) <==> Lower(v) == lower
  {
    LowerOfLower(lower);
  }

  lemma DefaultKeys(key: string)
    ensures key in TEMPLATE_DEFAULTS <==> key == "HEALTH_TOKEN" || key == "LLM_GATEWAY_TOKEN"
    ensures key == "HEALTH_TOKEN" ==> TEMPLATE_DEFAULTS[key] == "local-dev-health-2026"
    ensures key == "LLM_GATEWAY_TOKEN" ==> TEMPLATE_DEFAULTS[key] == "change-me-gateway-shared-secret"
  {
    assert "HEALTH_TOKEN"[0] != "LLM_GATEWAY_TOKEN"[0];
  }

  lemma LowerOfLower(s: string)
    requires NoCapitals(s)
    ensures Lower(s) == s
  {
  }

  lemma PrefixesAre(low: string)
    ensures (exists i :: 0 <= i < |PLACEHOLDER_PREFIXES| && PLACEHOLDER_PREFIXES[i] <= low) <==>
      "your-" <= low || "your_" <= low || "sk-your" <= low || "change-me" <= low || "change_me" <= low
      || "changeme" <= low || "placeholder" <= low || "xxxx" <= low || "todo" <= low || "<" <= low
  {
    var p := PLACEHOLDER_PREFIXES;
    assert |p| == 10 && p[0] == "your-" && p[1] == "your_" && p[2] == "sk-your" && p[3] == "change-me" && p[4] == "change_me";
    assert p[5] == "changeme" && p[6] == "placeholder" && p[7] == "xxxx" && p[8] == "todo" && p[9] == "<";
  }

  /** Blank, or beginning with one of these, whatever the case. */
  lemma PlaceholderIff(v: string)
    ensures var low := Lower(Trim(v));
            IsPlaceholder(v) <==>
              Trim(v) == "" || "your-" <= low || "your_" <= low || "sk-your" <= low || "change-me" <= low
              || "change_me" <= low || "changeme" <= low || "placeholder" <= low || "xxxx" <= low || "todo" <= low
              || "<" <= low
  {
    PrefixesAre(Lower(Trim(v)));
  }
}
