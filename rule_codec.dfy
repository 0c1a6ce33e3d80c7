/** The persisted form of the rule sets. Each rule set is stored as one blob
    of field-tagged records; an application identifier is a keyed container
    holding either a `bundle` or an `executableURL` entry. Keyed containers
    are modelled as maps from key to string, and a blob as the set of its
    records (the order of the property-list array is not modelled). */
module RuleCodec {
  import opened Wrappers
  import opened Rules

  /** The coding keys of an application identifier. */
  datatype IdentifierKey = BundleKey | ExecutableURLKey

  /** The keyed container an identifier is encoded into. */
  type IdentifierContainer = map<IdentifierKey, string>

  /** Why decoding one record failed. */
  datatype DecodeError = KeyNotFound(key: IdentifierKey) | InvalidRawValue(raw: string)

  /** The persisted record of one app rule (the synthesized field-tagged
      encoding: `identifier` and `fullScreenOnly`). */
  datatype AppRuleRecord = AppRuleRecord(identifier: IdentifierContainer, fullScreenOnly: bool)

  /** The persisted record of one browser rule: the rule type's raw string
      under `type`, and the host. */
  datatype BrowserRuleRecord = BrowserRuleRecord(ruleType: string, host: string)

  /** Encoding writes exactly one key: `bundle` for a bundle identifier,
      `executableURL` for an executable URL. */
  function EncodeIdentifier(id: Identifier): (c: IdentifierContainer)
    ensures |c| == 1
    ensures id.Bundle? <==> BundleKey in c
    ensures id.ExecutableURL? <==> ExecutableURLKey in c
  {
    match id
    case Bundle(b) => map[BundleKey := b]
    case ExecutableURL(u) => map[ExecutableURLKey := u]
  }

  /** Decoding tries the `bundle` key first and falls back to
      `executableURL`; with neither present the second attempt's
      key-not-found error is what surfaces. */
  function DecodeIdentifier(c: IdentifierContainer): (r: Result<Identifier, DecodeError>)
    ensures BundleKey in c ==> r == Success(Bundle(c[BundleKey]))
    ensures r.Success? && r.value.ExecutableURL? ==>
              BundleKey !in c && ExecutableURLKey in c && c[ExecutableURLKey] == r.value.url
    ensures r.Failure? <==> BundleKey !in c && ExecutableURLKey !in c
    ensures r.Failure? ==> r.error == KeyNotFound(ExecutableURLKey)
  {
    if BundleKey in c then Success(Bundle(c[BundleKey]))
    else if ExecutableURLKey in c then Success(ExecutableURL(c[ExecutableURLKey]))
    else Failure(KeyNotFound(ExecutableURLKey))
  }

  /** Decoding an encoded identifier gives it back, for both variants. */
  lemma IdentifierRoundTrip(id: Identifier)
    ensures DecodeIdentifier(EncodeIdentifier(id)) == Success(id)
  {
  }

  /** The other direction: a container holding exactly one of the two keys
      is reproduced by decoding and re-encoding it. A container holding both
      keys is not: the `executableURL` entry is dropped. */
  lemma ContainerRoundTrip(c: IdentifierContainer)
    requires |c| == 1
    ensures DecodeIdentifier(c).Success?
    ensures EncodeIdentifier(DecodeIdentifier(c).value) == c
  {
    var k :| k in c;
    if k == BundleKey {
      SingletonMap(c, BundleKey);
    } else {
      SingletonMap(c, ExecutableURLKey);
    }
  }

  /** A map with one entry is the one-entry map display of that entry. */
  lemma SingletonMap(c: IdentifierContainer, k: IdentifierKey)
    requires |c| == 1 && k in c
    ensures c == map[k := c[k]]
  {
    var other := c.Keys - {k};
    assert c.Keys == other + {k};
    assert |other| == 0;
  }

  /** The raw string each rule type is stored as. */
  function RuleTypeRawValue(t: RuleType): (raw: string)
    ensures raw != []
  {
    match t
    case Domain => "domain"
    case SubdomainDisabled => "subdomainDisabled"
    case SubdomainEnabled => "subdomainEnabled"
  }

  /** The rule type a raw string denotes, if any. */
  function RuleTypeFromRawValue(raw: string): (t: Option<RuleType>)
    ensures t.Some? ==> RuleTypeRawValue(t.value) == raw
  {
    if raw == "domain" then Some(Domain)
    else if raw == "subdomainDisabled" then Some(SubdomainDisabled)
    else if raw == "subdomainEnabled" then Some(SubdomainEnabled)
    else None
  }

  /** Raw values round-trip in both directions: every rule type is read back
      from its raw value, and a string is accepted exactly when it is the
      raw value of the type it is read as. */
  lemma RawValueRoundTrip(t: RuleType, raw: string)
    ensures RuleTypeFromRawValue(RuleTypeRawValue(t)) == Some(t)
    ensures RuleTypeFromRawValue(raw) == Some(t) <==> raw == RuleTypeRawValue(t)
  {
  }

  function EncodeAppRule(rule: AppRule): (rec: AppRuleRecord)
    ensures rec.fullScreenOnly == rule.fullScreenOnly
    ensures |rec.identifier| == 1
  {
    AppRuleRecord(EncodeIdentifier(rule.identifier), rule.fullScreenOnly)
  }

  function DecodeAppRule(rec: AppRuleRecord): (r: Result<AppRule, DecodeError>)
    ensures r.Success? <==> DecodeIdentifier(rec.identifier).Success?
    ensures r.Success? ==> r.value.fullScreenOnly == rec.fullScreenOnly
  {
    match DecodeIdentifier(rec.identifier)
    case Success(id) => Success(AppRule(id, rec.fullScreenOnly))
    case Failure(e) => Failure(e)
  }

  function EncodeBrowserRule(rule: BrowserRule): (rec: BrowserRuleRecord)
    ensures rec.host == rule.host
  {
    BrowserRuleRecord(RuleTypeRawValue(rule.ruleType), rule.host)
  }

  function DecodeBrowserRule(rec: BrowserRuleRecord): (r: Result<BrowserRule, DecodeError>)
    ensures r.Success? <==> RuleTypeFromRawValue(rec.ruleType).Some?
    ensures r.Failure? ==> r.error == InvalidRawValue(rec.ruleType)
    ensures r.Success? ==> r.value.host == rec.host
  {
    match RuleTypeFromRawValue(rec.ruleType)
    case Some(t) => Success(BrowserRule(t, rec.host))
    case None => Failure(InvalidRawValue(rec.ruleType))
  }

  /** No two app rules share a record. */
  lemma EncodeAppRuleInjective(a: AppRule, b: AppRule)
    requires EncodeAppRule(a) == EncodeAppRule(b)
    ensures a == b
  {
  }

  /** The blob stored for the app rule set: one record per rule, and a
      rule's record is in the blob exactly when the rule is in the set. */
  function EncodeAppRules(rules: set<AppRule>): (blob: set<AppRuleRecord>)
    ensures forall rule {:trigger EncodeAppRule(rule)} :: rule in rules <==> EncodeAppRule(rule) in blob
  {
    var blob := set rule | rule in rules :: EncodeAppRule(rule);
    assert forall rule :: EncodeAppRule(rule) in blob ==> rule in rules by {
      forall rule | EncodeAppRule(rule) in blob ensures rule in rules {
        var orig :| orig in rules && EncodeAppRule(orig) == EncodeAppRule(rule);
        EncodeAppRuleInjective(orig, rule);
      }
    }
    blob
  }

  /** Decoding a blob fails as a whole when any one record fails. */
  function DecodeAppRules(blob: set<AppRuleRecord>): (r: Option<set<AppRule>>)
    ensures r.Some? <==> forall rec | rec in blob :: DecodeAppRule(rec).Success?
  {
    if forall rec | rec in blob :: DecodeAppRule(rec).Success? then
      Some(set rec | rec in blob :: DecodeAppRule(rec).value)
    else
      None
  }

  /** No two browser rules share a record. */
  lemma EncodeBrowserRuleInjective(a: BrowserRule, b: BrowserRule)
    requires EncodeBrowserRule(a) == EncodeBrowserRule(b)
    ensures a == b
  {
  }

  /** The blob stored for the browser rule set: one record per rule, and a
      rule's record is in the blob exactly when the rule is in the set. */
  function EncodeBrowserRules(rules: set<BrowserRule>): (blob: set<BrowserRuleRecord>)
    ensures forall rule {:trigger EncodeBrowserRule(rule)} :: rule in rules <==> EncodeBrowserRule(rule) in blob
  {
    var blob := set rule | rule in rules :: EncodeBrowserRule(rule);
    assert forall rule :: EncodeBrowserRule(rule) in blob ==> rule in rules by {
      forall rule | EncodeBrowserRule(rule) in blob ensures rule in rules {
        var orig :| orig in rules && EncodeBrowserRule(orig) == EncodeBrowserRule(rule);
        EncodeBrowserRuleInjective(orig, rule);
      }
    }
    blob
  }

  function DecodeBrowserRules(blob: set<BrowserRuleRecord>): (r: Option<set<BrowserRule>>)
    ensures r.Some? <==> forall rec | rec in blob :: DecodeBrowserRule(rec).Success?
  {
    if forall rec | rec in blob :: DecodeBrowserRule(rec).Success? then
      Some(set rec | rec in blob :: DecodeBrowserRule(rec).value)
    else
      None
  }

  /** Encoding then decoding the app rule set yields the same set. */
  lemma AppRulesRoundTrip(rules: set<AppRule>)
    ensures DecodeAppRules(EncodeAppRules(rules)) == Some(rules)
  {
    var blob := EncodeAppRules(rules);
    forall rec | rec in blob ensures DecodeAppRule(rec).Success? {
      var rule :| rule in rules && rec == EncodeAppRule(rule);
      IdentifierRoundTrip(rule.identifier);
    }
    var decoded := set rec | rec in blob :: DecodeAppRule(rec).value;
    forall rule | rule in rules ensures rule in decoded {
      IdentifierRoundTrip(rule.identifier);
      assert EncodeAppRule(rule) in blob;
    }
    forall rule | rule in decoded ensures rule in rules {
      var rec :| rec in blob && rule == DecodeAppRule(rec).value;
      var orig :| orig in rules && rec == EncodeAppRule(orig);
      IdentifierRoundTrip(orig.identifier);
    }
    assert decoded == rules;
    assert DecodeAppRules(blob) == Some(decoded);
  }

  /** Encoding then decoding the browser rule set yields the same set. */
  lemma BrowserRulesRoundTrip(rules: set<BrowserRule>)
    ensures DecodeBrowserRules(EncodeBrowserRules(rules)) == Some(rules)
  {
    var blob := EncodeBrowserRules(rules);
    forall rec | rec in blob ensures DecodeBrowserRule(rec).Success? {
      var rule :| rule in rules && rec == EncodeBrowserRule(rule);
      RawValueRoundTrip(rule.ruleType, rec.ruleType);
    }
    var decoded := set rec | rec in blob :: DecodeBrowserRule(rec).value;
    forall rule | rule in rules ensures rule in decoded {
      RawValueRoundTrip(rule.ruleType, RuleTypeRawValue(rule.ruleType));
      assert EncodeBrowserRule(rule) in blob;
    }
    forall rule | rule in decoded ensures rule in rules {
      var rec :| rec in blob && rule == DecodeBrowserRule(rec).value;
      var orig :| orig in rules && rec == EncodeBrowserRule(orig);
      RawValueRoundTrip(orig.ruleType, rec.ruleType);
    }
    assert decoded == rules;
    assert DecodeBrowserRules(blob) == Some(decoded);
  }
}
