/** The rule entities of Shifty's rule manager: which kind of browser rule a
    row is, the tri-state subdomain override, the identity of an application
    and the two kinds of stored rule. */
module Rules {

  /** The kind of a stored browser rule row. */
  datatype RuleType = Domain | SubdomainDisabled | SubdomainEnabled

  /** The derived per-subdomain override. It is never stored; the engine
      recomputes it from the rows present and the live domain state. */
  datatype SubdomainRuleType = NoOverride | Disabled | Enabled

  /** How an application is identified: by its bundle identifier or, when it
      has none, by its executable URL (an opaque string here). */
  datatype Identifier = Bundle(bundle: string) | ExecutableURL(url: string)

  /** A rule that disables Night Shift for one application. */
  datatype AppRule = AppRule(identifier: Identifier, fullScreenOnly: bool)

  /** A rule for a browser host: the host's domain is disabled, or one
      subdomain is forced disabled or forced enabled. */
  datatype BrowserRule = BrowserRule(ruleType: RuleType, host: string)

  /** Shifty's `==` on app rules: field by field, so two rules that differ
      only in `fullScreenOnly` are different members of the rule set. */
  function AppRuleEquals(lhs: AppRule, rhs: AppRule): (eq: bool)
    ensures eq <==> lhs == rhs
    ensures lhs.identifier == rhs.identifier && lhs.fullScreenOnly != rhs.fullScreenOnly ==> !eq
  {
    lhs.identifier == rhs.identifier && lhs.fullScreenOnly == rhs.fullScreenOnly
  }

  /** Shifty's `==` on browser rules: same kind and same host. */
  function BrowserRuleEquals(lhs: BrowserRule, rhs: BrowserRule): (eq: bool)
    ensures eq <==> lhs == rhs
  {
    lhs.ruleType == rhs.ruleType && lhs.host == rhs.host
  }
}
