/** Worked scenarios: sequences of setter calls on a fresh rule manager and
    what they leave behind, derived only from the setters' contracts. */
module RuleScenarios {
  import opened Wrappers
  import opened Rules
  import opened RuleEngine

  /** Safari on a.com, visiting x.a.com. */
  function BrowsingContext(): (ctx: Context)
    ensures ctx.currentDomain.Some? && ctx.currentSubdomain.Some?
  {
    Context(Some("com.apple.Safari"), None, Some("a.com"), Some("x.a.com"), true)
  }

  /** Disabling an application with no rules yet stores exactly one rule,
      without `fullScreenOnly`, and sends exactly one `DisableRuleActivated`. */
  method DisableAppFromEmpty() returns (apps: set<AppRule>, sent: seq<Call>)
    ensures apps == {AppRule(Bundle("com.example.App"), false)}
    ensures sent == [Respond(DisableRuleActivated, apps, {})]
  {
    var manager := new RuleManager(None, None);
    var ctx := Context(Some("com.example.App"), None, None, None, false);
    manager.SetDisabledForApp(ctx, true);
    apps, sent := manager.disabledApps, manager.calls;
  }

  /** Re-enabling a disabled domain whose subdomain is overridden to enabled
      first clears the override and then the domain: `EnableRuleDeactivated`
      (sent once the override row is gone) and then `DisableRuleDeactivated`
      (sent once the domain row is gone). */
  method ReEnableDomainWithEnabledSubdomain() returns (rules: set<BrowserRule>, sent: seq<Call>)
    ensures rules == {}
    ensures sent == [Respond(EnableRuleDeactivated, {}, {BrowserRule(Domain, "a.com")}),
                     Respond(DisableRuleDeactivated, {}, {})]
  {
    var manager := new RuleManager(None, None);
    var ctx := BrowsingContext();
    manager.SetDisabledForDomain(ctx, true);
    manager.SetRuleForSubdomain(ctx, Enabled);
    assert RuleForSubdomain(manager.browserRules, ctx) == Enabled;
    assert !DisableRuleIsActive(manager.disabledApps, manager.browserRules, ctx);
    var before := |manager.calls|;
    manager.SetDisabledForDomain(ctx, false);
    rules, sent := manager.browserRules, manager.calls[before..];
  }

  /** Overriding a subdomain to enabled and then to disabled keeps both
      rows: the setter inserts and never removes the other kind. */
  method EnableThenDisableSubdomain() returns (rules: set<BrowserRule>, rule: SubdomainRuleType)
    ensures rules == {BrowserRule(SubdomainEnabled, "x.a.com"), BrowserRule(SubdomainDisabled, "x.a.com")}
    ensures rule == Disabled
  {
    var manager := new RuleManager(None, None);
    var ctx := BrowsingContext();
    manager.SetRuleForSubdomain(ctx, Enabled);
    manager.SetRuleForSubdomain(ctx, Disabled);
    rules := manager.browserRules;
    rule := RuleForSubdomain(rules, ctx);
  }
}
