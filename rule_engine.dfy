/** The rule-precedence engine: decides whether Night Shift must be
    suppressed for the foreground application or, inside a supported browser,
    for the current domain and subdomain, and tells the Night Shift responder
    about rule changes.

    The foreground application and the browser's current domain and subdomain
    come from collaborators; here they are the `Context` every getter and
    setter is handed. Calls out to the responder and to the browser watcher
    are recorded, in order, in the manager's `calls` trace. */
module RuleEngine {
  import opened Wrappers
  import opened Rules
  import opened RuleCodec

  /** The events sent to the Night Shift responder. */
  datatype NightShiftEvent =
    | DisableRuleActivated
    | DisableRuleDeactivated
    | EnableRuleActivated
    | EnableRuleDeactivated

  /** What the collaborators report about the current situation: the
      foreground application's bundle identifier and executable URL (either
      may be missing), the browser's current domain and subdomain, and
      whether the foreground application is a supported browser. */
  datatype Context = Context(
    bundleIdentifier: Option<string>,
    executableURL: Option<string>,
    currentDomain: Option<string>,
    currentSubdomain: Option<string>,
    currentAppIsSupportedBrowser: bool)

  /** One call out of the engine. A response records the two rule sets as
      they stand when it is sent, which is what a responder that queries the
      engine while handling the event sees. */
  datatype Call =
    | Respond(event: NightShiftEvent, apps: set<AppRule>, rules: set<BrowserRule>)
    | StopBrowserWatcher
    | UpdateForSupportedBrowser

  /** The identity of the foreground application: its bundle identifier if
      it has one, otherwise its executable URL, otherwise none. */
  function CurrentIdentifier(ctx: Context): (id: Option<Identifier>)
    ensures id.None? <==> ctx.bundleIdentifier.None? && ctx.executableURL.None?
    ensures ctx.bundleIdentifier.Some? ==> id == Some(Bundle(ctx.bundleIdentifier.value))
    ensures ctx.bundleIdentifier.None? && ctx.executableURL.Some? ==>
              id == Some(ExecutableURL(ctx.executableURL.value))
    ensures id.Some? && id.value.ExecutableURL? ==>
              ctx.bundleIdentifier.None? && ctx.executableURL == Some(id.value.url)
  {
    if ctx.bundleIdentifier.Some? then Some(Bundle(ctx.bundleIdentifier.value))
    else if ctx.executableURL.Some? then Some(ExecutableURL(ctx.executableURL.value))
    else None
  }

  /** The app rules whose identifier is `id`, whatever their `fullScreenOnly`. */
  function MatchingAppRules(apps: set<AppRule>, id: Identifier): set<AppRule>
  {
    set rule | rule in apps && rule.identifier == id
  }

  lemma MatchingAppRulesNonEmpty(apps: set<AppRule>, id: Identifier)
    ensures |MatchingAppRules(apps, id)| > 0 <==> AppRule(id, false) in apps || AppRule(id, true) in apps
  {
    var matching := MatchingAppRules(apps, id);
    if |matching| > 0 {
      var rule :| rule in matching;
      assert rule == AppRule(id, rule.fullScreenOnly);
    }
    if AppRule(id, false) in apps {
      assert AppRule(id, false) in matching;
    }
    if AppRule(id, true) in apps {
      assert AppRule(id, true) in matching;
    }
  }

  /** The browser rules of one kind for one host. */
  function MatchingBrowserRules(rules: set<BrowserRule>, t: RuleType, host: string): set<BrowserRule>
  {
    set rule | rule in rules && rule.ruleType == t && rule.host == host
  }

  lemma MatchingBrowserRulesNonEmpty(rules: set<BrowserRule>, t: RuleType, host: string)
    ensures |MatchingBrowserRules(rules, t, host)| > 0 <==> BrowserRule(t, host) in rules
  {
    var matching := MatchingBrowserRules(rules, t, host);
    if |matching| > 0 {
      var rule :| rule in matching;
      assert rule == BrowserRule(t, host);
    }
    if BrowserRule(t, host) in rules {
      assert BrowserRule(t, host) in matching;
    }
  }

  /** Whether a rule of kind `t` exists for `host` (a filter and a count). */
  function HasBrowserRule(rules: set<BrowserRule>, t: RuleType, host: string): (present: bool)
    ensures present <==> BrowserRule(t, host) in rules
  {
    MatchingBrowserRulesNonEmpty(rules, t, host);
    |MatchingBrowserRules(rules, t, host)| > 0
  }

  /** Night Shift is disabled for the foreground application when some app
      rule carries its identity; `fullScreenOnly` is ignored. Without an
      identity the answer is false. */
  function DisabledForApp(apps: set<AppRule>, ctx: Context): (disabled: bool)
    ensures disabled <==>
              CurrentIdentifier(ctx).Some? &&
              (AppRule(CurrentIdentifier(ctx).value, false) in apps ||
               AppRule(CurrentIdentifier(ctx).value, true) in apps)
  {
    match CurrentIdentifier(ctx)
    case None => false
    case Some(id) =>
      MatchingAppRulesNonEmpty(apps, id);
      |MatchingAppRules(apps, id)| > 0
  }

  /** Night Shift is disabled for the current domain when a `Domain` row for
      it exists; without a current domain the answer is false. */
  function DisabledForDomain(rules: set<BrowserRule>, ctx: Context): (disabled: bool)
    ensures disabled <==>
              ctx.currentDomain.Some? && BrowserRule(Domain, ctx.currentDomain.value) in rules
  {
    match ctx.currentDomain
    case None => false
    case Some(domain) => HasBrowserRule(rules, Domain, domain)
  }

  /** The override in force for the current subdomain, derived from the rows
      present and the live domain state: a `SubdomainEnabled` row counts
      only under a disabled domain, a `SubdomainDisabled` row only under a
      domain that is not disabled. */
  function RuleForSubdomain(rules: set<BrowserRule>, ctx: Context): (r: SubdomainRuleType)
    ensures ctx.currentSubdomain.None? ==> r == NoOverride
    ensures r == Enabled <==>
              ctx.currentSubdomain.Some? && DisabledForDomain(rules, ctx) &&
              BrowserRule(SubdomainEnabled, ctx.currentSubdomain.value) in rules
    ensures r == Disabled <==>
              ctx.currentSubdomain.Some? && !DisabledForDomain(rules, ctx) &&
              BrowserRule(SubdomainDisabled, ctx.currentSubdomain.value) in rules
  {
    match ctx.currentSubdomain
    case None => NoOverride
    case Some(subdomain) =>
      if DisabledForDomain(rules, ctx) then
        if HasBrowserRule(rules, SubdomainEnabled, subdomain) then Enabled else NoOverride
      else
        if HasBrowserRule(rules, SubdomainDisabled, subdomain) then Disabled else NoOverride
  }

  /** The subdomain override never reports `Enabled` unless the domain is
      disabled, and never `Disabled` while it is. */
  lemma SubdomainOverrideGatedByDomain(rules: set<BrowserRule>, ctx: Context)
    ensures RuleForSubdomain(rules, ctx) == Enabled ==> DisabledForDomain(rules, ctx)
    ensures RuleForSubdomain(rules, ctx) == Disabled ==> !DisabledForDomain(rules, ctx)
  {
  }

  /** Whether Night Shift must be suppressed: the app rule always wins; a
      disabled domain applies unless its current subdomain is overridden to
      enabled; a subdomain overridden to disabled suppresses on its own. */
  function DisableRuleIsActive(apps: set<AppRule>, rules: set<BrowserRule>, ctx: Context): (active: bool)
    ensures DisabledForApp(apps, ctx) ==> active
    ensures RuleForSubdomain(rules, ctx) == Enabled ==> active == DisabledForApp(apps, ctx)
    ensures RuleForSubdomain(rules, ctx) == Disabled ==> active
    ensures RuleForSubdomain(rules, ctx) == NoOverride ==>
              active == (DisabledForApp(apps, ctx) || DisabledForDomain(rules, ctx))
  {
    DisabledForApp(apps, ctx)
    || (DisabledForDomain(rules, ctx) && RuleForSubdomain(rules, ctx) != Enabled)
    || RuleForSubdomain(rules, ctx) == Disabled
  }

  /** A disabled domain whose current subdomain has a `SubdomainEnabled` row
      does not suppress Night Shift unless the app rule does. */
  lemma EnabledSubdomainLiftsDomainRule(apps: set<AppRule>, rules: set<BrowserRule>, ctx: Context)
    requires ctx.currentDomain.Some? && ctx.currentSubdomain.Some?
    requires BrowserRule(Domain, ctx.currentDomain.value) in rules
    requires BrowserRule(SubdomainEnabled, ctx.currentSubdomain.value) in rules
    ensures DisableRuleIsActive(apps, rules, ctx) == DisabledForApp(apps, ctx)
  {
  }

  /** A `SubdomainDisabled` row for the current subdomain suppresses Night
      Shift under a domain that is not itself disabled. */
  lemma DisabledSubdomainSuppresses(apps: set<AppRule>, rules: set<BrowserRule>, ctx: Context)
    requires ctx.currentSubdomain.Some?
    requires !DisabledForDomain(rules, ctx)
    requires BrowserRule(SubdomainDisabled, ctx.currentSubdomain.value) in rules
    ensures DisableRuleIsActive(apps, rules, ctx)
  {
  }

  /** The process-wide rule state: the two rule sets, the values stored
      under their persistence keys, and the trace of calls out. */
  class RuleManager {
    var disabledApps: set<AppRule>
    var browserRules: set<BrowserRule>
    /** The value stored under the `disabledApps` key, if any. */
    var storedApps: Option<set<AppRuleRecord>>
    /** The value stored under the `browserRules` key, if any. */
    var storedBrowserRules: Option<set<BrowserRuleRecord>>
    var calls: seq<Call>

    /** Both sets start empty; the store holds whatever an earlier run left. */
    constructor (storedApps: Option<set<AppRuleRecord>>, storedBrowserRules: Option<set<BrowserRuleRecord>>)
      ensures disabledApps == {} && browserRules == {}
      ensures this.storedApps == storedApps && this.storedBrowserRules == storedBrowserRules
      ensures calls == []
    {
      disabledApps := {};
      browserRules := {};
      this.storedApps := storedApps;
      this.storedBrowserRules := storedBrowserRules;
      calls := [];
    }

    /** The stored app rules are the encoding of the in-memory set. */
    predicate AppsPersisted()
      reads this
    {
      storedApps == Some(EncodeAppRules(disabledApps))
    }

    /** The stored browser rules are the encoding of the in-memory set. */
    predicate BrowserRulesPersisted()
      reads this
    {
      storedBrowserRules == Some(EncodeBrowserRules(browserRules))
    }

    /** Once persisted, reading the store back gives the in-memory sets. */
    lemma PersistedCopiesDecode()
      ensures AppsPersisted() ==> DecodeAppRules(storedApps.value) == Some(disabledApps)
      ensures BrowserRulesPersisted() ==> DecodeBrowserRules(storedBrowserRules.value) == Some(browserRules)
    {
      AppRulesRoundTrip(disabledApps);
      BrowserRulesRoundTrip(browserRules);
    }

    /** Assignment to the app rule set; its observer stores the new set. */
    method AssignDisabledApps(apps: set<AppRule>)
      modifies this`disabledApps, this`storedApps
      ensures disabledApps == apps && AppsPersisted()
    {
      disabledApps := apps;
      storedApps := Some(EncodeAppRules(disabledApps));
    }

    /** Assignment to the browser rule set; its observer stores the new set. */
    method AssignBrowserRules(rules: set<BrowserRule>)
      modifies this`browserRules, this`storedBrowserRules
      ensures browserRules == rules && BrowserRulesPersisted()
    {
      browserRules := rules;
      storedBrowserRules := Some(EncodeBrowserRules(browserRules));
    }

    /** Hands an event to the Night Shift responder. */
    method RespondTo(event: NightShiftEvent)
      modifies this`calls
      ensures calls == old(calls) + [Respond(event, disabledApps, browserRules)]
    {
      calls := calls + [Respond(event, disabledApps, browserRules)];
    }

    /** Setting `disabledForApp`. True inserts the rule `{id, false}` and
        always sends `DisableRuleActivated`; false removes exactly that rule
        and sends `DisableRuleDeactivated`, or does nothing when it is
        absent. Without an identity nothing happens. */
    method SetDisabledForApp(ctx: Context, newValue: bool)
      modifies this`disabledApps, this`storedApps, this`calls
      ensures CurrentIdentifier(ctx).None? ==>
                disabledApps == old(disabledApps) && storedApps == old(storedApps) && calls == old(calls)
      ensures CurrentIdentifier(ctx).Some? && newValue ==>
                var rule := AppRule(CurrentIdentifier(ctx).value, false);
                && disabledApps == old(disabledApps) + {rule}
                && AppsPersisted()
                && calls == old(calls) + [Respond(DisableRuleActivated, disabledApps, browserRules)]
                && DisabledForApp(disabledApps, ctx)
      ensures CurrentIdentifier(ctx).Some? && !newValue ==>
                var rule := AppRule(CurrentIdentifier(ctx).value, false);
                if rule in old(disabledApps) then
                  && disabledApps == old(disabledApps) - {rule}
                  && AppsPersisted()
                  && calls == old(calls) + [Respond(DisableRuleDeactivated, disabledApps, browserRules)]
                else
                  disabledApps == old(disabledApps) && storedApps == old(storedApps) && calls == old(calls)
      ensures CurrentIdentifier(ctx).Some? && !newValue ==>
                (DisabledForApp(disabledApps, ctx) <==> AppRule(CurrentIdentifier(ctx).value, true) in disabledApps)
      ensures AppsPersisted() || (disabledApps == old(disabledApps) && storedApps == old(storedApps))
    {
      var id := CurrentIdentifier(ctx);
      if id.None? {
        return;
      }
      var rule := AppRule(id.value, false);
      if newValue {
        AssignDisabledApps(disabledApps + {rule});
        RespondTo(DisableRuleActivated);
      } else {
        if rule !in disabledApps {
          return;
        }
        AssignDisabledApps(disabledApps - {rule});
        RespondTo(DisableRuleDeactivated);
      }
    }

    /** Setting `disabledForDomain`. True inserts the `Domain` row and
        always sends `DisableRuleActivated`. False does nothing unless the
        row exists; otherwise, if the current subdomain is overridden to
        enabled, that override is cleared first (its row removed, then
        `EnableRuleDeactivated`), and only then is the `Domain` row removed
        and `DisableRuleDeactivated` sent. */
    method SetDisabledForDomain(ctx: Context, newValue: bool)
      modifies this`browserRules, this`storedBrowserRules, this`calls
      ensures ctx.currentDomain.None? ==>
                browserRules == old(browserRules) && storedBrowserRules == old(storedBrowserRules) &&
                calls == old(calls)
      ensures ctx.currentDomain.Some? && newValue ==>
                && browserRules == old(browserRules) + {BrowserRule(Domain, ctx.currentDomain.value)}
                && BrowserRulesPersisted()
                && calls == old(calls) + [Respond(DisableRuleActivated, disabledApps, browserRules)]
      ensures ctx.currentDomain.Some? && !newValue ==>
                var domainRule := BrowserRule(Domain, ctx.currentDomain.value);
                if domainRule !in old(browserRules) then
                  browserRules == old(browserRules) && storedBrowserRules == old(storedBrowserRules) &&
                  calls == old(calls)
                else if RuleForSubdomain(old(browserRules), ctx) == Enabled then
                  var cleared := old(browserRules) - {BrowserRule(SubdomainEnabled, ctx.currentSubdomain.value)};
                  && browserRules == cleared - {domainRule}
                  && BrowserRulesPersisted()
                  && calls == old(calls) + [Respond(EnableRuleDeactivated, disabledApps, cleared),
                                            Respond(DisableRuleDeactivated, disabledApps, browserRules)]
                else
                  && browserRules == old(browserRules) - {domainRule}
                  && BrowserRulesPersisted()
                  && calls == old(calls) + [Respond(DisableRuleDeactivated, disabledApps, browserRules)]
      ensures ctx.currentDomain.Some? ==> DisabledForDomain(browserRules, ctx) == newValue
      ensures BrowserRulesPersisted() ||
              (browserRules == old(browserRules) && storedBrowserRules == old(storedBrowserRules))
    {
      if ctx.currentDomain.None? {
        return;
      }
      var rule := BrowserRule(Domain, ctx.currentDomain.value);
      if newValue {
        AssignBrowserRules(browserRules + {rule});
        RespondTo(DisableRuleActivated);
      } else {
        if rule !in browserRules {
          return;
        }
        if RuleForSubdomain(browserRules, ctx) == Enabled {
          SetRuleForSubdomain(ctx, NoOverride);
        }
        // The row is removed by value (see README, "Left out").
        AssignBrowserRules(browserRules - {rule});
        RespondTo(DisableRuleDeactivated);
      }
    }

    /** Setting `ruleForSubdomain`. `Disabled` and `Enabled` insert their
        row and send `DisableRuleActivated` or `EnableRuleActivated`.
        `NoOverride` looks at the override in force: if there is none,
        nothing happens; otherwise the row of that kind is removed and only
        afterwards is `DisableRuleDeactivated` or `EnableRuleDeactivated`
        sent. Without a current subdomain nothing happens. */
    method SetRuleForSubdomain(ctx: Context, newValue: SubdomainRuleType)
      modifies this`browserRules, this`storedBrowserRules, this`calls
      ensures ctx.currentSubdomain.None? ==>
                browserRules == old(browserRules) && storedBrowserRules == old(storedBrowserRules) &&
                calls == old(calls)
      ensures ctx.currentSubdomain.Some? && newValue == Disabled ==>
                && browserRules == old(browserRules) + {BrowserRule(SubdomainDisabled, ctx.currentSubdomain.value)}
                && BrowserRulesPersisted()
                && calls == old(calls) + [Respond(DisableRuleActivated, disabledApps, browserRules)]
                && (RuleForSubdomain(browserRules, ctx) == Disabled <==> !DisabledForDomain(browserRules, ctx))
      ensures ctx.currentSubdomain.Some? && newValue == Enabled ==>
                && browserRules == old(browserRules) + {BrowserRule(SubdomainEnabled, ctx.currentSubdomain.value)}
                && BrowserRulesPersisted()
                && calls == old(calls) + [Respond(EnableRuleActivated, disabledApps, browserRules)]
                && (RuleForSubdomain(browserRules, ctx) == Enabled <==> DisabledForDomain(browserRules, ctx))
      ensures ctx.currentSubdomain.Some? && newValue == NoOverride ==>
                match RuleForSubdomain(old(browserRules), ctx)
                case NoOverride =>
                  browserRules == old(browserRules) && storedBrowserRules == old(storedBrowserRules) &&
                  calls == old(calls)
                case Disabled =>
                  && browserRules == old(browserRules) - {BrowserRule(SubdomainDisabled, ctx.currentSubdomain.value)}
                  && BrowserRulesPersisted()
                  && calls == old(calls) + [Respond(DisableRuleDeactivated, disabledApps, browserRules)]
                case Enabled =>
                  && browserRules == old(browserRules) - {BrowserRule(SubdomainEnabled, ctx.currentSubdomain.value)}
                  && BrowserRulesPersisted()
                  && calls == old(calls) + [Respond(EnableRuleDeactivated, disabledApps, browserRules)]
      ensures newValue == NoOverride ==> RuleForSubdomain(browserRules, ctx) == NoOverride
      ensures DisabledForDomain(browserRules, ctx) == DisabledForDomain(old(browserRules), ctx)
      ensures BrowserRulesPersisted() ||
              (browserRules == old(browserRules) && storedBrowserRules == old(storedBrowserRules))
    {
      if ctx.currentSubdomain.None? {
        return;
      }
      var subdomain := ctx.currentSubdomain.value;
      match newValue
      case Disabled =>
        AssignBrowserRules(browserRules + {BrowserRule(SubdomainDisabled, subdomain)});
        RespondTo(DisableRuleActivated);
      case Enabled =>
        AssignBrowserRules(browserRules + {BrowserRule(SubdomainEnabled, subdomain)});
        RespondTo(EnableRuleActivated);
      case NoOverride =>
        var prevValue := RuleForSubdomain(browserRules, ctx);
        var rule: BrowserRule;
        match prevValue {
          case Disabled => rule := BrowserRule(SubdomainDisabled, subdomain);
          case Enabled => rule := BrowserRule(SubdomainEnabled, subdomain);
          case NoOverride => return;
        }
        // The override in force was derived from this very row, so the
        // Swift code's index lookup always finds it.
        assert rule in browserRules;
        AssignBrowserRules(browserRules - {rule});
        if prevValue == Disabled {
          RespondTo(DisableRuleDeactivated);
        } else {
          RespondTo(EnableRuleDeactivated);
        }
    }

    /** Clears every rule that applies in the current context, in the
        order app, domain, subdomain. Afterwards only an app rule with
        `fullScreenOnly` set, which the app setter never removes, can
        still keep Night Shift suppressed. */
    method RemoveRulesForCurrentState(ctx: Context)
      modifies this`disabledApps, this`storedApps, this`browserRules, this`storedBrowserRules, this`calls
      ensures
        var id := CurrentIdentifier(ctx);
        var appRow := if id.Some? then {AppRule(id.value, false)} else {};
        var apps := old(disabledApps) - appRow;
        var appCalls :=
          if id.Some? && AppRule(id.value, false) in old(disabledApps)
          then [Respond(DisableRuleDeactivated, apps, old(browserRules))] else [];
        var hadDomainRow :=
          ctx.currentDomain.Some? && BrowserRule(Domain, ctx.currentDomain.value) in old(browserRules);
        var wasEnabled := RuleForSubdomain(old(browserRules), ctx) == Enabled;
        var cleared :=
          if hadDomainRow && wasEnabled
          then old(browserRules) - {BrowserRule(SubdomainEnabled, ctx.currentSubdomain.value)}
          else old(browserRules);
        var afterDomain := if hadDomainRow then cleared - {BrowserRule(Domain, ctx.currentDomain.value)} else cleared;
        var domainCalls :=
          if !hadDomainRow then []
          else (if wasEnabled then [Respond(EnableRuleDeactivated, apps, cleared)] else [])
               + [Respond(DisableRuleDeactivated, apps, afterDomain)];
        var hadDisabledRow :=
          ctx.currentSubdomain.Some? && BrowserRule(SubdomainDisabled, ctx.currentSubdomain.value) in afterDomain;
        var afterSubdomain :=
          if hadDisabledRow then afterDomain - {BrowserRule(SubdomainDisabled, ctx.currentSubdomain.value)}
          else afterDomain;
        var subdomainCalls :=
          if hadDisabledRow then [Respond(DisableRuleDeactivated, apps, afterSubdomain)] else [];
        && disabledApps == apps
        && browserRules == afterSubdomain
        && calls == old(calls) + appCalls + domainCalls + subdomainCalls
      ensures !DisabledForDomain(browserRules, ctx)
      ensures RuleForSubdomain(browserRules, ctx) == NoOverride
      ensures DisableRuleIsActive(disabledApps, browserRules, ctx) <==>
                CurrentIdentifier(ctx).Some? && AppRule(CurrentIdentifier(ctx).value, true) in disabledApps
      ensures AppsPersisted() || (disabledApps == old(disabledApps) && storedApps == old(storedApps))
      ensures BrowserRulesPersisted() ||
              (browserRules == old(browserRules) && storedBrowserRules == old(storedBrowserRules))
    {
      SetDisabledForApp(ctx, false);
      SetDisabledForDomain(ctx, false);
      SetRuleForSubdomain(ctx, NoOverride);
    }

    /** The decoding part of start-up: each stored blob that decodes
        replaces its set (and is stored again, re-encoded, by the set's
        observer); one that is absent or fails to decode leaves its set as
        it was. */
    method Initialize()
      modifies this`disabledApps, this`storedApps, this`browserRules, this`storedBrowserRules
      ensures
        if old(storedApps).Some? && DecodeAppRules(old(storedApps).value).Some? then
          disabledApps == DecodeAppRules(old(storedApps).value).value && AppsPersisted()
        else
          disabledApps == old(disabledApps) && storedApps == old(storedApps)
      ensures
        if old(storedBrowserRules).Some? && DecodeBrowserRules(old(storedBrowserRules).value).Some? then
          browserRules == DecodeBrowserRules(old(storedBrowserRules).value).value && BrowserRulesPersisted()
        else
          browserRules == old(browserRules) && storedBrowserRules == old(storedBrowserRules)
    {
      if storedApps.Some? {
        var decoded := DecodeAppRules(storedApps.value);
        if decoded.Some? {
          AssignDisabledApps(decoded.value);
        }
      }
      if storedBrowserRules.Some? {
        var decoded := DecodeBrowserRules(storedBrowserRules.value);
        if decoded.Some? {
          AssignBrowserRules(decoded.value);
        }
      }
    }

    /** Reaction to a change of foreground application: the browser watcher
        is always stopped first; then an app rule re-sends
        `DisableRuleActivated`, a supported browser gets its watcher
        refreshed, and any other application gets `DisableRuleDeactivated`. */
    method AppSwitched(ctx: Context)
      modifies this`calls
      ensures calls ==
                old(calls) + [StopBrowserWatcher] +
                if DisabledForApp(disabledApps, ctx) then [Respond(DisableRuleActivated, disabledApps, browserRules)]
                else if ctx.currentAppIsSupportedBrowser then [UpdateForSupportedBrowser]
                else [Respond(DisableRuleDeactivated, disabledApps, browserRules)]
    {
      calls := calls + [StopBrowserWatcher];
      if DisabledForApp(disabledApps, ctx) {
        RespondTo(DisableRuleActivated);
      } else if ctx.currentAppIsSupportedBrowser {
        calls := calls + [UpdateForSupportedBrowser];
      } else {
        RespondTo(DisableRuleDeactivated);
      }
    }
  }
}
