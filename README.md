# Shifty rule manager, modelled in Dafny

Shifty turns macOS Night Shift off for chosen applications and, inside a
supported browser, for chosen web domains and subdomains. Its rule manager
holds two persisted rule sets, app rules (an application identity and a
`fullScreenOnly` flag) and browser rules (a `domain`, `subdomainDisabled` or
`subdomainEnabled` row for a host). It derives three layered answers from them
and combines them into one decision, `disableRuleIsActive`. The three answers
are: is the foreground app disabled, is the current domain disabled, and which
override (none, disabled, enabled) applies to the current subdomain. Its
setters change the sets, store each new set at once, and send Night Shift
events to a responder in a fixed order.

The model has five modules:

- `Wrappers` (`wrappers.dfy`): `Option` and `Result`.
- `Rules` (`rules.dfy`): the rule types, the application identifier, the two
  rule records and their `==`.
- `RuleCodec` (`rule_codec.dfy`): the persisted form. An identifier is encoded
  into a keyed container (a map from key to string) under `bundle` or
  `executableURL`. Decoding tries `bundle` first. Rule types are stored as raw
  strings. A whole rule set is stored as a blob of records.
- `RuleEngine` (`rule_engine.dfy`): the getters as pure functions of the two
  sets and a `Context`, and the class `RuleManager`. The `Context` carries the
  foreground app's bundle identifier and executable URL, the browser's current
  domain and subdomain, and whether the app is a supported browser. The class
  holds the two sets, the values stored under their keys, and one ordered
  trace of calls out (responder events, stopping and refreshing the browser
  watcher). Each responder event records both sets as they stand when it is
  sent, so the trace shows that rows are removed before the event goes out.
- `RuleScenarios` (`rule_scenarios.dfy`): worked sequences of setter calls.

Every assignment to a rule set goes through `AssignDisabledApps` or
`AssignBrowserRules`, which store the encoding of the new set. That is how the
Swift code's `didSet` observers behave.

## Model

| member | source | states |
|---|---|---|
| `Rules.AppRuleEquals` | Shifty/RuleManager.swift:85-88 | two app rules are equal exactly when both identifier and `fullScreenOnly` agree, so rules differing only in `fullScreenOnly` are distinct set members |
| `Rules.BrowserRuleEquals` | Shifty/RuleManager.swift:101-104 | two browser rules are equal exactly when kind and host agree |
| `RuleCodec.EncodeIdentifier` | Shifty/RuleManager.swift:50-58 | encoding writes exactly one key: `bundle` for a bundle identifier, `executableURL` for an executable URL |
| `RuleCodec.DecodeIdentifier` | Shifty/RuleManager.swift:39-48 | `bundle` wins when present; `executableURL` is used only without `bundle`; decoding fails, with key-not-found for `executableURL`, exactly when neither key is present |
| `RuleCodec.IdentifierRoundTrip` | Shifty/RuleManager.swift:39-58 | decoding an encoded identifier gives it back, for both variants |
| `RuleCodec.ContainerRoundTrip` | Shifty/RuleManager.swift:39-58 | a container with exactly one key decodes, and re-encoding the result reproduces the container |
| `RuleCodec.RuleTypeFromRawValue` | Shifty/RuleManager.swift:13-17 | a string is read as a rule type only when it is exactly that type's raw value |
| `RuleCodec.RawValueRoundTrip` | Shifty/RuleManager.swift:13-17 | a rule type is read back from its raw value, and a string is read as a type exactly when it is that type's raw value |
| `RuleCodec.EncodeAppRule` | Shifty/RuleManager.swift:78-79 | the record keeps `fullScreenOnly` and holds a one-key identifier container |
| `RuleCodec.DecodeAppRule` | Shifty/RuleManager.swift:78-79 | an app rule record decodes exactly when its identifier does, keeping `fullScreenOnly` |
| `RuleCodec.EncodeBrowserRule` | Shifty/RuleManager.swift:94-95 | the record keeps the host |
| `RuleCodec.DecodeBrowserRule` | Shifty/RuleManager.swift:94-95 | a browser rule record decodes exactly when its type string is a valid raw value, keeping the host; otherwise the error names the bad string |
| `RuleCodec.EncodeAppRuleInjective` | Shifty/RuleManager.swift:78-79 | two app rules with the same record are the same rule |
| `RuleCodec.EncodeAppRules` | Shifty/RuleManager.swift:115 | the stored blob holds a rule's record exactly when the rule is in the app rule set |
| `RuleCodec.EncodeBrowserRuleInjective` | Shifty/RuleManager.swift:94-95 | two browser rules with the same record are the same rule |
| `RuleCodec.EncodeBrowserRules` | Shifty/RuleManager.swift:123 | the stored blob holds a rule's record exactly when the rule is in the browser rule set |
| `RuleCodec.DecodeAppRules` | Shifty/RuleManager.swift:289-295 | a stored app rule blob decodes exactly when every record in it decodes |
| `RuleCodec.DecodeBrowserRules` | Shifty/RuleManager.swift:297-303 | a stored browser rule blob decodes exactly when every record in it decodes |
| `RuleCodec.AppRulesRoundTrip` | Shifty/RuleManager.swift:113-116 | decoding the stored encoding of an app rule set gives the same set |
| `RuleCodec.BrowserRulesRoundTrip` | Shifty/RuleManager.swift:121-125 | decoding the stored encoding of a browser rule set gives the same set |
| `RuleEngine.CurrentIdentifier` | Shifty/RuleManager.swift:153-161 | the app identity is its bundle identifier when it has one, otherwise its executable URL, and missing only when both are missing |
| `RuleEngine.HasBrowserRule` | Shifty/RuleManager.swift:179-180 | the filter-and-count test is true exactly when the row of that kind for that host is in the set |
| `RuleEngine.DisabledForApp` | Shifty/RuleManager.swift:136-150 | true exactly when the app has an identity and a rule with that identity exists, whichever its `fullScreenOnly` |
| `RuleEngine.DisabledForDomain` | Shifty/RuleManager.swift:177-182 | true exactly when there is a current domain and a `domain` row for it |
| `RuleEngine.RuleForSubdomain` | Shifty/RuleManager.swift:204-225 | `NoOverride` without a subdomain; `Enabled` exactly when the domain is disabled and a `subdomainEnabled` row exists; `Disabled` exactly when the domain is not disabled and a `subdomainDisabled` row exists |
| `RuleEngine.SubdomainOverrideGatedByDomain` | Shifty/RuleManager.swift:207-223 | the override is never `Enabled` under a domain that is not disabled, never `Disabled` under a disabled one |
| `RuleEngine.DisableRuleIsActive` | Shifty/RuleManager.swift:268-270 | the app rule always wins; under an `Enabled` override only the app rule counts; a `Disabled` override suppresses; with no override, app or domain decides |
| `RuleEngine.EnabledSubdomainLiftsDomainRule` | Shifty/RuleManager.swift:268-270 | a disabled domain with a `subdomainEnabled` row for the current subdomain leaves the decision to the app rule |
| `RuleEngine.DisabledSubdomainSuppresses` | Shifty/RuleManager.swift:268-270 | a `subdomainDisabled` row for the current subdomain under a non-disabled domain suppresses Night Shift |
| `RuleEngine.RuleManager.constructor` | Shifty/RuleManager.swift:113-125 | both sets start empty, the store keeps what an earlier run left, nothing has been sent |
| `RuleEngine.RuleManager.PersistedCopiesDecode` | Shifty/RuleManager.swift:113-125 | whenever a set is persisted, decoding its stored copy gives the in-memory set |
| `RuleEngine.RuleManager.AssignDisabledApps` | Shifty/RuleManager.swift:113-117 | assigning the app rule set stores its encoding |
| `RuleEngine.RuleManager.AssignBrowserRules` | Shifty/RuleManager.swift:121-125 | assigning the browser rule set stores its encoding |
| `RuleEngine.RuleManager.RespondTo` | Shifty/RuleManager.swift:165 | the responder receives the event, seeing both sets as they are at that moment |
| `RuleEngine.RuleManager.SetDisabledForApp` | Shifty/RuleManager.swift:151-171 | no identity: nothing changes. True: `{id, false}` is inserted, stored, and `DisableRuleActivated` is sent, so the getter is true. False: that exact row is removed, stored, and `DisableRuleDeactivated` is sent, or nothing happens if it is absent; afterwards the getter is true only if a `fullScreenOnly` rule for the app remains |
| `RuleEngine.RuleManager.SetDisabledForDomain` | Shifty/RuleManager.swift:183-198 | no domain: nothing changes. True: the `domain` row is inserted, stored, `DisableRuleActivated` sent. False with no `domain` row: nothing changes. Otherwise an `Enabled` override is cleared first, then the `domain` row is removed and the trace gains exactly `[EnableRuleDeactivated, DisableRuleDeactivated]`, or exactly `[DisableRuleDeactivated]` without the override. Each event sees its row already gone, and the getter then equals the value set |
| `RuleEngine.RuleManager.SetRuleForSubdomain` | Shifty/RuleManager.swift:226-263 | no subdomain: nothing changes. `Disabled`/`Enabled` insert their row, store it, and send `DisableRuleActivated`/`EnableRuleActivated`, the getter reflecting it only under the matching domain state. `NoOverride` does nothing when no override is in force, otherwise removes exactly that override's row and only then sends `DisableRuleDeactivated` or `EnableRuleDeactivated`; afterwards the override is `NoOverride`. The domain answer never changes |
| `RuleEngine.RuleManager.RemoveRulesForCurrentState` | Shifty/RuleManager.swift:274-278 | the exact sets and trace after clearing app, domain and subdomain in that order; afterwards the domain is not disabled, no override applies, and Night Shift stays suppressed exactly when a `fullScreenOnly` rule for the app remains |
| `RuleEngine.RuleManager.Initialize` | Shifty/RuleManager.swift:289-303 | a stored blob that decodes replaces its set and is stored again re-encoded; an absent or undecodable one leaves the set and the store as they were |
| `RuleEngine.RuleManager.AppSwitched` | Shifty/RuleManager.swift:308-317 | the browser watcher is stopped first, then exactly one of: `DisableRuleActivated` for a disabled app, a watcher refresh for a supported browser, `DisableRuleDeactivated` otherwise; no rule changes |
| `RuleScenarios.DisableAppFromEmpty` | Shifty/RuleManager.swift:151-165 | disabling `com.example.App` with no rules leaves exactly `{AppRule(Bundle("com.example.App"), false)}` and one `DisableRuleActivated` |
| `RuleScenarios.ReEnableDomainWithEnabledSubdomain` | Shifty/RuleManager.swift:189-197 | with the domain disabled and the subdomain `Enabled`, re-enabling the domain sends `EnableRuleDeactivated` then `DisableRuleDeactivated`, and both rows are gone |
| `RuleScenarios.EnableThenDisableSubdomain` | Shifty/RuleManager.swift:230-237 | overriding a subdomain to `Enabled` and then `Disabled` leaves both rows, and the override reads `Disabled` |

## Left out

- `Shifty/AppDelegate.swift` is not part of this model. It is status-bar UI, alerts, OS and hardware checks, crash reporting and login-item glue.
- The notification-observer registration in `initialize` (Shifty/RuleManager.swift:283-287) is not modelled. `AppSwitched` is the entry point that the notification would call.
- The foreground app lookup (`menuBarOwningApplication`) and the browser manager's domain, subdomain and supported-browser answers are platform services. They are the `Context` parameter.
- The browser watcher's own work is not modelled. Stopping and refreshing it appear only as calls in the trace.
- The Night Shift responder's reaction is not modelled. A response is only recorded in the trace.
- Warning logs (`logw`) are not modelled.
- `description` strings and hashing are not modelled.
- URLs are opaque strings. A stored `executableURL` that is not a valid URL decodes here, where Swift's `URL` decoding would reject it.
- Property-list bytes are not modelled. A blob is a set of field-tagged records, so the array order and duplicate records are not captured, and encoding cannot fail. The Swift code's `try?` would store nil on an encoding failure.
- A stored value that is not `Data` is treated like an absent one (`storedApps` is `None`).
- `RuleCodec.DecodeAppRules`: keeps no error value on failure. The Swift code only logs that error.
- `RuleCodec.DecodeBrowserRules`: keeps no error value on failure. The Swift code only logs that error.
- `RuleEngine.RuleManager.SetDisabledForDomain`: models the evidently intended behaviour, not the code as written. The Swift code takes the `domain` row's set index (line 190), then clears the subdomain override, which removes a row (line 193), and only then removes at the saved index (line 195). A Swift set index is not valid once the set has changed. In the override case the Swift code most likely traps at line 195, after `EnableRuleDeactivated` has gone out. The model removes the row by value and sends both events. Swift's index validation is not modelled, so the as-written trap is not captured.
- `SubdomainRuleType` is declared codable in the Swift code, but the rule manager never stores it. It has no codec here.

## Behaviour worth noting

- Setting `disabledForApp`, `disabledForDomain` or a subdomain override to a value it already has still inserts (no duplicate row, by set semantics), stores the set again and sends the activation event again.
- A host can hold both a `subdomainDisabled` and a `subdomainEnabled` row at once (`RuleScenarios.EnableThenDisableSubdomain`). The live domain state decides which one is read.
- An app rule with `fullScreenOnly` set makes `disabledForApp` true, but setting `disabledForApp` to false never removes it, because removal looks for the rule with `fullScreenOnly` false.
- Re-enabling a domain clears the `subdomainEnabled` row of the current subdomain only. Rows for other hosts are untouched, because hosts are plain strings with no parent relation.
- `removeRulesForCurrentState` also removes a `subdomainDisabled` row that was shadowed by a disabled domain before the call, and sends `DisableRuleDeactivated` for it.
