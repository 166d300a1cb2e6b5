# GrantConditionOnPrerequisite, modelled in Dafny

OpenRA's `GrantConditionOnPrerequisite` trait is attached to an actor. It
watches a boolean "prerequisites available" signal pushed by the owner's
`GrantConditionOnPrerequisiteManager`, and turns that signal into
`GrantCondition` and `RevokeCondition` calls on the actor's
`ConditionManager` (the condition ledger). The trait also registers its
prerequisite list with the manager when the actor enters the world and
unregisters it when the actor leaves.

The model is functional. The trait's fields and two call logs form one
immutable record, `Sim`. The logs are every call made on a ledger and
every call made on a manager, oldest first. Each hook is a pure function
from one `Sim` to the next.

- `optional.dfy`: `Option`, which stands in for a nullable reference.
- `collaborators.dfy`: the ledger and the manager, seen only at their
  interface. It holds the call records, the invalid-token sentinel and the
  assumed ledger contract (`Honours`: a grant returns a valid token, a revoke
  returns the sentinel). It also has grant/revoke counting and the manager's
  registration bookkeeping, seen from outside (`RegisteredWith`).
- `grant_condition.dfy`: the trait itself. This is `Create` (the
  constructor), the `Created` / `AddedToWorld` / `RemovedFromWorld` /
  `OnOwnerChanged` hooks, and the `PrerequisitesUpdated` state machine.
- `signal_traces.dfy`: properties over arbitrary finite signal sequences.
  These are the invariant "valid token ⇔ `wasAvailable`", strict grant/revoke
  alternation, at most one outstanding grant, idempotence, no-ledger inertness
  and the grant-then-revoke round trip. A counterexample shows that the ledger
  contract is needed.
- `lifecycle.dfy`: whole lifecycles as arbitrary event sequences. The
  abstract manager calls back only while it holds a registration for the
  actor.
- `scenarios.dfy`: two concrete lifecycles. One is the barracks-gated
  infantry condition. The other is the ownership-change gap.

The value of `ConditionManager.InvalidConditionToken` is defined outside
this model. It is declared as a constant with no given value, so every
property holds whatever integer it is.

An update with no ledger returns before it records anything, so
`wasAvailable` and the token never change without a ledger
(`SignalTraces.NoLedgerSignalsInert`). As a result, "valid token ⇔
`wasAvailable`" holds from construction in every lifecycle whose ledger
honours its grant/revoke contract, with or without a ledger bound
(`Lifecycle.LifecycleFromCreation`).

## Model

| member | source | states |
|---|---|---|
| GrantCondition.Create | OpenRA.Mods.Common/Traits/Conditions/GrantConditionOnPrerequisite.cs:36-45 | Construction fails exactly when the owner has no prerequisite manager. Otherwise it binds that manager, records no signal, holds the invalid token, has no ledger and has made no call |
| GrantCondition.Created | OpenRA.Mods.Common/Traits/Conditions/GrantConditionOnPrerequisite.cs:47-50 | Only the ledger reference changes, to the actor's ledger or to none. No call is made |
| GrantCondition.AddedToWorld | OpenRA.Mods.Common/Traits/Conditions/GrantConditionOnPrerequisite.cs:52-56 | Exactly one manager call is appended iff the prerequisite list is non-empty. It is a Register with the current manager, the actor and the configured list. Nothing else changes |
| GrantCondition.RemovedFromWorld | OpenRA.Mods.Common/Traits/Conditions/GrantConditionOnPrerequisite.cs:58-62 | Exactly one manager call is appended iff the prerequisite list is non-empty. It is an Unregister with the current manager, the actor and the same list. Nothing else changes |
| GrantCondition.OnOwnerChanged | OpenRA.Mods.Common/Traits/Conditions/GrantConditionOnPrerequisite.cs:64-67 | Fails exactly when the new owner has no manager. Otherwise only the manager reference changes, to the new owner's manager. No register or unregister is made, and the token and signal are untouched |
| GrantCondition.PrerequisitesUpdated | OpenRA.Mods.Common/Traits/Conditions/GrantConditionOnPrerequisite.cs:69-80 | A repeated signal or a missing ledger changes nothing. Past that early return the signal is recorded. At most one ledger call is appended, only on a real transition, and it is a grant iff the signal is "available". The manager log, the configuration and the references never change |
| GrantCondition.GrantOnRise | OpenRA.Mods.Common/Traits/Conditions/GrantConditionOnPrerequisite.cs:74-79 | A rise with a ledger and no valid token issues exactly one grant for the configured condition. It stores the returned token and records "available" |
| GrantCondition.RevokeOnFall | OpenRA.Mods.Common/Traits/Conditions/GrantConditionOnPrerequisite.cs:76-79 | A fall with a ledger and a valid token issues exactly one revoke, of the held token. It stores the ledger's returned value and records "unavailable" |
| GrantCondition.RecordsSignalWithoutLedgerCall | OpenRA.Mods.Common/Traits/Conditions/GrantConditionOnPrerequisite.cs:74-79 | When neither branch applies, no ledger call is made, but the signal is still recorded |
| SignalTraces.InitialStateConsistent | OpenRA.Mods.Common/Traits/Conditions/GrantConditionOnPrerequisite.cs:36-39 | The constructed state satisfies the invariant, and grants minus revokes is 0 |
| SignalTraces.StepPreservesConsistent | OpenRA.Mods.Common/Traits/Conditions/GrantConditionOnPrerequisite.cs:69-80 | Given a ledger that honours its contract, one update preserves the invariant. The invariant: valid token ⇔ `wasAvailable` ⇔ the alternating log has odd length, and the last grant's token is the one held |
| SignalTraces.TransitionAlwaysCallsLedger | OpenRA.Mods.Common/Traits/Conditions/GrantConditionOnPrerequisite.cs:74-77 | Under the invariant, every real transition with a ledger bound makes exactly one ledger call, so the defensive fall-through never happens |
| SignalTraces.SignalsPreserveConsistent | OpenRA.Mods.Common/Traits/Conditions/GrantConditionOnPrerequisite.cs:69-80 | The invariant holds after any finite sequence of honoured signals |
| SignalTraces.AtMostOneOutstandingGrant | OpenRA.Mods.Common/Traits/Conditions/GrantConditionOnPrerequisite.cs:69-80 | After any honoured signal sequence from a consistent state, grants minus revokes is 0 or 1 at every point of the ledger history |
| SignalTraces.GrantsSeparatedByMatchingRevoke | OpenRA.Mods.Common/Traits/Conditions/GrantConditionOnPrerequisite.cs:74-77 | Two grants never occur without an intervening revoke. The call right after a grant is a revoke of that grant's token |
| SignalTraces.RepeatedSignalIsNoOp | OpenRA.Mods.Common/Traits/Conditions/GrantConditionOnPrerequisite.cs:71-72 | A second identical signal changes nothing, so two identical signals make at most one ledger call |
| SignalTraces.NoLedgerSignalsInert | OpenRA.Mods.Common/Traits/Conditions/GrantConditionOnPrerequisite.cs:71-72 | With no ledger bound, every signal sequence leaves the state, including `wasAvailable`, exactly as it was |
| SignalTraces.GrantRevokeRoundTrip | OpenRA.Mods.Common/Traits/Conditions/GrantConditionOnPrerequisite.cs:74-79 | From an idle consistent state, a rise and then a fall make one grant and one revoke of the granted token. The component is restored exactly |
| SignalTraces.ContractNeededForAtMostOne | OpenRA.Mods.Common/Traits/Conditions/GrantConditionOnPrerequisite.cs:74-77 | If a grant may return the invalid sentinel, the signals rise, fall, rise leave two grants outstanding. At most one grant depends on the ledger contract |
| Lifecycle.Dispatch | OpenRA.Mods.Common/Traits/Conditions/GrantConditionOnPrerequisite.cs:47-80 | A lifecycle event fails only on an ownership change to an owner without a manager. A callback from a manager holding no registration is not delivered |
| Lifecycle.RunPreservesConsistent | OpenRA.Mods.Common/Traits/Conditions/GrantConditionOnPrerequisite.cs:47-80 | The invariant survives any sequence of hooks and honoured callbacks |
| Lifecycle.RunKeepsManagerCallsWellFormed | OpenRA.Mods.Common/Traits/Conditions/GrantConditionOnPrerequisite.cs:52-62 | Every register or unregister is for the trait's own actor, with the configured non-empty list |
| Lifecycle.EmptyPrerequisitesNeverRegister | OpenRA.Mods.Common/Traits/Conditions/GrantConditionOnPrerequisite.cs:52-62 | With an empty prerequisite list, the manager log never changes over a whole lifecycle |
| Lifecycle.EmptyPrerequisitesNeverGrant | OpenRA.Mods.Common/Traits/Conditions/GrantConditionOnPrerequisite.cs:52-62 | An unregistered trait with no prerequisites is never called back. It makes no ledger call and never changes its signal or token |
| Lifecycle.LifecycleFromCreation | OpenRA.Mods.Common/Traits/Conditions/GrantConditionOnPrerequisite.cs:41-80 | From construction, any lifecycle keeps the invariant and well-formed manager calls. With no prerequisites, both logs stay empty |
| Lifecycle.OwnerChangeKeepsOldRegistration | OpenRA.Mods.Common/Traits/Conditions/GrantConditionOnPrerequisite.cs:64-67 | An ownership change leaves every manager's registration as it was. A later world exit unregisters from the new owner's manager |
| Scenarios.InfantryScenario | OpenRA.Mods.Common/Traits/Conditions/GrantConditionOnPrerequisite.cs:47-80 | For "canBuildInfantry" gated on "barracks", the sequence register, redundant fall, rise, repeated rise, fall, exit makes exactly one grant and one revoke of its token. It also makes one register and one unregister, and leaves the trait idle |
| Scenarios.OwnershipChangeGapScenario | OpenRA.Mods.Common/Traits/Conditions/GrantConditionOnPrerequisite.cs:52-80 | After an ownership change, the old owner's manager still drives the trait and the new one never does. World exit unregisters from the new manager and leaves the old registration behind |

## Left out

- `GrantConditionOnPrerequisiteManager`'s aggregation of prerequisites, and when it calls back. It is not part of this model. It appears only as a log of Register/Unregister calls, plus the rule that it calls back only while it holds a registration ("last register or unregister wins").
- `ConditionManager` internals: token allocation, condition effects and the concrete `InvalidConditionToken`. It is not part of this model. Each call's answer is a parameter (`LedgerReply`), and the grant/revoke contract is an explicit hypothesis (`Honours`) of the trace lemmas.
- Trait lookup (`Trait<>`, `TraitOrDefault<>`), `Actor`, `Player`, `PlayerActor` and `ActorInitializer`: framework plumbing. They appear as an owner-to-manager map, an optional ledger identifier and an actor identifier stored with the trait. A failed `Trait<>` lookup is a `None` result rather than an exception.
- The `FieldLoader.Require`, `GrantedConditionReference` and `Desc` attributes: declarative configuration validation done by the loader. The model accepts any condition name and any prerequisite list.
- Tick scheduling and threading: the trait is purely sequential, and events are applied one at a time in order.
- Host event order: the order in which the host dispatches lifecycle hooks and callbacks is not part of this model, so any order is allowed. The ownership-change gap (`Scenarios.OwnershipChangeGapScenario`) assumes `OnOwnerChanged` is dispatched while the actor stays in the world. If the host wraps it in a world exit and a world entry, the trait unregisters from the old manager and registers with the new one, and the gap closes.
- Actor destruction: the trait does no teardown of its own, so there is no event for it.
