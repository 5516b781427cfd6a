# Verified model of the campaign engine

This project models the deterministic core of a tabletop campaign system and proves what that core is relied on for.
It has four parts.

* **The event-sourced rules engine.** A command and a state give a list of events or a refusal (`Commands.Decide` and the
  modules it calls); events are folded into the state under per-event guards and a closing validation of the whole state
  (`Reducer.Apply`, `Reducer.Fold`); undo plans inverse events for the latest transaction (`Compensation.Plan`). The code
  that works step by step - the reducer, the validators, the loops that push candidates and events - is written as
  methods proved equal to these functions, and the laws are proved about the functions. `Sessions.Run` is a campaign: any
  sequence of submitted commands and undos from the empty campaign.
* **Graph algorithms.** The level-by-level zone distance, the stack search that accepts a battlefield, the two recursive
  cycle checks (guided beats, content prerequisites) and the private-clue loop of the guided runner.
* **Canonical JSON and SHA-256**, which together identify states and commands.
* **The sequenced relay** between host, durable room and browser, as a step system with loss, repetition, replacement and
  reconnection.

`dafny verify dfyconfig.toml` checks everything.

## How it is laid out

| part | modules |
|---|---|
| shared vocabulary | `Common`, `Graphs` |
| graphs | `ZoneGraph`, `GuidedGraph`, `GuidedOrder`, `GuidedRunner`, `Prerequisites` |
| hashing | `CanonicalJson`, `Sha256` |
| relay | `Relay` |
| state, validity, events | `State`, `Validity`, `Events` |
| reducer | `Reducer` (one function per event), `ApplyEvents` (the code that changes the state) |
| undo | `Compensation`, `Undo` |
| decisions | `Checks`, `Content`, `CatalogRules`, `CombatRules`, `LegalActions`, `CombatDecisions`, `Reactions`, `Subsystems`, `Commands` |
| shapes of decided transactions | `Vitals`, `Forms`, `CombatForms` |
| runs | `WoundInvariant`, `Sessions`, `TurnOrder`, `Liveness`, `CampaignRuns` |
| decider against reducer | `Applies`, `EffectAgreement`, `CombatAgreement`, `ReactionAgreement`, `ContinuationAgreement`, `Victory`, `EnemyChoice`, `SubsystemAgreement`, `RitualPayment`, `ReactionPriority`, `HeroAgreement`, `CommandAgreement` |
| concrete inputs | `Samples`, `GuidedSamples` |

## What turned out not to hold

The model follows the code. Where a promise fails, there is a lemma with the failing input and one that says exactly when
the promise is kept.

* *Undo gives back the state before* - not when a permanent-death check is requested while a fight is already over or
  paused: the request overwrites the fight's status, and cancelling it leaves the fight active
  (`Samples.UndoRevivesFinishedFight`). It is exact if and only if no such overwriting took place
  (`CampaignRuns.UndoInEveryRun`).
* *A window the decider opens is accepted* - not with more than ten possible reactors
  (`Samples.WindowForElevenIsRefused`, `ReactionPriority.WindowAppliesExactly`).
* *A started ritual can be paid* - Exertion is compared with the party's sum when the ritual starts, but one hero has to
  pay each cost (`RitualPayment.StartedButUnpayable`). It can be paid if and only if the Exertion costs can be given to heroes
  so that none is given more than it has (`RitualPayment.PayableExactly`).
* *A fight without standing enemies is won* - an overlay that brings a boss back with no Guard keeps the fight going
  (`Samples.FightGoesOnWithoutEnemies`); whether one will can be told from the state before the impact, and otherwise the
  fight is won exactly when no enemy has Guard (`Victory.VictoryIsReal`).
* *An active fight always has a next step* - when an objective calls again on a reinforcement that has used both slots, its
  side is next and nobody can act: hero activation, enemy selection and a new round are all refused
  (`Samples.ObjectiveStrandsFight`). The same goes for a dead active actor (`Liveness.DeadActorIsStuck`). There is a next
  step if and only if the condition on the state in `Liveness.GoesOnExactly` holds.
* *The guided graph check refuses only unmerged cycles* - it refuses a presentation all of whose cycles pass a declared merge
  (`GuidedSamples.MergedCycleCanBeRefused`). It accepts if and only if the first-entered beat of every cycle is a declared
  merge (`GuidedOrder.GraphAcceptedExactly`).
* *The runner stops on an accepted presentation* - not on a merged private clue (`GuidedSamples.MergedClueCanHang`); it stops
  if and only if it never comes back to a beat (`GuidedRunner.StopsExactlyWithoutRevisit`).
* *An accepted action is applied* - the decider computes every effect of an ability from the state before the action and
  does not look whether a reaction is spent, so an ability that restores its user's unspent reaction is accepted and then
  refused (`Samples.UnspentReactionIsRefused`). An accepted action is applied if and only if the lists have room for
  what it adds, whoever spends Spark has it, and its effects make at most one change and restore at most one reaction,
  which was spent (`CombatAgreement.ExecuteAgreesExactly`); reactions and submitted dice likewise
  (`CommandAgreement.ReactionsInEveryRun`, `CommandAgreement.SubmitsInEveryRun`). With thirty-two scars on record a
  death test that ends in a triumph is accepted and then refused (`Samples.ThirtyThirdScarIsRefused`).
* *A requested roll is kept* - a check on permanent death is accepted without a look at the fight, and refused while the
  fight awaits an action (`Samples.DeathCheckOverActionIsRefused`). Requested rolls are applied if and only if fewer than
  sixteen checks are pending and no death is asked about while the fight awaits an action
  (`HeroAgreement.ResolveCheckExactly`).
* *An accepted start is kept* - the decider does not look at the bounds of the lists: a seventeenth challenge is accepted and
  then refused by the reducer (`SubsystemAgreement.SeventeenthChallengeIsRefused`). Starts are applied exactly below sixteen
  challenges, thirty-two social states and sixteen rituals (`SubsystemAgreement.StartChallengeAgrees` and its two companions).

`CommandAgreement.AgreementInEveryRun` puts such conditions together: for every command and every state a campaign can
reach, the reducer applies what the decider proposes if and only if the condition for that command
(`CommandAgreement.Applicable`) holds; for the commands not named there it always does.

The states among these inputs are valid, and the catalogs pass the content validation of the repository
(`CatalogRules.CatalogAccepted`).

Two more things a reader may not expect. When a catalog holds several revisions of one option, only the last one's
prerequisites enter the cycle check (packages/contracts/src/manifests.ts:287-297), and the model does the same. And the price
of the relay's safety is that it never recovers: once the next frame of a stream is lost nothing more is let through for its
connection (`Relay.LostFrameStopsStream`).

## Model

| member | source | states |
|---|---|---|
| CampaignRuns.UndoInEveryRun | packages/engine/src/compensation.ts:226-269 | In every reachable state: an accepted and applied command followed by the undo planned for it leads back to exactly the state before, if and only if its roll request did not overwrite the status of a fight that was not active. |
| Undo.UndoIsExact | packages/engine/src/compensation.ts:145-269 | The same for any valid state and any undoable list of events with at most one roll request and its continuation: all planned inverses apply and restore the state, exactly under that condition. |
| Undo.TailUndone | packages/engine/src/apply-event.ts:144-172 | Cancelling a roll request also takes back whichever pending continuation followed it, though that event has no inverse of its own. |
| Undo.SimplesUndone | packages/engine/src/compensation.ts:226-269 | Any run of events with inverses is taken back exactly by the inverses in reverse order. |
| Compensation.SimpleUndone | packages/engine/src/compensation.ts:145-224 | Each event with an inverse other than a roll request or a reaction slot, applied to any valid state, is undone exactly by it. |
| Compensation.SlotUndone | packages/engine/src/apply-event.ts:483-556 | Spending and restoring an action or maneuver gives back the slot, the activation, the active actor and the side. |
| Compensation.ReactionUndone | packages/engine/src/apply-event.ts:483-556 | For a reaction slot the same pair is the identity exactly when the reactor is the active actor. |
| Compensation.PlanTransactionCompensation | packages/engine/src/compensation.ts:226-269 | The loop over the reversed events computes the specified plan, and the refusal of the first event that cannot be undone. |
| Sessions.UndoableShape | packages/engine/src/compensation.ts:30-143 | Whatever a command decided, if undo accepts it, it is a list of invertible events and at most one roll request with its continuation. |
| Sessions.UndoTakesBack | packages/runtime/src/application/coordinator.ts:411-479 | For a decided transaction, undo restores the state exactly under the stated condition, and wounds, deaths and pending checks in every case. |
| Samples.UndoRevivesFinishedFight | packages/engine/src/apply-event.ts:131-143 | A concrete finished fight in which an accepted, applied and undoable command is not taken back by its undo. |
| CampaignRuns.WoundsInEveryRun | packages/engine/src/combat-decisions.ts:1288-1351 | In every reachable state, undo included, filled wounds come first, and all three are filled exactly when the hero is permanently dead or a pending check is its death test. |
| WoundInvariant.FormKeepsSound | packages/engine/src/combat-decisions.ts:2111-2172 | Every shape of decided transaction keeps wounds, deaths, death tests and disclosures in agreement, whether it wounds, tests, stabilises or kills. |
| CampaignRuns.DeathsAreForever | packages/engine/src/apply-event.ts:846-848 | Nothing in any run, undo included, removes a permanent death. |
| CampaignRuns.DisclosuresInEveryRun | packages/engine/src/decide-command.ts:991-1027 | In every reachable state, for each pending check and each face, rebuilding the request and resolving it gives the disclosed degree, so the mismatch rejection never fires. |
| Checks.CreatedIsHonest | packages/engine/src/physical-rolls.ts:104-182 | A disclosure shows for each of the twenty faces the degree its own rebuilt request resolves to, and satisfies the stored-disclosure bounds. |
| Checks.SelectedIsHonest | packages/engine/src/physical-rolls.ts:184-234 | So does every disclosure a roll selection makes, Spark's edge included. |
| Checks.AidNeverHurts | packages/engine/src/combat-decisions.ts:2033-2058 | Aid re-discloses a death test honestly and on no face shows a worse degree. |
| Checks.DegreeIsMonotone | packages/engine/src/resolution.ts:37-86 | A greater total modifier never gives a lower degree on the same face. |
| Checks.SimulatedExactly | packages/engine/src/physical-rolls.ts:184-234 | A roll is simulated exactly when there is no mandatory reason and no invoked Spark. |
| Sessions.RunKeeps | packages/runtime/src/application/coordinator.ts:182-199 | Every run keeps the state valid, its vitals in agreement, every awaited check pending, and the latest transaction the one that led to the state. |
| CombatForms.DecidedForm | packages/engine/src/decide-command.ts:1086-1157 | Whatever any command proposes has one of eight shapes, and no command but executing an action spends an action or maneuver slot or restores a slot. |
| CombatForms.ExecuteForm | packages/engine/src/combat-decisions.ts:1518-1750 | An executed action proposes exactly one action or maneuver slot spend, after its costs and before its effects. |
| ApplyEvents.ApplyGameEvent | packages/engine/src/apply-event.ts:66-1170 | Changing a working copy, stopping at an event failure and validating the whole copy gives exactly the specified result of every event. |
| ApplyEvents.ApplyAll | packages/runtime/src/application/coordinator.ts:182-199 | Folding a transaction stops at the first event that fails and otherwise gives the specified state. |
| ApplyEvents.ApplyCheckEvent | packages/engine/src/apply-event.ts:82-172 | Requests, cancellations and physical resolutions of checks as specified, with what they do to a waiting fight. |
| ApplyEvents.ApplySlotEvent | packages/engine/src/apply-event.ts:483-556 | Spends and restorations of slots as specified, with the activation they end or give back. |
| ApplyEvents.ApplyTurnEvent | packages/engine/src/apply-event.ts:725-819 | Activations, rounds and objectives as specified, with the loops that expire conditions and summon reinforcements. |
| ApplyEvents.ApplyHarmEvent | packages/engine/src/apply-event.ts:624-694 | Impacts and wounds as specified, against hero or enemy, with the recorded arithmetic rechecked. |
| ApplyEvents.OneEmptySlotFilled | packages/engine/src/apply-event.ts:677-694 | Counting the differing wound slots accepts exactly the lists that fill one empty slot. |
| ApplyEvents.ApplyFieldEvent | packages/engine/src/apply-event.ts:557-787 | Moves, with the count of who stands in the zone, and boss overlays, as specified. |
| ApplyEvents.ApplyResetEvent | packages/engine/src/apply-event.ts:307-374 | Costly rest and scene boundaries as specified, hero by hero. |
| Validity.ValidateGameState | packages/contracts/src/game-state.ts:87-200 | The accumulated issues are empty exactly for a valid state. |
| Validity.ValidateCombatState | packages/contracts/src/domains/combat.ts:267-404 | The accumulated issues are empty exactly for a valid combat, occupancy counted in one pass. |
| Validity.DuplicateIssues | packages/contracts/src/game-state.ts:67-85 | The pass with a set of seen identities reports nothing exactly when they are distinct. |
| Validity.EmptyCampaignIsValid | packages/engine/src/state.ts:9-34 | The empty campaign is valid. |
| Undo.FoldKeepsValid | packages/engine/src/apply-event.ts:1160-1170 | Folding any events from a valid state ends in a valid state. |
| CommandAgreement.AgreementInEveryRun | packages/engine/src/decide-command.ts:1086-1157 | In every reachable state, undo included, whatever command is accepted: the reducer applies its events, each with the closing validation, if and only if the condition for that kind of command holds; sixteen of the twenty-eight kinds have none. |
| CommandAgreement.DecidedExactly | packages/engine/src/decide-command.ts:1086-1157 | The same for any valid state that keeps two invariants of every run: every pending combat action is the awaited one, and the active actor has a slot. |
| HeroAgreement.ResolveCheckExactly | packages/engine/src/decide-command.ts:853-968 | An accepted check is applied if and only if what it may request may be requested: fewer than sixteen checks pending, and no death asked about while the fight awaits an action. |
| HeroAgreement.WaitingExactly | packages/engine/src/subsystem-decisions.ts:105-209 | A physical attempt at a challenge, social shift or ritual - Spark, request and continuation - is applied under the same condition exactly. |
| Samples.DeathCheckOverActionIsRefused | packages/contracts/src/domains/combat.ts:374-398 | A concrete fight that awaits an action, in a state that keeps the run invariants: a check on permanent death is accepted and refused. |
| HeroAgreement.AidAgrees | packages/engine/src/combat-decisions.ts:1971-2087 | Accepted aid is always applied: its payment, and the death test disclosed anew. |
| HeroAgreement.MaterializeAgrees | packages/engine/src/decide-command.ts:248-413 | An accepted character is always applied. |
| HeroAgreement.RankAgrees | packages/engine/src/decide-command.ts:656-743 | An accepted rank is always applied. |
| HeroAgreement.RestAgrees | packages/engine/src/decide-command.ts:594-623 | An accepted rest is always applied. |
| HeroAgreement.SceneAgrees | packages/engine/src/decide-command.ts:625-654 | An accepted scene boundary is always applied. |
| HeroAgreement.StartAgrees | packages/engine/src/combat-decisions.ts:632-722 | An accepted start of a fight is always applied. |
| CombatAgreement.ExecuteAgrees | packages/engine/src/combat-decisions.ts:1518-1750 | Given room for what it adds and Spark for whoever spends it: whatever an executed action proposes, the reducer applies every event in order with the closing validation exactly when its effects make at most one change and restore at most one reaction, which was spent. |
| CombatAgreement.ExecuteAgreesExactly | packages/engine/src/combat-decisions.ts:1518-1750 | Whatever an executed action proposes is applied if and only if the lists have room for the checks and conditions it adds, whoever spends Spark has it, and its effects make at most one change and restore at most one reaction, which was spent. |
| CombatAgreement.ResolvedExactly | packages/engine/src/combat-decisions.ts:1237-1516 | The consequences of a resolved action of any degree - impact, overlay, end of the fight, wound, death test and effects - are applied exactly when the effects fit, given room. |
| EffectAgreement.EffectsExactly | packages/engine/src/combat-decisions.ts:1384-1491 | Several effects, each computed from the state before, are applied one after the other if and only if they make at most one change of place, objective or condition and restore at most one reaction, which was spent. |
| Samples.UnspentReactionIsRefused | packages/engine/src/apply-event.ts:715-724 | A concrete fight and a catalog that passes content validation: an accepted technique restores a reaction that is not spent, and the reducer refuses. |
| ReactionAgreement.ReactionAgreesExactly | packages/engine/src/combat-decisions.ts:1867-1969 | An accepted reaction, or declining one, is applied if and only if the lists have room and, the reactor's own reaction spent, the effects fit. |
| CommandAgreement.ReactionsInEveryRun | packages/engine/src/combat-decisions.ts:1867-1969 | So in every reachable state, undo included. |
| ContinuationAgreement.SubmitAgreesExactly | packages/engine/src/decide-command.ts:970-1084 | Whatever an accepted die proposes is applied if and only if its continuation fits the state left once the check is off the list: always for challenges, social shifts and rituals; for an action with room for what it adds and moves, and effects that fit; for a death test with a fresh scar and room for it, a hero not dead already, and a fight that waits for nothing else when it ends. |
| CommandAgreement.SubmitsInEveryRun | packages/engine/src/decide-command.ts:970-1084 | So in every reachable state, undo included, whatever other commands came between request and submission. |
| ContinuationAgreement.ActionGoesOn | packages/engine/src/combat-decisions.ts:1237-1516 | A combat action whose die has come in is applied if and only if there is room for what it adds and moves and its effects fit. |
| ContinuationAgreement.DeathTestGoesOn | packages/engine/src/combat-decisions.ts:2089-2172 | The outcome of a death test is applied if and only if its scar is fresh and there is room for it, its hero is not dead already, and a fight that ends waits for nothing else. |
| ContinuationAgreement.DieApplies | packages/engine/src/apply-event.ts:82-113 | A submitted die is always applied: its check leaves the list, the fight that waited for it goes on, and nothing else changes. |
| Samples.ThirtyThirdScarIsRefused | packages/contracts/src/game-state.ts:87-200 | A concrete fight that keeps the run invariants, in which the twenty of an awaited death test is accepted and refused for want of room for the scar. |
| CombatAgreement.EnemyImpactApplies | packages/engine/src/combat-decisions.ts:1352-1383 | So do an impact on an enemy and what its empty Guard triggers. |
| CombatAgreement.HeroImpactApplies | packages/engine/src/combat-decisions.ts:1288-1351 | So do an impact on a hero and the wound and death test it brings. |
| CombatAgreement.ExpensesApply | packages/engine/src/combat-decisions.ts:886-960 | So do costs, scene use and the slot, and they change nothing but Supply, the actor's Exertion and scene uses, and the slot. |
| CombatAgreement.TargetsFit | packages/engine/src/combat-decisions.ts:367-458 | Every enumerated target that moves an actor names a zone with room. |
| Applies.FullPendingsRefuse | packages/contracts/src/game-state.ts:87-200 | With sixteen checks pending every further request is refused. |
| Applies.FullConditionsRefuse | packages/contracts/src/game-state.ts:87-200 | A hero with thirty-two conditions takes no further one. |
| Victory.VictoryIsReal | packages/engine/src/combat-decisions.ts:1194-1235 | An impact on an enemy ends the fight exactly when afterwards no enemy has Guard left - unless, by the state before, the boss struck has an overlay that revives it with none - or when it fells the enemy and every hero is dead. |
| Victory.RevivalForeseen | packages/engine/src/combat-decisions.ts:1078-1126 | A boss is revived with no Guard exactly when it is a boss at or below the impact, its waiting overlay comes back on empty Guard, and the overlay gives it none. |
| Samples.FightGoesOnWithoutEnemies | packages/engine/src/combat-decisions.ts:1352-1371 | The second round of a concrete fight, with a catalog that passes content validation: an accepted and applied strike leaves no enemy with Guard and the fight active. |
| Victory.ForecastAgrees | packages/engine/src/combat-decisions.ts:1201-1208 | Who the decider counts as standing, from the state before, is who has Guard in the state after, or was revived. |
| CombatDecisions.EventsForResolvedCombatAction | packages/engine/src/combat-decisions.ts:1237-1516 | The pushes, effect by effect, give the specified list, and any refusal discards them all. |
| Liveness.ActivationAgrees | packages/engine/src/combat-decisions.ts:724-834 | Whatever hero activation or enemy selection is accepted, the reducer applies, a new round included. |
| CampaignRuns.NoDeadlockInEveryRun | packages/engine/src/combat-decisions.ts:152-210 | In every reachable active fight without reinforcements that wait for an objective, with a living hero participant and a living active actor if any: the active actor has an action, or else somebody's activation or selection is accepted and applied. |
| Liveness.NoDeadlock | packages/engine/src/combat-decisions.ts:499-521 | The same for any valid state in which the living are unspent exactly while they have a slot. |
| Liveness.GoesOnExactly | packages/engine/src/combat-decisions.ts:152-210 | In any valid active fight a next step other than withdrawal is accepted and applied if and only if the active actor lives and has a slot, or, with nobody active, a living hero can open the round, or heroes are next, or an unspent enemy that is next has a slot. |
| Liveness.DeadActorIsStuck | packages/engine/src/combat-decisions.ts:161-168 | With a dead active actor no next step is accepted. |
| Samples.ObjectiveStrandsFight | packages/engine/src/apply-event.ts:809-817 | The second round of a concrete fight of two heroes, in a state that keeps the invariants of every run: an accepted and applied action after which a living hero has no next step. |
| Liveness.LegalExactlyWithSlot | packages/engine/src/combat-decisions.ts:460-630 | The enumeration for a living actor is empty exactly when both slots are gone. |
| TurnOrder.ActivationsInEveryRun | packages/engine/src/apply-event.ts:514-531 | In every reachable state, except for reinforcements still waiting, an activation is spent exactly when action and maneuver are both gone. |
| CampaignRuns.ActionsAwaitedInEveryRun | packages/engine/src/apply-event.ts:586-606 | In every reachable state, undo included, a pending check that continues a combat action is the one the fight is paused for. |
| CampaignRuns.ActiveCanActInEveryRun | packages/engine/src/apply-event.ts:483-533 | In every reachable state, undo included, the active actor has its action or its maneuver left. |
| TurnOrder.ExecuteSpendsOneSlot | packages/engine/src/combat-decisions.ts:1518-1750 | An applied execution lowers the number of free slots by exactly one, in the same round. |
| TurnOrder.RoundsAreFinite | packages/engine/src/apply-event.ts:725-764 | Over any run without undo rounds never fall, and executions are bounded by the free slots at the start and two per participant for every new round. |
| TurnOrder.ApplyProgress | packages/engine/src/apply-event.ts:483-533 | One event either spends a slot, opens the next round, or changes neither. |
| TurnOrder.SidesAlternate | packages/engine/src/combat-decisions.ts:166-199 | In every run without undo, a side activates twice running in a round only when nobody living on the other side is unspent. |
| TurnOrder.RoundEndsWhenAllSpent | packages/engine/src/combat-decisions.ts:166-193 | Whatever is submitted, the round stays or becomes the next one, and the latter only when everybody living had spent its activation before the command. |
| ZoneGraph.ZoneDistance | packages/engine/src/combat-decisions.ts:212-240 | The level-by-level search terminates and computes the specified distance. |
| ZoneGraph.DistanceIsShortest | packages/engine/src/combat-decisions.ts:212-240 | For every zone list, a distance is the length of a shortest connection path, and is absent exactly when there is none. |
| ZoneGraph.DistanceIsMetric | packages/contracts/src/domains/combat.ts:95-153 | On an accepted battlefield the distance always exists, is zero only to the same zone, is symmetric and obeys the triangle inequality. |
| ZoneGraph.DistanceOneIsConnection | packages/engine/src/combat-decisions.ts:242-263 | On an accepted battlefield distance one is being connected. |
| ZoneGraph.ValidateZoneGraph | packages/contracts/src/domains/combat.ts:95-153 | The stack search and its count accept exactly the graphs with distinct zones, two-way connections and a path between every two zones. |
| ZoneGraph.VisitedDecidesConnection | packages/contracts/src/domains/combat.ts:125-153 | Counting the visited zones against the list settles distinctness and connectedness at once. |
| CombatRules.EnumerateCombatActions | packages/engine/src/combat-decisions.ts:460-630 | The nested pushes and the sort give the specified list of candidates. |
| CombatRules.SortSorts | packages/engine/src/combat-decisions.ts:628-630 | Sorting the candidates loses and invents none and orders them by identity. |
| LegalActions.EnumeratedIsLegal | packages/engine/src/combat-decisions.ts:460-630 | Every enumerated candidate is a pass, a move, a use of an ability the actor may use or an objective it stands at, with a free slot, and is scored by its kind and source. |
| LegalActions.PassIsOffered | packages/engine/src/combat-decisions.ts:499-521 | A pass is offered for each slot that is left. |
| EnemyChoice.ChoiceIsBest | packages/engine/src/combat-decisions.ts:740-834 | The selected candidate is legal, none legal scores higher, and selecting never opens a round. |
| EnemyChoice.ChoiceStaysExecutable | packages/engine/src/combat-decisions.ts:1534-1545 | After the proposed events, the enemy is active and the selected identity names the very same candidate. |
| EnemyChoice.SameIdSameCandidate | packages/engine/src/combat-decisions.ts:314-326 | Two legal candidates of an enemy with one identity are one and the same. |
| CombatDecisions.BestScoreIsAttained | packages/engine/src/combat-decisions.ts:786-791 | The best score bounds every candidate's, and some candidate has it. |
| ReactionPriority.ReactorsAreExact | packages/engine/src/combat-decisions.ts:1815-1865 | A window lists everybody who may react exactly once, the affected actor first, then heroes before enemies and by identity. |
| ReactionPriority.WindowAppliesExactly | packages/engine/src/apply-event.ts:695-709 | An accepted opening is applied if and only if at most ten may react. |
| Samples.WindowForElevenIsRefused | packages/engine/src/combat-decisions.ts:1815-1865 | A concrete fight whose window the decider accepts and the reducer refuses. |
| Subsystems.SignificantGearCostsPayable | packages/engine/src/subsystem-decisions.ts:586-612 | Splicing matching items out of what is ready succeeds exactly when the costs are a sub-multiset of the party's ready gear. |
| RitualPayment.PayableExactly | packages/engine/src/subsystem-decisions.ts:642-797 | An accepted and started ritual can be made ready by one accepted contribution per cost if and only if its Exertion costs can be given to heroes so that no hero is given more than it has. |
| RitualPayment.StartedRitualCanBePaid | packages/engine/src/subsystem-decisions.ts:685-797 | When they can, some such sequence lowers Supply by exactly the supply total and takes exactly the gear costs from the ready gear. |
| RitualPayment.SupplyAndGearCanBePaid | packages/engine/src/subsystem-decisions.ts:642-797 | A ritual without Exertion costs started for a party can always be paid. |
| RitualPayment.PaidFits | packages/engine/src/subsystem-decisions.ts:752-769 | From any point on, contributions that were all accepted and applied share out the Exertion left to pay among heroes that have it. |
| RitualPayment.NextPaid | packages/engine/src/subsystem-decisions.ts:685-797 | Whoever can pay the next cost does so with an accepted and applied contribution. |
| RitualPayment.NextPayer | packages/engine/src/subsystem-decisions.ts:685-797 | While the rest can be shared out and afforded, somebody can pay the next cost so that this stays true. |
| RitualPayment.ContributionExactly | packages/engine/src/subsystem-decisions.ts:685-797 | A contribution at the ritual's index is accepted exactly when that hero or the party has what the cost asks for, and then applied exactly when the hero has joined before or fewer than five have. |
| RitualPayment.ContributeRitualAgrees | packages/engine/src/apply-event.ts:1078-1115 | Every accepted contribution, whatever the cost, takes the cost, records the hero, counts the payment and makes the ritual ready with the last one - exactly when the hero may join. |
| RitualPayment.StartedButUnpayable | packages/engine/src/subsystem-decisions.ts:642-677 | A concrete party, and a catalog that passes content validation, that may start a ritual which then no sequence of contributions pays off. |
| Subsystems.RitualEffectEvents | packages/engine/src/subsystem-decisions.ts:799-855 | The loop with its map of projected values gives the specified chain or refusal. |
| SubsystemAgreement.AdjustmentsApply | packages/engine/src/subsystem-decisions.ts:799-855 | Every chained adjustment starts from the true value, and the whole chain applies and ends in the projected values. |
| SubsystemAgreement.AdjustmentApplies | packages/engine/src/subsystem-decisions.ts:799-855 | One adjustment records the true previous value, stays within bounds and applies. |
| SubsystemAgreement.ResolveRitualAgrees | packages/engine/src/subsystem-decisions.ts:857-927 | An accepted simulated resolution applies: resources adjusted by the consequence for the degree rolled, the ritual closed, nothing else changed. |
| SubsystemAgreement.AdvanceChallengeAgrees | packages/engine/src/subsystem-decisions.ts:245-350 | An accepted simulated attempt applies and leaves the tracks its definition's outcome gives, clamped, with the validator's status. |
| SubsystemAgreement.DecidedStatus | packages/contracts/src/domains/challenges.ts:64-85 | The decider's status is the one the validator requires of the new tracks under the tie rule. |
| SubsystemAgreement.SocialShiftAgrees | packages/engine/src/subsystem-decisions.ts:400-500 | An accepted simulated shift applies: the stance nears the requested one by the degree's steps, never passing it, nothing else changed. |
| SubsystemAgreement.StartChallengeAgrees | packages/engine/src/subsystem-decisions.ts:211-243 | An accepted challenge start is applied exactly while fewer than sixteen are known. |
| SubsystemAgreement.SeventeenthChallengeIsRefused | packages/contracts/src/game-state.ts:55 | A concrete campaign with sixteen challenges, and a catalog that passes content validation, in which a further start is accepted by the decider and refused by the reducer. |
| SubsystemAgreement.EstablishSocialAgrees | packages/engine/src/subsystem-decisions.ts:359-398 | An accepted social state is applied exactly while fewer than thirty-two are known. |
| SubsystemAgreement.StartRitualAgrees | packages/engine/src/subsystem-decisions.ts:614-683 | An accepted ritual start within the record's bounds is applied exactly while fewer than sixteen are known. |
| SubsystemAgreement.InterruptRitualAgrees | packages/engine/src/subsystem-decisions.ts:929-957 | An accepted interruption is applied; what was paid stays paid. |
| SubsystemAgreement.CreateLeverageAgrees | packages/engine/src/subsystem-decisions.ts:502-532 | Accepted leverage is applied: one more, none lost. |
| SubsystemAgreement.SpendLeverageAgrees | packages/engine/src/subsystem-decisions.ts:534-562 | Spent leverage is applied: exactly that one is gone. |
| CanonicalJson.CanonicalJsonIsUnambiguous | packages/contracts/src/canonical-json.ts:5-73 | Two values print the same if and only if they are equal up to the order of object keys, for all nested values (grammar of RFC 8259, sections 2 to 7). |
| CanonicalJson.RefusedExactly | packages/contracts/src/canonical-json.ts:5-69 | Printing fails exactly when some nested part has no JSON form. |
| CanonicalJson.SortedSorts | packages/contracts/src/canonical-json.ts:40-58 | Sorting members with distinct keys puts the keys in strictly increasing code-unit order. |
| CanonicalJson.QuoteTells | packages/contracts/src/canonical-json.ts:10-11 | A quoted string is read back unambiguously from the front of any text. |
| Sha256.Sha256Hex | packages/contracts/src/sha256.ts:31-114 | The loops over arrays compute, for every byte sequence, the digest of FIPS 180-4 (sections 5.1.1 and 6.2) in hexadecimal. |
| Sha256.PadBytes | packages/contracts/src/sha256.ts:33-42 | The buffer is the padded message: 0x80, zeros, then the length in bits over eight bytes. |
| Sha256.PadIsInjective | packages/contracts/src/sha256.ts:33-42 | Different messages are padded differently, whatever their lengths. |
| Sha256.ExtendWords | packages/contracts/src/sha256.ts:55-73 | The second schedule loop computes the message schedule. |
| Sha256.RunRounds | packages/contracts/src/sha256.ts:83-103 | The sixty-four rounds in place compute the standard's rounds. |
| Sha256.FiveTerms | packages/contracts/src/sha256.ts:86-92 | The sum of five terms, two of them read as signed, stays within 2^53 and the unsigned shift reduces it to the 32-bit sum of the standard. |
| GuidedGraph.ValidateGuidedPresentationManifest | packages/contracts/src/guided-presentation.ts:214-350 | The bounds, the checks of beats, kinds, conclusions and layout, and the graph checks with their shared sets accept exactly the specified manifests and report exactly the specified beats. |
| GuidedGraph.AcceptedGraphIsSound | packages/contracts/src/guided-presentation.ts:274-300 | When the graph checks accept, every beat is reachable from the start and every cycle contains a declared merge. |
| GuidedGraph.AcceptedHasRank | packages/contracts/src/guided-presentation.ts:276-294 | Acceptance gives a rank that falls along every edge that does not lead to a declared merge. |
| GuidedGraph.ReportedCyclesAreReal | packages/contracts/src/guided-presentation.ts:276-294 | Every reported beat, whatever the manifest, is unmerged and lies on a cycle. |
| GuidedOrder.ReportedExactly | packages/contracts/src/guided-presentation.ts:276-294 | A beat is reported if and only if it is unmerged and the first-entered beat of some cycle. |
| GuidedOrder.VisitedExactly | packages/contracts/src/guided-presentation.ts:276-300 | The walk visits exactly the beats reachable from the start. |
| GuidedOrder.GraphAcceptedExactly | packages/contracts/src/guided-presentation.ts:256-300 | The graph checks accept if and only if beats are distinct, start and targets exist, every beat is reachable, and the first-entered beat of every cycle is a declared merge. |
| GuidedOrder.MergedCyclesAreAccepted | packages/contracts/src/guided-presentation.ts:276-294 | It is enough that every beat on a cycle is merged. |
| GuidedOrder.UnmergedStartIsRefused | packages/contracts/src/guided-presentation.ts:276-294 | A cycle through an unmerged start is always reported and refused. |
| GuidedSamples.MergedCycleCanBeRefused | packages/contracts/src/guided-presentation.ts:276-294 | A concrete manifest that passes every other check of the validator, all of whose cycles pass a declared merge, and which is refused. |
| GuidedRunner.Runner.Advance | apps/host/src/guided/runner.ts:55-86 | Advancing enters exactly the chain of private clues and the beat that ends it, or refuses when there is no target; the loop terminates. |
| GuidedRunner.AcceptedChainsNeverRevisit | apps/host/src/guided/runner.ts:70-84 | On every manifest that passes the graph checks and has no merged private clue the loop ends and enters each beat at most once. |
| GuidedRunner.StopsExactlyWithoutRevisit | apps/host/src/guided/runner.ts:70-84 | The loop ends if and only if it never comes back to a beat, and then within as many turns as there are beats. |
| GuidedSamples.MergedClueCanHang | apps/host/src/guided/runner.ts:70-84 | A concrete manifest that passes every check of the validator, and whose start continues into a loop that never ends. |
| Prerequisites.FindPrerequisiteCycle | packages/contracts/src/manifests.ts:287-319 | The recursive search with its shared sets reports a cycle exactly when the prerequisites have one. |
| Prerequisites.AcceptedExactlyWhenRanked | packages/contracts/src/manifests.ts:299-318 | No cycle is reported exactly when a rank exists that strictly falls along every prerequisite. |
| Relay.RelayForwardsPrefix | apps/relay/src/durable-room.ts:586-620 | In every run, what the room lets through for a connection is a prefix 0, 1, 2, ... of the host's numbering, each once, and every socket gets a part of it in order. |
| Relay.ClientActsOnBlock | apps/web/src/transport/client.ts:250-280 | Whatever arrives on one browser socket - lost, repeated, out of order - the messages acted on are one contiguous block of the host's numbering, none twice. |
| Relay.ApplianceTransport.Send | apps/host/src/relay/transport.ts:264-300 | A number is used up per recipient whether or not a socket carries the frame. |
| Relay.DurableRoom.WebSocketMessage | apps/relay/src/durable-room.ts:521-646 | One arriving message changes the sockets as specified: refused, dropped as old, answered as a gap, or passed on and counted. |
| Relay.DurableRoom.Connect | apps/relay/src/durable-room.ts:275-324 | A new socket closes the earlier ones of its connection and carries their numbering on; a full room refuses it. |
| Relay.PlayerClient.Receive | apps/web/src/transport/client.ts:244-280 | A frame is acted on only from the current socket and only as the next number, or as the first. |
| Relay.PlayerClient.Connect | apps/web/src/transport/client.ts:172-242 | A new socket starts a new numbering. |
| Relay.PassedOnIsNext | apps/relay/src/durable-room.ts:586-620 | A host frame is passed on only with the number of frames passed on for its recipient before. |
| Relay.LostFrameStopsStream | apps/host/src/relay/transport.ts:298-300 | Once the next frame for a connection was numbered and is lost, nothing is let through for it in any continuation of the run. |
| Relay.FreshSocketPassesNothing | apps/relay/src/durable-room.ts:303-318 | A host socket that carries no numbering on passes nothing on for a connection that has received something. |

## Left out

- Identities are natural numbers with an order; texts, names, narrative fields and length rules are dropped, and with them the rejections that only inspect texts (missing stakes, empty positions, equality of foundation narratives).
- Every command and event is taken to belong to the one campaign of the run; campaign identities, timestamps, and the match of a draw's evidence with its command are not part of this model. A draw is any number in the requested range.
- Validation issues are a verdict, not messages and paths.
- `legal_action_id_for` is an arbitrary function of the candidate's key, assumed injective where it is said so; the string join that makes the key is not modelled.
- Catalogs are arbitrary; the concrete catalogs, starter loadouts, and the fixed rating distributions of a character foundation are not modelled.
- Commands.Decide: `undo_transaction` is an action of the session, as the coordinator handles it, and not a command.
- CommandAgreement.AgreementInEveryRun: takes identities that are in use nowhere, enemies whose identity is no hero's, a catalog within its schema, and requests within theirs; the allocation of identities and the parsing of commands are not part of this model. The lemmas for single commands ask for the same.
- CombatAgreement.ExecuteAgreesExactly: asks for the same identities and catalog.
- Compensation.SimpleUndone: roll requests and reaction slots are treated by `Undo.TailUndone` and `Compensation.ReactionUndone`, as they are not undone exactly in every state.
- CatalogRules.CatalogAccepted: content hashes, texts and the spelling of tags are not modelled.
- CampaignRuns.NoDeadlockInEveryRun: excludes reinforcements that wait for an objective, since the objective clears their spent activation whatever their slots; `Liveness.GoesOnExactly` says what holds with them.
- GuidedRunner.Runner.Advance: requires that the chain from the target does not come back to a beat, which is exactly what makes the loop end; text provider, proposals and room store are not modelled.
- GuidedGraph.ValidateGuidedPresentationManifest: texts, operations, narration templates and starter summaries are not modelled.
- CanonicalJson.RefusedExactly: says nothing of cyclic objects, which the source also refuses.
- CanonicalJson.CanonicalJsonIsUnambiguous: numbers are integers, and values are finite trees, so the detection of cyclic objects has no counterpart.
- Relay: token checks, invites, approval, storage and alarms are an abstract guard; notices on closing sockets are not modelled.
- Stores, coordinators, workflow recovery, projections, replay, HTTP, the user interface, cryptography beyond SHA-256, and the enumeration of legal character actions for display.
- ApplyEvents.ApplyGameEvent: the cases that loop or change several fields are written out as steps (checks, slots, activations, rounds, objectives, harm, moves, overlays, rests and scenes); the remaining ones, a lookup and one replacement each, are taken from the specification function.
- The order of identities stands for the comparison the code sorts by; locale rules are not modelled.
- Reducer: objects are values here; that the code works on a clone, and aliasing inside it, are not captured.
