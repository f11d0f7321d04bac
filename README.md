# Chain of Command: a verified model

This project models two pieces of an Imperial Assault campaign companion app.

The first is the "Chain of Command" mission (`src/reducers/missions/chainOfCommand.js`). It has three parts:

- **The reducer** (`ChainOfCommand.Reduce`) is a pure transition function over four flags:
  - `generalWeissActive`
  - `generalWeissDeployed`
  - `priorityTargetKillHero`
  - `terminalActivatedForRound`
- **The goal-text selector** is `ChainOfCommand.GoalText`.
- **The listener sagas** are modelled twice, on two levels:
  - as functions on a `World` value, the part of the store the mission reads and writes (module `CommandSagas`);
  - as the class `CommandMission.Mission`, whose fields are that state and whose methods update them in the order the sagas dispatch their effects. Each method is proved equal to its function.

  `Mission.Receive` delivers one action. It runs the reducers first, then every listener still waiting for that action type, in the order the entry saga forks them. Listeners that can stop have a liveness flag in `alive`: the loops that end by `break` or `return`, and `handleSpecialSetup` and `handleWeissEntersATST`, which take a single action and run to their end. What the listeners show or send to the host goes into a `log` of signals: dialogs, victory modals, `statusPhaseEndRoundEffectsDone`, `missionSagaLoadDone`. The user's answer to a yes/no dialog is a parameter `yes`. The random deployment point is a choice `west` between the two green points.

  Module `CommandProperties` proves properties of whole runs. The main one is an invariant that holds from the start and is kept by every action. It ties the number of `REBEL_VICTORY`, `IMPERIAL_VICTORY` and `missionSpecialSetupDone` signals to the liveness of the listeners that send them, which gives "each at most once".

The second is the markup substitution `src/components/utils/handleTextSubs.js` (module `TextSubs`). It is a chain of twelve global `String.replace` calls. Module `GlobalReplace` defines what one such call does:

- a left-to-right scan for a literal token, or for an `open(.*?)close` pair;
- `.` excludes the JavaScript line terminators (`\n`, `\r`, U+2028, U+2029);
- the match is non-greedy: it stops at the nearest `close`.

The image paths and the `ELITE_RED` colour are imported values. They are the fields of an `Assets` parameter. Where a lemma needs it, the parameter is assumed to contain no `{`.

The Rebel-victory and Imperial-victory listeners (lines 251-269 and 372-390) are independent, so one run can signal both; `CommandProperties.BothOutcomesInOneRun` exhibits such a run. `CommandProperties.OutcomesAtMostOnce` therefore bounds each signal separately.

## Model

| member | source | states |
|---|---|---|
| ChainOfCommand.Reduce | src/reducers/missions/chainOfCommand.js:122-153 | The three payload actions copy their value into their own flag and leave the others alone. The terminal interaction sets `terminalActivatedForRound`. Round-end effects clear it. Every other action leaves the state unchanged. |
| ChainOfCommand.UnrecognisedIsNoOp | src/reducers/missions/chainOfCommand.js:150-151 | An action type the reducer does not handle returns the state unchanged. |
| ChainOfCommand.RecognisedChangesSomeState | src/reducers/missions/chainOfCommand.js:123-149 | Every handled action type changes some state. So the handled set is exactly the set of actions the reducer reacts to. |
| ChainOfCommand.ReduceIdempotent | src/reducers/missions/chainOfCommand.js:122-153 | Delivering the same action twice has the same effect as delivering it once. |
| ChainOfCommand.ReduceAllIgnoresUnrecognised | src/reducers/missions/chainOfCommand.js:150-151 | Folding the reducer over a list equals folding it over the list with the unhandled actions removed. |
| ChainOfCommand.TerminalFlagFollowsLastEvent | src/reducers/missions/chainOfCommand.js:139-149 | After a list of actions, `terminalActivatedForRound` is true exactly when the last terminal-or-round-end action was a terminal interaction. |
| ChainOfCommand.LaterActionsKeepTerminalFlag | src/reducers/missions/chainOfCommand.js:124-138 | Actions other than the terminal interaction and round-end effects never change `terminalActivatedForRound`. |
| ChainOfCommand.GoalText | src/reducers/missions/chainOfCommand.js:158-180 | The goals always end with the four Terminals lines. The six Door/Weiss lines come before them exactly when General Weiss is not active. The length is 10 or 4. |
| ChainOfCommand.GoalTextDependsOnActiveOnly | src/reducers/missions/chainOfCommand.js:158-180 | Two states give the same goal text if and only if they agree on `generalWeissActive`. |
| CommandSagas.DeploymentPoint | src/reducers/missions/chainOfCommand.js:184-186 | The drawn point is the western green point exactly when the draw says west, and the southern one otherwise. |
| CommandSagas.Start | src/reducers/missions/chainOfCommand.js:454-483 | The entry saga's effects: attack target "closest unwounded hero", move target Weiss, a green deployment point, terminal AI with the exclusion list, Weiss behind the door, every listener waiting, and a log holding only the load-done signal. The saga sets no `chainOfCommand` flag, so the model starts it from a fresh store: every flag at the reducer's initial value, no wounded heroes and no exhausted groups. |
| CommandSagas.OnSpecialSetup | src/reducers/missions/chainOfCommand.js:421-446 | On its first action: the setup dialog, initial setup of the six groups, the briefing, Weiss's +6 health buff and setup-done. Then the listener stops. Once stopped, it changes nothing. |
| CommandSagas.OnDoorActivated | src/reducers/missions/chainOfCommand.js:188-205 | Reacts only to door 1 opening (`id` 1, type `door`, value true). Weiss gets GO_TO_ATST if General Weiss is deployed, REGULAR_BEHAVIOR otherwise, and the listener stops. Any other event, or any event after that, changes nothing. |
| CommandSagas.OnDefeat | src/reducers/missions/chainOfCommand.js:251-269 | Signals a Rebel victory and stops exactly when the defeated group is `weiss` while General Weiss is inactive, or `generalWeiss` while he is active. Otherwise Weiss's AI changes only to REGULAR_BEHAVIOR, and only when General Weiss is deployed but inactive and is the one defeated. |
| CommandSagas.OnWeissEntered | src/reducers/missions/chainOfCommand.js:271-302 | Runs once. Afterwards General Weiss is active, the Invulnerable dialog and the new victory text are logged, General Weiss is no longer exhausted and is the move target, and nothing else changes. |
| CommandSagas.OnWeissDefends | src/reducers/missions/chainOfCommand.js:304-322 | Threat below 2: only the not-enough-threat dialog. Otherwise: the defence dialog, and threat drops by exactly 2. |
| CommandSagas.OnActivate | src/reducers/missions/chainOfCommand.js:324-348 | For General Weiss with threat below 2, the listener stops for good. Otherwise it asks the question and spends 2 threat (with the heal dialog) exactly on yes. Other groups change nothing. |
| CommandSagas.OnTerminalActivated | src/reducers/missions/chainOfCommand.js:350-358 | An activated terminal's map cell becomes invisible. Every other cell and every other field stays as it was. |
| CommandSagas.OnTerminalInteract | src/reducers/missions/chainOfCommand.js:360-370 | Clears the custom AI, logs the dialog and raises threat by exactly 2. |
| CommandSagas.OnWound | src/reducers/missions/chainOfCommand.js:372-390 | With every hero wounded: Imperial victory, and the listener stops. With one hero left: priority-target flag set, attack and move targets "remaining hero". Otherwise nothing changes. |
| CommandSagas.Vulnerable | src/reducers/missions/chainOfCommand.js:207-249 | General Weiss is deployed and exhausted, and Weiss heads for the AT-ST, whatever the answer. The answer chooses between the recover dialog and the interrupt dialog plus the interrupted group. |
| CommandSagas.OnRoundEnd | src/reducers/missions/chainOfCommand.js:393-418 | The Vulnerable event runs only in round 2. General Weiss is exhausted exactly when he already was, or it is round 2, or he is deployed but not active. The terminal AI is restored, the deployment point is the drawn green point, and the log ends with exactly one end-round-done signal. In round 2 the only flag that changes is `generalWeissDeployed`. Threat, round, listeners, heroes, targets and map visibility are unchanged. |
| CommandSagas.Store | src/reducers/missions/chainOfCommand.js:122-153 | Before the listeners run, the mission reducer updates the flags and a wounded hero joins the wounded set. Nothing else changes. |
| CommandSagas.React | src/reducers/missions/chainOfCommand.js:467-479 | One delivered action: the reducers, then every listener forked at these lines that waits for its type, in fork order. It has no contract of its own; `ReactTally`, `ReactKeepsInv` and `QuietActionIsStored` characterise it, and `Mission.Receive` is proved equal to it. |
| CommandSagas.Run | src/reducers/missions/chainOfCommand.js:467-479 | Actions delivered one after the other. It has no contract of its own; `RunKeepsInv`, `OutcomesAtMostOnce`, `EndRoundDoneOncePerRoundEnd` and `RunIgnoresOthers` characterise it. |
| CommandProperties.StartEstablishesInv | src/reducers/missions/chainOfCommand.js:454-483 | The entry saga establishes the invariant. Threat is non-negative. Each of the victory and setup-done counts is 0 while its listener waits and 1 after it stops. One load-done is logged. All heroes are wounded once the wound listener has stopped. The terminal AI carries the exclusion list. |
| CommandProperties.SetupListenerTally | src/reducers/missions/chainOfCommand.js:421-446 | The setup listener adds one setup-done exactly when it was still waiting. |
| CommandProperties.SpecialSetupTally | src/reducers/missions/chainOfCommand.js:421-446 | The special-setup action adds exactly one setup-done if the listener was waiting, and nothing otherwise. |
| CommandProperties.MapStateTally | src/reducers/missions/chainOfCommand.js:188-205 | A map-state action sends no signal (door and terminal listeners). |
| CommandProperties.DefeatTally | src/reducers/missions/chainOfCommand.js:251-269 | A defeat adds one Rebel victory exactly when the defeat listener was waiting and the defeat is the winning one. |
| CommandProperties.WeissEnteredTally | src/reducers/missions/chainOfCommand.js:271-302 | Weiss entering the AT-ST sends no counted signal. Its own defeat of Weiss never wins. |
| CommandProperties.WeissDefendsTally | src/reducers/missions/chainOfCommand.js:304-322 | A defence sends no counted signal. |
| CommandProperties.ActivateTally | src/reducers/missions/chainOfCommand.js:324-348 | An activation sends no counted signal. |
| CommandProperties.TerminalInteractTally | src/reducers/missions/chainOfCommand.js:360-370 | A terminal interaction sends no counted signal. |
| CommandProperties.WoundTally | src/reducers/missions/chainOfCommand.js:372-390 | A wound adds one Imperial victory exactly when the wound listener was waiting and the wound leaves every hero wounded. |
| CommandProperties.VulnerableTally | src/reducers/missions/chainOfCommand.js:207-249 | The Vulnerable event sends no counted signal. |
| CommandProperties.RoundEndTally | src/reducers/missions/chainOfCommand.js:393-418 | A round-end action adds exactly one end-round-done and no other counted signal. |
| CommandProperties.QuietActionIsStored | src/reducers/missions/chainOfCommand.js:454-483 | Actions no listener waits for only pass through the reducers and leave the log alone. |
| CommandProperties.ReactTally | src/reducers/missions/chainOfCommand.js:188-483 | The counts after any one action are the counts before plus that action's contribution. |
| CommandProperties.StoreKeepsInv | src/reducers/missions/chainOfCommand.js:122-153 | The reducers' update keeps the invariant. |
| CommandProperties.SpecialSetupKeepsInv | src/reducers/missions/chainOfCommand.js:421-446 | The special-setup action keeps the invariant. |
| CommandProperties.MapStateKeepsInv | src/reducers/missions/chainOfCommand.js:188-205 | A map-state action keeps the invariant. |
| CommandProperties.DefeatKeepsInv | src/reducers/missions/chainOfCommand.js:251-269 | A defeat keeps the invariant. |
| CommandProperties.WeissEnteredKeepsInv | src/reducers/missions/chainOfCommand.js:271-302 | Weiss entering the AT-ST keeps the invariant. |
| CommandProperties.WeissDefendsKeepsInv | src/reducers/missions/chainOfCommand.js:304-322 | A defence keeps the invariant. Threat is never spent below zero. |
| CommandProperties.ActivateKeepsInv | src/reducers/missions/chainOfCommand.js:324-348 | An activation keeps the invariant. Threat is never spent below zero. |
| CommandProperties.TerminalInteractKeepsInv | src/reducers/missions/chainOfCommand.js:360-370 | A terminal interaction keeps the invariant. |
| CommandProperties.WoundKeepsInv | src/reducers/missions/chainOfCommand.js:372-390 | A wound keeps the invariant. |
| CommandProperties.RoundEndListenerKeepsInv | src/reducers/missions/chainOfCommand.js:393-418 | The round-end listener keeps the invariant. |
| CommandProperties.RoundEndKeepsInv | src/reducers/missions/chainOfCommand.js:393-418 | A round-end action keeps the invariant. |
| CommandProperties.ReactKeepsInv | src/reducers/missions/chainOfCommand.js:188-483 | Every action keeps the invariant. |
| CommandProperties.RunKeepsInv | src/reducers/missions/chainOfCommand.js:188-483 | Any sequence of actions keeps the invariant. |
| CommandProperties.OutcomesAtMostOnce | src/reducers/missions/chainOfCommand.js:251-269 | From the mission start, over any sequence of actions: at most one Rebel victory, at most one Imperial victory and at most one setup-done are signalled, and threat stays non-negative. |
| CommandProperties.EndRoundDoneOncePerRoundEnd | src/reducers/missions/chainOfCommand.js:393-418 | Over any run, the number of end-round-done signals grows by exactly the number of round-end actions. |
| CommandProperties.RoundTwoDeploysGeneralWeiss | src/reducers/missions/chainOfCommand.js:393-418 | At the end of round 2, whatever the answer, General Weiss is deployed and exhausted, Weiss heads for the AT-ST, the terminal flag is clear and the terminal AI is restored. |
| CommandProperties.OtherRoundsLeaveWeissAlone | src/reducers/missions/chainOfCommand.js:397-399 | In other rounds the round end changes no flag except clearing the terminal flag, and does not change Weiss's AI. |
| CommandProperties.RunIgnoresOthers | src/reducers/missions/chainOfCommand.js:454-483 | Actions that neither a reducer nor a listener handles can be dropped from a run without changing its outcome. |
| CommandProperties.FreshDefeatOfWeissIsRebelVictory | src/reducers/missions/chainOfCommand.js:251-269 | Defeating Weiss before General Weiss is active wins at once: the log is load-done followed by Rebel victory. |
| CommandProperties.BothOutcomesInOneRun | src/reducers/missions/chainOfCommand.js:251-390 | A run with one hero, Weiss's defeat and then that hero's wound, logs load-done, Rebel victory and Imperial victory. |
| CommandProperties.VictoryMovesToGeneralWeiss | src/reducers/missions/chainOfCommand.js:271-302 | Once Weiss is in the AT-ST, the defeat listener is still waiting and no victory was signalled. A later defeat signals victory exactly for `generalWeiss`. |
| CommandProperties.WoundEffect | src/reducers/missions/chainOfCommand.js:372-390 | A wound adds the hero to the wounded set and keeps the hero roster. The wound listener keeps waiting exactly when it was waiting and some hero is still unwounded. |
| CommandProperties.WoundsBeforeLastHero | src/reducers/missions/chainOfCommand.js:372-390 | While one hero stays unwounded, any number of wounds keep the invariant and keep the wound listener waiting. The wounded set grows by exactly the wounded heroes. |
| CommandProperties.LastWoundIsImperialVictory | src/reducers/missions/chainOfCommand.js:372-390 | Wounding the last unwounded hero logs exactly one Imperial victory and stops the listener. |
| CommandProperties.OneHeroLeftIsTargeted | src/reducers/missions/chainOfCommand.js:384-388 | Wounding one of two unwounded heroes sets the priority-target flag and makes the remaining hero the attack and move target. The listener keeps waiting. |
| CommandProperties.DefenceSpendsTwoThreat | src/reducers/missions/chainOfCommand.js:304-322 | After a defence, threat is unchanged below 2 and exactly 2 lower otherwise. |
| CommandProperties.LowThreatActivationStopsListener | src/reducers/missions/chainOfCommand.js:324-332 | With threat below 2, General Weiss's activation stops the listener without spending threat. Every later activation then changes nothing. |
| CommandProperties.DoorReactsOnce | src/reducers/missions/chainOfCommand.js:188-205 | When door 1 opens, Weiss gets GO_TO_ATST or REGULAR_BEHAVIOR according to `generalWeissDeployed`. A second opening changes nothing. |
| CommandProperties.TerminalHidingIdempotent | src/reducers/missions/chainOfCommand.js:350-358 | Delivering the same terminal activation twice has the same effect as delivering it once. |
| CommandProperties.EntryOverridesLastHeroTarget | src/reducers/missions/chainOfCommand.js:300-301 | From a mission with two heroes, wounding one makes the other the priority, attack and move target. Weiss entering the AT-ST afterwards makes General Weiss the move target while the priority flag stays set. |
| CommandProperties.RoundTwoKeepsMoveTarget | src/reducers/missions/chainOfCommand.js:393-418 | The end of round 2 deploys General Weiss but leaves the move target as it was. |
| CommandIntended.OnWeissEnteredIntended | src/reducers/missions/chainOfCommand.js:448-453 | The corrected entry listener switches the move target to General Weiss only when no last hero is the priority target. Otherwise it equals the code's listener. |
| CommandIntended.OnRoundEndIntended | src/reducers/missions/chainOfCommand.js:448-453 | The corrected round end also makes General Weiss the move target in round 2, unless a last hero is the priority target. Otherwise it equals the code's listener. |
| CommandIntended.IntendedDiffersOnlyInMoveTarget | src/reducers/missions/chainOfCommand.js:448-453 | For every action, the corrected mission and the code agree on everything but the move target. |
| CommandIntended.IntendedRoundTwoMovesToGeneralWeiss | src/reducers/missions/chainOfCommand.js:451 | With the correction, after the end of round 2 General Weiss is deployed and is the move target, unless a last hero is the priority target. |
| CommandIntended.IntendedReactKeepsLastHeroTarget | src/reducers/missions/chainOfCommand.js:452 | With the correction, every action the host delivers keeps the rule "priority target set implies both targets are the remaining hero", and never clears the flag. |
| CommandIntended.IntendedRunKeepsLastHeroTarget | src/reducers/missions/chainOfCommand.js:452 | The same rule holds over any run of such actions. |
| CommandMission.Mission.constructor | src/reducers/missions/chainOfCommand.js:454-483 | The new mission's state is the entry saga's result for some drawn point, and it satisfies the invariant. |
| CommandMission.Mission.HandleSpecialSetup | src/reducers/missions/chainOfCommand.js:421-446 | The fields afterwards are `OnSpecialSetup` of the fields before. |
| CommandMission.Mission.HandleDoorOpened | src/reducers/missions/chainOfCommand.js:188-205 | The fields afterwards are `OnDoorActivated` of the fields before. |
| CommandMission.Mission.HandleVulnerable | src/reducers/missions/chainOfCommand.js:207-249 | The fields afterwards are `Vulnerable` of the fields before. |
| CommandMission.Mission.HandleWeissDefeated | src/reducers/missions/chainOfCommand.js:251-269 | The fields afterwards are `OnDefeat` of the fields before. |
| CommandMission.Mission.HandleWeissEntersAtst | src/reducers/missions/chainOfCommand.js:271-302 | The fields afterwards are `OnWeissEntered` of the fields before. |
| CommandMission.Mission.SwitchToGeneralWeiss | src/reducers/missions/chainOfCommand.js:281-301 | After Weiss's defeat, in the listener's order: the Invulnerable dialog is logged, General Weiss is no longer exhausted, the new victory text is logged, the move target becomes General Weiss and the listener stops. Nothing else changes. |
| CommandMission.Mission.HandleWeissDefends | src/reducers/missions/chainOfCommand.js:304-322 | The fields afterwards are `OnWeissDefends` of the fields before. |
| CommandMission.Mission.HandleActivation | src/reducers/missions/chainOfCommand.js:324-348 | The fields afterwards are `OnActivate` of the fields before, including the early `return`. |
| CommandMission.Mission.HandleTerminalDestroyed | src/reducers/missions/chainOfCommand.js:350-358 | The fields afterwards are `OnTerminalActivated` of the fields before. |
| CommandMission.Mission.HandleTerminalInteracted | src/reducers/missions/chainOfCommand.js:360-370 | The fields afterwards are `OnTerminalInteract` of the fields before. |
| CommandMission.Mission.HandleHeroesWounded | src/reducers/missions/chainOfCommand.js:372-390 | The fields afterwards are `OnWound` of the fields before. |
| CommandMission.Mission.HandleRoundEnd | src/reducers/missions/chainOfCommand.js:393-418 | The fields afterwards are `OnRoundEnd` of the fields before, with the point it drew. |
| CommandMission.Mission.Receive | src/reducers/missions/chainOfCommand.js:467-479 | Delivering an action gives `React` of the state before: reducers first, then every waiting listener in fork order. The invariant is kept. |
| GlobalReplace.FindClose | src/components/utils/handleTextSubs.js:20 | A found position is an occurrence of the closing token. |
| GlobalReplace.FindCloseLineFree | src/components/utils/handleTextSubs.js:20 | No line terminator lies before the found position, since `.` matches none. |
| GlobalReplace.FindCloseLeast | src/components/utils/handleTextSubs.js:20 | No earlier position holds the closing token: `.*?` is non-greedy. |
| GlobalReplace.FindCloseComplete | src/components/utils/handleTextSubs.js:20 | When nothing is found, no line-free position holds the closing token. |
| GlobalReplace.Apply | src/components/utils/handleTextSubs.js:18-70 | One global `replace(/…/g, …)`: scan left to right, replace each match and continue after it, copy other characters. It has no contract of its own; `LiteralReplacesToken`, `PairWrapsNearestClose`, `PairStopsAtLineEnd` and `PairWithoutCloseIsIdentity` characterise it. |
| GlobalReplace.ApplyAll | src/components/utils/handleTextSubs.js:14-73 | The chain of `replace` calls, first to last. It has no contract of its own; `ApplyAllSplit`, `ApplyAllCopiesPrefix`, `ApplyAllWithoutBrace` and `TokenPassesStages` characterise it. |
| GlobalReplace.MatchAt | src/components/utils/handleTextSubs.js:18-70 | A match consumes a non-empty prefix that starts with the pattern's first token. A pair match emits text that starts with the opening wrapper; `PairWrapsNearestClose` gives its exact output. A literal token matches exactly where the text starts with it, consumes exactly the token and emits exactly its replacement. |
| GlobalReplace.ApplyAllWithoutBrace | src/components/utils/handleTextSubs.js:14-73 | Patterns that all begin with `{` leave a text without `{` unchanged. |
| GlobalReplace.ApplyAllCopiesPrefix | src/components/utils/handleTextSubs.js:14-73 | A leading stretch without `{` is copied to the output unchanged, before the rewritten rest. |
| GlobalReplace.LiteralReplacesToken | src/components/utils/handleTextSubs.js:18 | A literal stage copies text that holds no first character of the token, replaces the token that follows with exactly its replacement, and then goes on with the rest as if it stood alone. |
| GlobalReplace.ClosedTokensDiffer | src/components/utils/handleTextSubs.js:18-70 | A `{NAME}` pattern never matches at the start of a text that begins with a different `{NAME}` token, so no stage's pattern can fire on another stage's token. |
| GlobalReplace.TokenPassesStage | src/components/utils/handleTextSubs.js:18-70 | A stage led by a different `{NAME}` token copies a leading token unchanged and processes the rest alone. |
| GlobalReplace.TokenPassesStages | src/components/utils/handleTextSubs.js:14-73 | So does a chain of such stages. |
| GlobalReplace.ApplyAllSplit | src/components/utils/handleTextSubs.js:14-73 | Running the chain equals running its first stages, then the remaining ones, on the result. |
| GlobalReplace.LiteralStageRemovesToken | src/components/utils/handleTextSubs.js:18 | After a global literal replace, the token no longer occurs, provided the replacement cannot recreate it. |
| GlobalReplace.LiteralStageKeepsAbsent | src/components/utils/handleTextSubs.js:26-70 | A literal replace does not create an occurrence of an absent token whose first character is not in the replacement, and vice versa. |
| GlobalReplace.PairWrapsNearestClose | src/components/utils/handleTextSubs.js:20 | An opening token followed by line-free content and the nearest closing token is replaced by the wrapped content, verbatim. Scanning continues after the closing token. |
| GlobalReplace.PairStageKeepsAbsent | src/components/utils/handleTextSubs.js:20-25 | A pair stage creates no occurrence of a text that starts with none of the wrappers' characters and contains neither wrapper's first character. |
| GlobalReplace.PairWithoutCloseIsIdentity | src/components/utils/handleTextSubs.js:20 | With no closing token in the text, a pair stage changes nothing. |
| GlobalReplace.PairStopsAtLineEnd | src/components/utils/handleTextSubs.js:20 | An opening token with no closing token before a line terminator is copied literally. |
| TextSubs.HandleTextSubs | src/components/utils/handleTextSubs.js:14-73 | The default export: the twelve stages applied to the text in order. It has no contract of its own; `HandleTextSubsRendersPieces`, `BreakAbsentFromOutput` and `IconTokensAbsentFromOutput` characterise it. |
| TextSubs.Stages | src/components/utils/handleTextSubs.js:14-73 | The twelve stages in source order: BREAK, BOLD, ELITE, then the nine icons. Each begins with `{`. |
| TextSubs.HandleTextSubsWithoutBrace | src/components/utils/handleTextSubs.js:14-73 | A text without `{` is returned unchanged. |
| TextSubs.HandleTextSubsCopiesPlainText | src/components/utils/handleTextSubs.js:14-73 | Leading text without `{` is copied unchanged and in order, ahead of the substituted rest. |
| TextSubs.BreakBecomesLineBreak | src/components/utils/handleTextSubs.js:14-73 | In the whole chain, a `{BREAK}` after text without `{` becomes `<br />`; the text before it is copied unchanged and the text after it is processed alone. |
| TextSubs.IconTokenClosed | src/components/utils/handleTextSubs.js:26-70 | Each icon token is `{`, capital letters, `}`. |
| TextSubs.IconTokensDistinct | src/components/utils/handleTextSubs.js:26-70 | The nine icon tokens are pairwise different. |
| TextSubs.MarkupLeadsClosed | src/components/utils/handleTextSubs.js:17-28 | `{BREAK}`, `{BOLD}` and `{ELITE}` are `{NAME}` tokens, and none of them is an icon token. |
| TextSubs.LeadsBeforeIcon | src/components/utils/handleTextSubs.js:17-70 | Every stage that runs before an icon's own stage is led by a different `{NAME}` token. |
| TextSubs.IconStageOnwards | src/components/utils/handleTextSubs.js:26-70 | From an icon's own stage on, its token becomes exactly its image tag, and the later icon stages leave that tag alone when the imported assets contain no `{`. |
| TextSubs.IconBecomesImage | src/components/utils/handleTextSubs.js:14-73 | In the whole chain, an icon token after text without `{` becomes its image tag; the text before it is copied unchanged and the text after it is processed alone. The assets must contain no `{`. |
| TextSubs.PieceRenders | src/components/utils/handleTextSubs.js:14-73 | A leading plain run, `{BREAK}` or icon token turns into itself, `<br />` or its image tag, and the rest is processed alone. |
| TextSubs.HandleTextSubsRendersPieces | src/components/utils/handleTextSubs.js:14-73 | For any text made of runs without `{`, `{BREAK}`s and icon tokens, the output is each run copied unchanged, each token replaced by its tag, all in the input's order. |
| TextSubs.BreakStageRemovesBreak | src/components/utils/handleTextSubs.js:18 | After the BREAK stage no `{BREAK}` remains. |
| TextSubs.IconStagesKeepAbsent | src/components/utils/handleTextSubs.js:26-70 | A token that starts with `{` and contains no `<` (every icon token, and `{BREAK}`) is never created by the icon stages. |
| TextSubs.WrapStagesKeepAbsent | src/components/utils/handleTextSubs.js:20-25 | Neither is such a token created by the BOLD and ELITE stages. |
| TextSubs.BreakAbsentFromOutput | src/components/utils/handleTextSubs.js:14-73 | No `{BREAK}` remains in the final output, whatever the input text, as long as the imported assets contain no `{`. |
| TextSubs.IconTokensAbsentFromOutput | src/components/utils/handleTextSubs.js:26-70 | No icon token remains in the final output, whatever the input, as long as the imported assets contain no `{`. |
| TextSubs.IconTokenIsUpperName | src/components/utils/handleTextSubs.js:26-70 | Each icon token is `{`, its image's alt name in upper case, `}`. |
| TextSubs.IconTokenNamesItsImage | src/components/utils/handleTextSubs.js:26-70 | Each icon stage replaces its token with an `<img>` whose `alt` is that token's capitalised name. |
| TextSubs.BoldWrapsNearestEnd | src/components/utils/handleTextSubs.js:20 | `{BOLD}c{END}` becomes the bold span around `c`, verbatim, paired with the nearest `{END}` on the line. |
| TextSubs.EliteWrapsNearestEnd | src/components/utils/handleTextSubs.js:22-25 | `{ELITE}c{END}` becomes the span with the `ELITE_RED` colour and bold weight around `c`, paired with the nearest `{END}` on the line. |
| TextSubs.BoldWithoutEndOnLine | src/components/utils/handleTextSubs.js:20 | A `{BOLD}` with no `{END}` before the end of its line stays literal text. |

## Left out

- The redux-saga runtime (`take`, `fork`, `all`, `put`, `call`) is not modelled as a scheduler. Each delivered action is handled atomically: the reducers run, then the waiting listeners in fork order. A listener that is blocked in a dialog and misses actions is not captured. The action that `handleWeissEntersATST` puts for Weiss's defeat is delivered straight to the defeat listener.
- Telemetry (`track`) is a fire-and-forget foreign call with no effect on the mission. It is left out.
- Dialog helpers (`helperEventModal`, `helperChoiceModal`, `helperDeploy`, `helperInitialSetup`, `helperMissionBriefing`, `helperShowInterruptedGroup`, `displayModal`) are code outside this model. Each becomes a log entry naming the dialog, not its text. A choice dialog's answer is the boolean `yes`.
- The randomness of `getRandomItem` is a free boolean `west`. No distribution is modelled. The `Mission` class draws it with an unconstrained choice.
- `CommandSagas.AllWounded` and `CommandSagas.OneHeroLeft` stand in for `getAreAllHeroesWounded` and `getIsOneHeroLeft`, whose code is outside this model. They are stated over a set of hero names and a wounded set.
- `getLastDeployedGroupOfId`, `silentSetImperialGroupActivated` and `setImperialGroupUnactivated` become membership of `generalWeiss` in an `exhausted` set of group ids.
- `increaseThreat` is ordinary addition. The threat reducer's own clamping, if any, is outside this model.
- The current round is owned by the status-phase code. The model reads it and never changes it.
- `handleStatusPhaseBegin` (forked at line 477) is defined outside this file and is not part of this model.
- The AI card contents, target names and deployment-point names are represented by enumerated names, not by their display strings.
- `clearCustomAI`, `setCustomAI` and `setCustomUnitAI` are modelled only as the fields they set. The imperials reducer that stores them is outside this model.
- The defeated figure's removal from the board by the imperials reducer is outside this model.
- TextSubs.HandleTextSubsRendersPieces: covers texts made of plain runs, `{BREAK}`s and icon tokens. Text with `{BOLD}` or `{ELITE}` markup is covered stage by stage instead (`BoldWrapsNearestEnd`, `EliteWrapsNearestEnd`, `BoldWithoutEndOnLine`), because a pair can span other tokens.
- `TextSubs.HandleTextSubs`: the `$1` in the BOLD and ELITE replacements is modelled as the captured text. Other `$` patterns are assumed absent from the imported assets.
- `GlobalReplace.FindClose`: the regular expressions are modelled only as far as these patterns need: a literal token, or an opening token, a lazy `.*?` and a closing token.
- The React components `MapObject.js` and `AiCard.js` only render, and are left out.

## Findings

The comment on priority targets (lines 448-453) states two rules that the listeners do not keep. The mission's state machine (`CommandSagas`, `CommandMission`) models the code as written. The corrected listeners and their proved rule are in `CommandIntended`.

| source | as written | input that shows it | evidently intended | confidence | as-written member | corrected member |
|---|---|---|---|---|---|---|
| src/reducers/missions/chainOfCommand.js:300-301 | `handleWeissEntersATST` always sets the move target to General Weiss. | Two heroes; one is wounded, so the other becomes the priority, attack and move target; then Weiss enters the AT-ST. The move target is now General Weiss while `priorityTargetKillHero` is still true. | Rule 3 of the comment: "at any point" with one hero left, both targets stay that hero. | medium, not executed | CommandProperties.EntryOverridesLastHeroTarget | CommandIntended.IntendedRunKeepsLastHeroTarget |
| src/reducers/missions/chainOfCommand.js:393-418 | The end of round 2 deploys General Weiss but sets no move target. | Any state in round 2: after the round-end action the move target is unchanged. | Rule 2 of the comment: at the end of round 2 the move target is General Weiss. | low, not executed; the comment may simply be stale | CommandProperties.RoundTwoKeepsMoveTarget | CommandIntended.IntendedRoundTwoMovesToGeneralWeiss |
