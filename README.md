# Mea Culpa front end — a verified Dafny model

This project models the game-master front end of the Mea Culpa dungeon
expeditions (a React/TypeScript application) and proves properties of it.

**The gameplay core**
- The expedition store: the room list of the current floor, the focused room, the gameplay phase, and the encounter and reward results.
- The gameplay page's handlers. They drive a room through four steps: encounter roll, reward rolls, item assignment and gold split. Then the room is completed and the next room is chosen.
- The dice utilities: `rollD20`, and the notation parser and summing loop of `rollDice`.
- The d20 widget: a 15-tick auto-roll and a manual entry.

**The rules around the core**
- Expedition setup: floor selection, roster, the start gate and tier grouping.
- The sale marks and liquidation payload of the summary page.
- The session store.
- The list filters and sorts of the expeditions page, the dashboard, the item search and the sidebar.

**How the model is built**
- State the source updates in place becomes a `class`: the two stores, each page's `useState` fields and the widget. Each handler is a method whose `ensures` states the whole new state.
- Derived values and pure rules are functions with lemmas.
- The loops of the source are `while`/`for` loops with invariants, proved against a specification function: the item-assignment loop, the gold loop, the dice loop, the tier grouping and the auto-roll ticks.

**What becomes an input**
- Each service call is an `Outcome` (the response, or a failure), or a `bool` when its response is unused.
- `Math.random()` becomes a `RandomValue`: the value k stands for k / 2^53.
- `jwtDecode`'s result is an optional payload.
- `window.confirm` is a `bool`.
- The current date is a string parameter.

A handler reached only from one section of the page `requires` what that section's render condition guarantees.

## Model

| member | source | states |
|---|---|---|
| ExpeditionStore.Store.constructor | src/stores/expedition.store.ts:38-46 | the store starts in the initial state: no expedition, empty roster and rooms, index 0, phase setup, no results |
| ExpeditionStore.Store.SetActiveExpedition | src/stores/expedition.store.ts:48 | only the active expedition changes |
| ExpeditionStore.Store.SetParticipants | src/stores/expedition.store.ts:49 | only the roster changes |
| ExpeditionStore.Store.SetFloor | src/stores/expedition.store.ts:50-51 | the room list is replaced wholesale, the floor recorded, the index reset to 0 and the phase set to the room list; nothing else changes |
| ExpeditionStore.Store.SetPhase | src/stores/expedition.store.ts:52 | only the phase changes |
| ExpeditionStore.Store.SetCurrentHabitacionIndex | src/stores/expedition.store.ts:53 | only the focused index changes |
| ExpeditionStore.Store.SetEncounterResult | src/stores/expedition.store.ts:54 | only the encounter result changes |
| ExpeditionStore.Store.SetRewardsResult | src/stores/expedition.store.ts:55 | only the reward result changes |
| ExpeditionStore.MarkCompleted | src/stores/expedition.store.ts:56-62 | same length; room `index` is completed when it exists, every other room is unchanged, an out-of-range index changes nothing |
| ExpeditionStore.MarkCompletedMonotone | src/stores/expedition.store.ts:57-60 | marking never clears a completed flag and sets none other than room `index`'s |
| ExpeditionStore.MarkCompletedIdempotent | src/stores/expedition.store.ts:57-60 | marking the same room twice equals marking it once |
| ExpeditionStore.Store.MarkHabitacionCompleted | src/stores/expedition.store.ts:56-62 | only the room list changes, and it becomes the marked list |
| ExpeditionStore.NextIndex | src/stores/expedition.store.ts:65-67 | the smallest index after the current one whose room is uncompleted, or none when no such room exists |
| ExpeditionStore.FindFrom | src/stores/expedition.store.ts:65-67 | the search from position i finds the first candidate at or after i, or shows there is none |
| ExpeditionStore.NextIndexIgnoresCurrent | src/stores/expedition.store.ts:65-67 | completing the current room does not change what the search finds, since it only looks after the current room |
| ExpeditionStore.Store.NextHabitacion | src/stores/expedition.store.ts:63-71 | with a later uncompleted room: focuses the first one, phase room list, both results cleared; otherwise nothing changes |
| ExpeditionStore.Store.Reset | src/stores/expedition.store.ts:72-82 | the state is exactly the initial state, whatever it was |
| Gameplay.GameplayPage.constructor | src/pages/GameplayPage.tsx:33-75 | the page starts with empty lists and buffers, no gold result, unchecked options and the roll step |
| Gameplay.GameplayPage.Load | src/pages/GameplayPage.tsx:77-101 | without a route id or on a failed load nothing changes; otherwise the expedition and roster go to the store and the floors and users to the page, and floor selection opens only for an expedition in progress |
| Gameplay.GameplayPage.Unmount | src/pages/GameplayPage.tsx:77-103 | with a route id the store is back in its initial state; with an empty one the effect returned before registering the cleanup and the store is untouched |
| Gameplay.GameplayPage.SetIncludeBonus | src/pages/GameplayPage.tsx:486 | only the bonus-room option changes |
| Gameplay.GameplayPage.SetIncludeEvento | src/pages/GameplayPage.tsx:496 | only the event-room option changes |
| Gameplay.GameplayPage.HandleGenerateFloor | src/pages/GameplayPage.tsx:113-131 | a layout request for the expedition's current floor with both options is sent exactly when there is an expedition; on success the store installs that floor's rooms; otherwise the store is unchanged |
| Gameplay.CurrentHabitacion | src/pages/GameplayPage.tsx:106 | the room at the focused index when it is in range, and none otherwise |
| Gameplay.ClearRoom | src/pages/GameplayPage.tsx:375-382 | definition of `resetRoomState`; its effect is stated in `Gameplay.GameplayPage.ResetRoomState` |
| Gameplay.CompletedCount | src/pages/GameplayPage.tsx:109 | the number of completed rooms is at most the number of rooms |
| Gameplay.CompletedCountMark | src/pages/GameplayPage.tsx:109 | marking an uncompleted room adds exactly one to the count; any other mark leaves it |
| Gameplay.FloorComplete | src/pages/GameplayPage.tsx:565 | definition of the "all rooms completed" condition; its properties are in `Gameplay.FloorCompleteCount` |
| Gameplay.FloorCompleteCount | src/pages/GameplayPage.tsx:413-414 | the "floor completed" panel (some rooms, all completed, line 565) shows exactly when the counter reads n/n with n > 0 |
| Gameplay.GameplayPage.EnterRoom | src/pages/GameplayPage.tsx:384-390 | offered on an uncompleted room of the list: that room becomes current, the phase becomes encounter, both results and all per-room buffers are cleared |
| Gameplay.GameplayPage.ResetRoomState | src/pages/GameplayPage.tsx:375-382 | reward rows, assignments, gold text, gold result and split are emptied and the encounter returns to its roll step; nothing else changes |
| Gameplay.GameplayPage.BackToRooms | src/pages/GameplayPage.tsx:617-621 | back to the room list with no encounter result and the per-room buffers cleared |
| Gameplay.GameplayPage.HandleEncounterRoll | src/pages/GameplayPage.tsx:133-157 | with a current room the roll (1..20 from the widget) is sent for it; on success the result is stored, the results step shows and the reward buffer holds `cantidad_total` empty rows; otherwise nothing changes |
| Gameplay.EmptyTiradas | src/pages/GameplayPage.tsx:144-149 | exactly n rows, each with both inputs empty |
| Gameplay.GameplayPage.ShowRewardsStep | src/pages/GameplayPage.tsx:660-663 | only the encounter step moves from results to rewards |
| Gameplay.GameplayPage.BackToResults | src/pages/GameplayPage.tsx:760 | only the encounter step moves back to results |
| Gameplay.GameplayPage.EditD20 | src/pages/GameplayPage.tsx:703-707 | only row i's d20 text changes |
| Gameplay.GameplayPage.EditSubtabla | src/pages/GameplayPage.tsx:731-735 | only row i's sub-table text changes |
| Gameplay.GameplayPage.RollRow | src/pages/GameplayPage.tsx:711-715 | only row i's d20 changes, to the printed d20 roll, and it reads back as a value in 1..20 |
| Gameplay.AutoFill | src/pages/GameplayPage.tsx:159-166 | rows with an empty d20 get a printed roll; filled rows and every sub-table entry are unchanged |
| Gameplay.AutoFillValid | src/pages/GameplayPage.tsx:159-166 | after auto-roll no d20 is empty, every rolled one reads in 1..20, and a form whose typed d20s were valid becomes valid |
| Gameplay.FreshBufferNeedsRolls | src/pages/GameplayPage.tsx:144-149 | a freshly resolved buffer with rows cannot be submitted, but becomes valid after auto-roll |
| Gameplay.GameplayPage.HandleAutoRollAll | src/pages/GameplayPage.tsx:159-166 | the reward rows become their auto-filled form; nothing else changes |
| Gameplay.D20Value | src/pages/GameplayPage.tsx:172 | definition of `parseInt(t.d20) || 0`; its properties are in `Gameplay.RewardRowLikeManual` and `Gameplay.AutoFillValid` |
| Gameplay.RollsValid | src/pages/GameplayPage.tsx:176-179 | definition of the d20 range check; its properties are in `Gameplay.DisabledProcessRejected`, `Gameplay.AutoFillValid` and `Gameplay.GameplayPage.HandleProcessRewards` |
| Gameplay.SubtablaValue | src/pages/GameplayPage.tsx:173 | absent exactly for an empty input, otherwise the parse of the text |
| Gameplay.ToRewardRolls | src/pages/GameplayPage.tsx:171-174 | one roll per row in row order, each with the row's d20 read with NaN as 0 and its sub-table value |
| Gameplay.RewardRowLikeManual | src/pages/GameplayPage.tsx:172-176 | a reward row's d20 is accepted exactly when the d20 widget would accept the same text by hand |
| Gameplay.DisabledProcessRejected | src/pages/GameplayPage.tsx:751-753 | when the submit button is disabled (some d20 empty) the rows would be rejected anyway |
| Gameplay.GameplayPage.HandleProcessRewards | src/pages/GameplayPage.tsx:168-194 | the rolls are sent exactly when there is a current room, an encounter result and every d20 reads in 1..20; on success the reward result is stored and item assignment opens; otherwise the store is unchanged; the page never changes |
| Gameplay.GameplayPage.ChooseAssignment | src/pages/GameplayPage.tsx:789-793 | the select offers the placeholder or an active participant's id (lines 108, 1143); only that item's choice changes |
| Gameplay.AssignRun | src/pages/GameplayPage.tsx:200-215 | definition of what the assignment loop sends and where it stops; its properties are in `Gameplay.AssignRunCompleted`, `Gameplay.AssignRunSent` and `Gameplay.AssignPending` |
| Gameplay.AssignRunCompleted | src/pages/GameplayPage.tsx:200-217 | the loop reaches its end exactly when every pending item is assigned and every call succeeds |
| Gameplay.AssignRunSent | src/pages/GameplayPage.tsx:200-215 | request k carries item k with its chosen participation; every call before the last one sent succeeded; nothing is sent for an unassigned item or after it; a completed run sent one request per item |
| Gameplay.AssignRunStep | src/pages/GameplayPage.tsx:200-215 | the run from item i on is item i's step followed by the run from i + 1 on |
| Gameplay.AssignPending | src/pages/GameplayPage.tsx:200-215 | the loop sends exactly the requests of the specification run and reports whether it ran to its end |
| Gameplay.GameplayPage.HandleAssignItems | src/pages/GameplayPage.tsx:196-223 | without a room or reward result nothing is sent; otherwise the loop's requests are sent and gold distribution opens only when the loop completes |
| Gameplay.GameplayPage.SkipToGold | src/pages/GameplayPage.tsx:780-811 | offered only with no pending item: gold distribution opens |
| Gameplay.SumRolls | src/pages/GameplayPage.tsx:227-230 | the sum of the gold rolls is never negative |
| Gameplay.RollGoldDice | src/pages/GameplayPage.tsx:227-230 | the loop's total is the sum of `rollDice` over every gold dice notation |
| Gameplay.GameplayPage.HandleRollGoldDice | src/pages/GameplayPage.tsx:225-233 | with a reward result, the rolled total becomes the proposed total and its text, and that text is accepted with the same value |
| Gameplay.AcceptedGold | src/pages/GameplayPage.tsx:237-238 | a total is accepted exactly when it parses to a non-negative integer, with that value |
| Gameplay.RolledGoldAccepted | src/pages/GameplayPage.tsx:232-238 | the text written by the gold roll is always accepted, with the rolled value |
| Gameplay.EmptyGoldRejected | src/pages/GameplayPage.tsx:870 | an empty total (the disabled button) is rejected anyway |
| Gameplay.GameplayPage.SetGoldTotal | src/pages/GameplayPage.tsx:863 | only the gold text changes |
| Gameplay.GameplayPage.HandleDistributeGold | src/pages/GameplayPage.tsx:235-258 | the split is sent exactly with a room, an expedition and an accepted total; on success the split is kept and the room completes; otherwise nothing changes |
| Gameplay.GameplayPage.SkipToRoomComplete | src/pages/GameplayPage.tsx:825-881 | offered only without gold dice: the room completes |
| Gameplay.GameplayPage.HandleCompleteRoom | src/pages/GameplayPage.tsx:260-285 | completion of the current room is sent; on success it is marked completed, the buffers are cleared and the room list shows again, focused on the next uncompleted room when there is one; otherwise nothing changes |
| Gameplay.GameplayPage.ChooseNewFloor | src/pages/GameplayPage.tsx:572-581 | only the select's text changes, to the placeholder or a loaded floor's number |
| Gameplay.GameplayPage.HandleChangeFloor | src/pages/GameplayPage.tsx:287-306 | offered on a completed floor: the new floor is sent exactly with an expedition and a choice; on success it becomes the expedition's floor, floor selection opens and the select clears; otherwise nothing changes |
| Gameplay.GameplayPage.HandleDeactivatePlayer | src/pages/GameplayPage.tsx:321-336 | on success only that participant's flag is cleared; on failure nothing changes |
| Gameplay.GameplayPage.HandleReactivatePlayer | src/pages/GameplayPage.tsx:338-353 | on success only that participant's flag is set; on failure nothing changes |
| Gameplay.GameplayPage.OpenAddReplacement | src/pages/GameplayPage.tsx:989-992 | the replacement form opens |
| Gameplay.GameplayPage.ChooseReplacementUser | src/pages/GameplayPage.tsx:1006-1013 | the select offers the placeholder or a user without a participation (lines 397-399); only the choice changes |
| Gameplay.GameplayPage.SetReplacementCharName | src/pages/GameplayPage.tsx:1019 | only the character name changes |
| Gameplay.GameplayPage.HandleAddReplacement | src/pages/GameplayPage.tsx:355-373 | sent exactly with a route id, a user and a non-blank name, with the trimmed name; on success the participation is appended and the form closed and cleared; otherwise nothing changes |
| Roster.ActiveParticipants | src/pages/GameplayPage.tsx:108 | exactly the active participants, in roster order |
| Roster.Enrolled | src/pages/ExpeditionDetailPage.tsx:132 | definition of `participants.some((p) => p.usuario_id === uid)`; its properties are in `Roster.AvailableUsers` and `Roster.AddedUserNotAvailable` |
| Roster.AvailableUsers | src/pages/ExpeditionDetailPage.tsx:131-133 | exactly the users no participant plays as, in their order |
| Roster.AddedUserNotAvailable | src/pages/ExpeditionDetailPage.tsx:68 | after a participant is appended its user is no longer offered, and nobody new is |
| Roster.RemoveParticipant | src/pages/ExpeditionDetailPage.tsx:83 | exactly the entries with that id are dropped; every other entry keeps its multiplicity and order |
| Roster.SetActivo | src/pages/GameplayPage.tsx:325-329 | same length; the participant with that id gets the flag, every other entry is unchanged |
| Roster.SetActivoOnlyFlag | src/pages/GameplayPage.tsx:342-346 | only the flag changes: ids, names and order stay, and every other participant keeps its flag |
| Roster.DeactivateReactivate | src/pages/GameplayPage.tsx:325-346 | deactivating and reactivating an active participant restores the roster |
| Roster.DeactivatedNotActive | src/pages/GameplayPage.tsx:325-329 | a deactivated participant leaves the active list and nobody else does |
| Strings.Value | src/lib/dice.ts:12-15 | definition of `Number` on a digit text; its properties are in `Strings.ValueOfShowNat` and `Dice.ParseRender` |
| Dice.RollFace | src/lib/dice.ts:13 | definition of `Math.floor(Math.random() * sides) + 1` on a draw; its properties are in `Dice.RollFaceRange` |
| Dice.ParseNotation | src/lib/dice.ts:8-10 | definition of the match of the notation pattern; its properties are in `Dice.ParseRender`, `Dice.ParseSound` and `Dice.RejectedNotations` |
| Dice.RollFaceRange | src/lib/dice.ts:13 | `floor(random * sides) + 1` lies in 1..sides for any draw |
| Dice.RollD20 | src/lib/dice.ts:2-4 | an integer in 1..20 whatever the draw |
| Dice.ParseRender | src/lib/dice.ts:8 | every string the pattern accepts is parsed, into the values of its groups |
| Dice.ParseRenderBonus | src/lib/dice.ts:8 | a notation with a `+<bonus>` group parses into its three group values |
| Dice.HeadParts | src/lib/dice.ts:8 | in `<count>d<sides>` followed by a non-digit, the first two digit runs end exactly at the `d` and after the sides |
| Dice.ParseWithBonus | src/lib/dice.ts:8-10 | three digit runs separated by `d` and `+` reaching the end of the string are parsed into their values |
| Dice.ParseSound | src/lib/dice.ts:8-10 | every string that is parsed is one the pattern accepts, and parses to the values of its groups |
| Dice.RejectedNotations | src/lib/dice.ts:8-9 | "d6", "1d6-2" and " 2d6" are rejected |
| Dice.RollValue | src/lib/dice.ts:7-16 | definition of the value `rollDice` returns for the injected draws; its properties are in `Dice.RollDice`, `Dice.RollValueBounds`, `Dice.ZeroDiceRollBonus` and `Dice.UnparsedRollsZero` |
| Dice.RollDice | src/lib/dice.ts:7-16 | the summing loop returns the sum of exactly `count` faces plus the bonus, or 0 for a string the pattern rejects |
| Dice.SumFacesBounds | src/lib/dice.ts:12-13 | n dice of s sides sum to between n and n * s |
| Dice.RollValueBounds | src/lib/dice.ts:11-15 | "NdS" and "NdS+B" with S >= 1 roll between N + B and N * S + B |
| Dice.ZeroDiceRollBonus | src/lib/dice.ts:12-15 | "0dS+B" rolls exactly B |
| Dice.UnparsedRollsZero | src/lib/dice.ts:9 | a rejected string rolls 0 |
| Dice.ExampleBounds | src/lib/dice.ts:7-15 | "2d6+10" rolls in 12..22 and "1d6" in 1..6 |
| D20Roller.AcceptedManual | src/components/dice/D20Roller.tsx:49-50 | the manual text is accepted exactly when it parses to a value in 1..20 |
| D20Roller.Roller.constructor | src/components/dice/D20Roller.tsx:13-17 | no value shown, not rolling, not settled, empty input, no timer, nothing reported |
| D20Roller.Roller.IsNat20 | src/components/dice/D20Roller.tsx:64 | the critical flag holds exactly when settled on 20 |
| D20Roller.Roller.IsNat1 | src/components/dice/D20Roller.tsx:65 | the fumble flag holds exactly when settled on 1 |
| D20Roller.Roller.HandleAutoRoll | src/components/dice/D20Roller.tsx:25-46 | ignored while disabled or rolling; otherwise rolling, unsettled, with the timer started at tick 0 |
| D20Roller.Roller.Tick | src/components/dice/D20Roller.tsx:34-45 | each firing shows a fresh roll; the 15th stops the timer, shows the final roll, settles and reports it once |
| D20Roller.Roller.EditManual | src/components/dice/D20Roller.tsx:119 | only the manual text changes |
| D20Roller.Roller.HandleManualSubmit | src/components/dice/D20Roller.tsx:48-56 | an accepted value is shown, settled, reported once and the input cleared; anything else changes nothing |
| D20Roller.Roller.Unmount | src/components/dice/D20Roller.tsx:58-62 | the timer is stopped |
| D20Roller.AutoRoll | src/components/dice/D20Roller.tsx:25-46 | a full auto-roll reports exactly one value in 1..20, the one displayed, and ends settled; the critical and fumble flags match it |
| ExpeditionDetail.SortAscending | src/pages/ExpeditionDetailPage.tsx:94 | a permutation of the input in ascending order |
| ExpeditionDetail.TogglePiso | src/pages/ExpeditionDetailPage.tsx:90-96 | floor n is removed when present and added when absent; no other floor's membership changes |
| ExpeditionDetail.TogglePisoAscending | src/pages/ExpeditionDetailPage.tsx:92-94 | a strictly ascending (duplicate-free) selection stays strictly ascending |
| ExpeditionDetail.InsertStrictlyAscending | src/pages/ExpeditionDetailPage.tsx:94 | inserting a new floor into a strictly ascending selection keeps it so |
| ExpeditionDetail.FilterStrictlyAscending | src/pages/ExpeditionDetailPage.tsx:93 | removing floors keeps a strictly ascending selection so |
| ExpeditionDetail.AscendingUnique | src/pages/ExpeditionDetailPage.tsx:92-94 | two strictly ascending selections with the same floors are equal |
| ExpeditionDetail.TogglePisoTwice | src/pages/ExpeditionDetailPage.tsx:92-94 | toggling the same floor twice restores the selection |
| ExpeditionDetail.FirstIsLowest | src/pages/ExpeditionDetailPage.tsx:104 | the first selected floor is the lowest |
| ExpeditionDetail.TierGroup | src/pages/ExpeditionDetailPage.tsx:140-144 | definition of one tier's group; its properties are in `ExpeditionDetail.PisosByTier` |
| ExpeditionDetail.TierGroupsExtend | src/pages/ExpeditionDetailPage.tsx:140-144 | one more floor in the reduce extends only its own tier's group, by that floor at the end |
| ExpeditionDetail.AbsentTierEmpty | src/pages/ExpeditionDetailPage.tsx:140-144 | a tier that no floor has has no floors in its group, so the reduce starts it empty |
| ExpeditionDetail.PisosByTier | src/pages/ExpeditionDetailPage.tsx:140-144 | one group per tier that occurs, each holding exactly that tier's floors in loaded order |
| ExpeditionDetail.CanStart | src/pages/ExpeditionDetailPage.tsx:135-138 | definition of `canStart`; its properties are in `ExpeditionDetail.DetailPage.HandleStartExpedition` |
| ExpeditionDetail.CanAddPlayer | src/pages/ExpeditionDetailPage.tsx:190-191 | definition of when the add button is offered; its properties are in `ExpeditionDetail.DetailPage.OpenAddPlayer` |
| ExpeditionDetail.DetailPage.constructor | src/pages/ExpeditionDetailPage.tsx:21-37 | empty lists, closed form, empty inputs and no floor selected |
| ExpeditionDetail.DetailPage.Load | src/pages/ExpeditionDetailPage.tsx:40-58 | with a route id and a successful load the four lists are installed; otherwise they are kept; the form and selection never change |
| ExpeditionDetail.DetailPage.OpenAddPlayer | src/pages/ExpeditionDetailPage.tsx:190-196 | offered only while pending and below the limit of 5; the form opens |
| ExpeditionDetail.DetailPage.CloseAddPlayer | src/pages/ExpeditionDetailPage.tsx:361 | the form closes |
| ExpeditionDetail.DetailPage.ChooseUser | src/pages/ExpeditionDetailPage.tsx:342-351 | the select offers the placeholder or an available user; only the choice changes |
| ExpeditionDetail.DetailPage.SetCharacterName | src/pages/ExpeditionDetailPage.tsx:355 | only the character name changes |
| ExpeditionDetail.DetailPage.HandleAddParticipant | src/pages/ExpeditionDetailPage.tsx:60-78 | sent exactly with a route id, a user and a non-blank name, with the trimmed name; on success the participation is appended and the form closed and cleared; otherwise nothing changes |
| ExpeditionDetail.DetailPage.HandleRemoveParticipant | src/pages/ExpeditionDetailPage.tsx:80-88 | offered while pending; on success exactly the entries with that id go, on failure nothing changes |
| ExpeditionDetail.DetailPage.HandleTogglePiso | src/pages/ExpeditionDetailPage.tsx:262 | the selection becomes its toggle and stays strictly ascending |
| ExpeditionDetail.DetailPage.HandleStartExpedition | src/pages/ExpeditionDetailPage.tsx:98-114 | sent exactly with a route id and a chosen floor (always when `canStart` holds, lines 135-138): in progress on the first and lowest chosen floor |
| ExpeditionDetail.DetailPage.HandleCancel | src/pages/ExpeditionDetailPage.tsx:116-126 | sent exactly with a route id and a confirmed dialog; on success the expedition becomes cancelled, otherwise it is kept |
| Summary.AllItems | src/pages/SummaryPage.tsx:108-132 | every item of every participant is included |
| Summary.ToggleVenta | src/pages/SummaryPage.tsx:30-40 | an unmarked id is added with price 0, a marked one removed; every other key and price is kept |
| Summary.ToggleVentaTwice | src/pages/SummaryPage.tsx:33-37 | toggling twice restores the marks; a typed price comes back as 0 |
| Summary.OffersSale | src/pages/SummaryPage.tsx:154 | definition of when the sale controls are shown; its properties are in `Summary.SummaryPage.HandleToggleVenta` |
| Summary.PriceOf | src/pages/SummaryPage.tsx:173 | definition of `parseInt(value) || 0`; its properties are in `Summary.PriceOfShowInt` and `Summary.PriceOfNoDigits` |
| Summary.PriceOfShowInt | src/pages/SummaryPage.tsx:173 | whatever integer is typed is stored |
| Summary.PriceOfNoDigits | src/pages/SummaryPage.tsx:173 | text that is not a number stores 0 |
| Summary.LeastExists | src/pages/SummaryPage.tsx:46 | a non-empty finite set of ids has a least element |
| Summary.AscendingKeys | src/pages/SummaryPage.tsx:46 | the keys of the map, each once, in ascending order |
| Summary.EntryOf | src/pages/SummaryPage.tsx:46-49 | the property name parsed back gives the id, with its price |
| Summary.Entries | src/pages/SummaryPage.tsx:46-49 | one entry per listed key, in order, carrying the map's price |
| Summary.VentasArray | src/pages/SummaryPage.tsx:46-49 | exactly one entry per marked item with the map's price, in ascending id order |
| Summary.SamePayloadIncluded | src/pages/SummaryPage.tsx:46-49 | maps sending the same payload agree on every mark of the first |
| Summary.VentasArrayInjective | src/pages/SummaryPage.tsx:46-49 | the payload determines the marks and their prices |
| Summary.SummaryPage.constructor | src/pages/SummaryPage.tsx:16-18 | no summary and no marks |
| Summary.SummaryPage.Load | src/pages/SummaryPage.tsx:21-28 | with a route id a loaded summary is installed; otherwise it is kept |
| Summary.SummaryPage.HandleToggleVenta | src/pages/SummaryPage.tsx:154-160 | offered only for an unsold item of an expedition not completed; the marks become their toggle |
| Summary.SummaryPage.EditPrice | src/pages/SummaryPage.tsx:165-174 | the price of that marked item becomes the parsed text, or 0; no other key or price changes |
| Summary.SummaryPage.HandleLiquidar | src/pages/SummaryPage.tsx:42-67 | the payload is sent exactly with a route id; marks are cleared and the summary replaced only when both the liquidation and the re-fetch succeed; otherwise nothing changes |
| AuthStore.Truthy | src/stores/auth.store.ts:43-45 | definition of the truthiness the `||` defaults test; its properties are in `AuthStore.UserOf` and `AuthStore.EmptyIdFallsBack` |
| AuthStore.UserOf | src/stores/auth.store.ts:42-47 | the id is `discord_id`, else `sub`, else empty; the name defaults to empty and the role to player; the e-mail is copied |
| AuthStore.EmptyIdFallsBack | src/stores/auth.store.ts:43 | an empty `discord_id` falls back to `sub` |
| AuthStore.Session.constructor | src/stores/auth.store.ts:31-34 | logged out |
| AuthStore.Session.SetTokens | src/stores/auth.store.ts:36-58 | after a successful decode both tokens are held with the payload's user and the session is authenticated; after a failed one it is fully logged out, whatever it was |
| AuthStore.Session.Logout | src/stores/auth.store.ts:60-66 | fully logged out from any state, so a second logout changes nothing |
| ExpeditionsPage.Filtered | src/pages/ExpeditionsPage.tsx:57-59 | the "all" chip keeps every expedition; a status keeps exactly those with it; order is kept |
| ExpeditionsPage.Sorted | src/pages/ExpeditionsPage.tsx:61-63 | a permutation of the filtered list, newest first |
| ExpeditionsPage.SortedKeepsOrdered | src/pages/ExpeditionsPage.tsx:61-63 | a list already newest first is shown unchanged |
| ExpeditionsPage.SortedOnlyStatus | src/pages/ExpeditionsPage.tsx:57-63 | a filtered list shows only expeditions of that status |
| ExpeditionsPage.ListPage.constructor | src/pages/ExpeditionsPage.tsx:15-20 | empty list, closed form, the "all" filter, today's date and empty notes |
| ExpeditionsPage.ListPage.Load | src/pages/ExpeditionsPage.tsx:25-32 | a loaded list replaces the old one; a failure keeps it |
| ExpeditionsPage.ListPage.SetFilter | src/pages/ExpeditionsPage.tsx:78-82 | only the filter changes; the stored list is never reordered |
| ExpeditionsPage.ListPage.OpenCreate | src/pages/ExpeditionsPage.tsx:71 | the form opens |
| ExpeditionsPage.ListPage.CloseCreate | src/pages/ExpeditionsPage.tsx:136 | the creation modal closes, from its close control and from the cancel button at line 163 |
| ExpeditionsPage.ListPage.SetDate | src/pages/ExpeditionsPage.tsx:144 | only the date changes |
| ExpeditionsPage.ListPage.SetNotes | src/pages/ExpeditionsPage.tsx:153 | only the notes change |
| ExpeditionsPage.ListPage.HandleCreate | src/pages/ExpeditionsPage.tsx:38-55 | submitted only with a date, as the `required` input guarantees; the date is sent, with notes absent exactly when empty; on success the form closes and the notes clear while the date is kept |
| Dashboard.ActiveExpeditions | src/pages/DashboardPage.tsx:26 | exactly the expeditions in progress, in order |
| Dashboard.Recent | src/pages/DashboardPage.tsx:27-29 | min(5, n) expeditions, latest update first, drawn from the list, none left out updated later than one shown |
| Dashboard.FewAllRecent | src/pages/DashboardPage.tsx:27-29 | with at most five expeditions all are shown |
| Dashboard.Greeting | src/pages/DashboardPage.tsx:36 | the user's name, or "Dungeon Master" when there is no user or the name is empty |
| Dashboard.DashboardPage.constructor | src/pages/DashboardPage.tsx:14 | an empty list |
| Dashboard.DashboardPage.Load | src/pages/DashboardPage.tsx:18-24 | a loaded list replaces the old one; a failure is swallowed |
| Dashboard.DashboardPage.Render | src/pages/DashboardPage.tsx:26-29 | the active list is taken first; the stored list becomes a sorted permutation of itself; the five shown are its prefix and the recent five |
| Dashboard.RenderSettles | src/pages/DashboardPage.tsx:28 | a second render does not reorder the list again |
| ConfigPage.MatchesQuery | src/pages/ConfigPage.tsx:45-46 | definition of the name-or-type match; its properties are in `ConfigPage.FilteredItems`, `ConfigPage.CaseInsensitive` and `ConfigPage.NameMatchFound` |
| ConfigPage.FilteredItems | src/pages/ConfigPage.tsx:42-48 | an empty query keeps every item; otherwise exactly the items whose lower-cased name or type contains the lower-cased query; order is kept |
| ConfigPage.CaseInsensitive | src/pages/ConfigPage.tsx:45-46 | queries differing only in ASCII case select the same items |
| ConfigPage.NameMatchFound | src/pages/ConfigPage.tsx:45 | an item whose name holds the query verbatim is found |
| Sidebar.VisibleTo | src/components/layout/Sidebar.tsx:28 | definition of the role test; its properties are in `Sidebar.VisibleItems` and `Sidebar.ConfigOnlyForStaff` |
| Sidebar.VisibleItems | src/components/layout/Sidebar.tsx:27-29 | exactly the entries that are unrestricted or list the user's role, in declared order |
| Sidebar.UnrestrictedAlwaysVisible | src/components/layout/Sidebar.tsx:28 | entries without roles are always shown |
| Sidebar.ConfigOnlyForStaff | src/components/layout/Sidebar.tsx:16-28 | the configuration entry shows exactly for game masters and administrators |
| Sidebar.UnprivilegedMenu | src/components/layout/Sidebar.tsx:12-29 | without a role, or as a player, exactly Dashboard, Expediciones and Historial show, in that order |
| Sidebar.StaffMenu | src/components/layout/Sidebar.tsx:12-29 | game masters and administrators see every entry |
| Strings.ParseInt | src/pages/GameplayPage.tsx:172 | definition of `parseInt` on decimal text; its properties are in `Strings.ParseShowInt` |
| Strings.ShowInt | src/pages/GameplayPage.tsx:163 | definition of `String(n)` for integers below 1e21 in magnitude, where JavaScript prints plain digits; its properties are in `Strings.ParseShowInt` |
| Seqs.Filter | src/pages/ExpeditionDetailPage.tsx:83 | `Array.prototype.filter`, used by every list filter of the pages: no longer than its input, holds exactly the accepted elements, and keeps them in their order (a subsequence); multiplicities are in `Seqs.FilterMultiset` |
| Seqs.FilterMultiset | src/pages/ExpeditionDetailPage.tsx:83 | `Array.prototype.filter` keeps each accepted element exactly as often as it occurs and drops the others |
| Strings.ValueOfShowNat | src/pages/GameplayPage.tsx:163 | the digits `String(n)` prints for a natural number read back as `n` |
| Strings.ParseShowInt | src/pages/GameplayPage.tsx:163 | `parseInt(String(n))` gives n back (in the program, for \|n\| < 1e21) |
| Strings.Trim | src/pages/GameplayPage.tsx:356 | the slice of the text that drops only white space before and after it and neither starts nor ends with white space; empty exactly when the text is all white space |
| Strings.TrimUnique | src/pages/GameplayPage.tsx:356 | those promises determine the trimmed text: any slice meeting them is the result of `Trim` |
| Strings.ToLower | src/pages/ConfigPage.tsx:45-46 | same length, ASCII capitals lowered, everything else kept |
| Strings.Includes | src/pages/ConfigPage.tsx:45-46 | true exactly when the needle occurs at some position |
| Sorting.SortDesc | src/pages/DashboardPage.tsx:28 | a permutation of the input, ordered by the key descending |

## Left out
- Toasts, the loading and in-flight flags, the player panel's visibility and every `navigate` call: they hold no state the handlers read.
- Service calls: each is an input outcome, and `Promise.all` appears as one outcome.
- The details of `Math.random()` floating point: a draw is an exact rational k / 2^53.
- Dates: time stamps are integers, and the creation date's default is a parameter.
- `parseInt` handles ASCII decimal text only; a hex `0x` prefix is not modelled, and number inputs never produce one.
- `toLowerCase` is ASCII only: case folding of non-ASCII letters is not modelled.
- `Strings.Value` and `Strings.ParseInt` read digit texts as exact unbounded integers, while `Number` and `parseInt` round values above 2^53 to the nearest double (`"9007199254740993"` reads as 9007199254740992).
- Strings.ShowInt: prints every digit of every integer, whereas `String(n)` switches to exponent form ("1e+21") once |n| >= 1e21. So Strings.ParseShowInt, Gameplay.RolledGoldAccepted, Gameplay.GameplayPage.HandleRollGoldDice and Summary.EntryOf hold in the program only below 1e21.
- Gameplay.SumRolls and Dice.RollValue: sums are exact integers, whereas `total += rollDice(dado)` rounds to doubles once a sum exceeds 2^53.
- `jwtDecode` is an input; a `rol` claim outside the three roles is not represented.
- The zustand `persist` storage is not modelled.
- `window.confirm` is a boolean input.
- `handleCompleteExpedition` in the gameplay page and `handleComplete` in the summary page are left out: each is one service call followed by navigation, with no state change.
- D20Roller.Tick: the 60 ms timing of the interval is not modelled, only the order of firings.
- Gameplay.GameplayPage.HandleAutoRollAll: takes one draw per row. Rows already filled ignore theirs, whereas the source draws only for empty rows.
- ExpeditionDetail.DetailPage.HandleStartExpedition: does not require participants. The source's handler does not check them; only the button's disabled state (`canStart`) does.
- Summary.AscendingKeys: the ascending key order is `Object.entries`' order only for array-index keys, so it is exact for ids with 0 <= id < 2^32 - 1; other keys come after them in insertion order, which the model does not track.
- Sorting.SortDesc: stability of the sort (JavaScript's sort is stable) is not stated.
- The summary page's rendering of items and sale states is not modelled.
- The history pages, login and registration pages, `RequireRole`, the service adapters and all rendering are not part of this model.
