# Gamebook companion — a Dafny model of its core

Gamebook companion is a web app for tracking a Fighting Fantasy adventure.
It keeps a character sheet, combat enemies, dice rolls and an inventory.
Characters live in one versioned JSON envelope in the browser's local
storage. Every edit is saved at once, and the last described edit can be
undone for five seconds.

This project models the core of that app as pure Dafny functions over
immutable datatypes:

- **Rules** (`rules.dfy`) covers the Fighting Fantasy limits, the creation
  rolls, the critical-stamina and death predicates, eating a meal and
  testing one's luck.
- **DiceEngine** (`dice_engine.dfy`) covers `rollD6`, `rollNd6`, `roll1d6`
  and `roll2d6`. Each `Math.random()` draw is an exact rational in [0, 1).
- **LocalStorage** (`local_storage.dfy`) covers the envelope (read, write,
  create, migrate) and every repository operation, including export and
  import through an abstract JSON codec.
- **UseCharacter** (`use_character.dfy`) covers the character hook's
  single-slot undo as a state machine. Its events are update, undo,
  dismiss, expiry of the 5000 ms timer, and a change of character id.
- **Counter** (`counter.dfy`) covers the ±1 widget's guards, its
  descriptions, and its critical and dead flags.
- **EditCharacterDialog** (`edit_dialog.dfy`) covers the clamping inputs
  and the minimal patch `handleSave` builds.
- **CharacterSheet** (`character_sheet.dfy`) covers the six stat counters
  and their bounds, the inventory, the notes, the bookmark, and the
  dialog's save.
- **CombatTracker** (`combat.dfy`) covers adding, updating, removing and
  resetting enemies, and each enemy card's two counters.
- **UseDice** (`use_dice.dfy`) covers the newest-first history, capped at
  ten, and the end of each roll.
- **SheetSession** (`sheet_session.dfy`) feeds every page action through
  one hook session. It proves that the stat invariant (`Rules.WithinLimits`) of the
  store, the loaded character and the undo snapshot survives any sequence
  of actions.

`Keyed` (`keyed.dfy`) defines `find`, `findIndex` and `filter` by id once.
Characters, inventory items and combat enemies all use it.

`Common` and `GameTypes` hold the shared pieces:

- `Option`;
- JavaScript truthiness, including `x || d` on a parsed number;
- `String.prototype.trim`, with the exact ECMAScript white-space set;
- number-to-text conversion;
- the `Character` record;
- `Partial<Character>` as a patch of options, with object spread as `Merge`.

The clock (`new Date().toISOString()`), the id generator (`nanoid()`), the
random draws and `parseInt` results are parameters. A JSON text is the
`Text` datatype: a parsed document or unparsable text. The storage key's
contents are `Medium`, which is empty, corrupt or an envelope.

## Model

| member | source | states |
|---|---|---|
| Rules.Clamp | src/lib/game-systems/fighting-fantasy/rules.ts:54-56 | a value inside the range is returned unchanged, one below gives the lower bound, one above gives the upper bound; the result lies in any well-formed range; an inverted range yields its upper bound |
| Rules.ClampExamples | src/lib/game-systems/fighting-fantasy/__tests__/rules.test.ts:110-126 | the test vectors: 5 in [0,10], −3 → 0, 15 → 10, [3,3] → 3 |
| Rules.RollCreationStat | src/lib/game-systems/fighting-fantasy/rules.ts:31-37 | the result is the sum of the faces of the first `diceCount` draws plus the bonus, so it lies in [n + bonus, 6n + bonus] |
| Rules.FacesStep | src/lib/game-systems/fighting-fantasy/rules.ts:33-35 | one more loop iteration adds the next die's face to the running total |
| Rules.RollCharacterStats | src/lib/game-systems/fighting-fantasy/__tests__/rules.test.ts:53-68 | 1d6+6 lies in [7,12] and 2d6+12 in [14,24], each being the sum of its own draws' faces plus its bonus |
| Rules.QuarterRatio | src/lib/game-systems/fighting-fantasy/rules.ts:42-45 | the ratio current/initial is below 0.25 exactly when 4·current < initial for a positive initial value, and when 4·current > initial for a negative one |
| Rules.IsStaminaCritical | src/lib/game-systems/fighting-fantasy/rules.ts:40-46 | never critical when the initial stamina is 0; for a positive initial stamina, critical iff 4·current < initial |
| Rules.DeadIsCritical | src/lib/game-systems/fighting-fantasy/rules.ts:40-51 | with a positive initial stamina a dead character is critical, and a critical one is below its initial stamina |
| Rules.PredicateExamples | src/lib/game-systems/fighting-fantasy/__tests__/rules.test.ts:71-108 | 4/20 is critical, 5/20 is not, 0/20 is critical and dead, −1 is dead, 1 is alive |
| Rules.EatMeal | src/lib/game-systems/fighting-fantasy/rules.ts:62-74 | no patch iff meals ≤ 0; otherwise the patch sets only meals, to one fewer, and stamina, to min(current + 4, initial) for every character: never above the initial stamina, equal to that cap or to the full four more; a character at or below its initial stamina never loses any |
| Rules.EatMealKeepsLimits | src/lib/game-systems/fighting-fantasy/rules.ts:67-73 | applying a meal to a character within its limits keeps it within them, with one meal fewer |
| Rules.EatMealExamples | src/lib/game-systems/fighting-fantasy/__tests__/rules.test.ts:128-165 | no meals gives null; 10/20 with 3 meals gives 14 and 2 meals; 18/20 caps at 20 |
| Rules.TestLuck | src/lib/game-systems/fighting-fantasy/rules.ts:81-91 | lucky iff the roll is at most the current luck (ties win); the new luck is one less, but never below zero |
| Rules.TestLuckKeepsLimits | src/lib/game-systems/fighting-fantasy/rules.ts:88-90 | spending luck keeps a character within its limits and never raises the luck |
| Rules.TestLuckExamples | src/lib/game-systems/fighting-fantasy/__tests__/rules.test.ts:168-195 | the test vectors for luck 8 with rolls 7, 8, 9, and for luck 0 |
| Rules.IsDead | src/lib/game-systems/fighting-fantasy/rules.ts:49-51 | dead iff the current stamina is at most 0 (a predicate with no contract of its own; `Rules.DeadIsCritical` and `CharacterSheet.StaminaCounterMatchesRules` relate it to the other flags) |
| Rules.FacesSumBounds | src/lib/game-systems/fighting-fantasy/rules.ts:31-37 | the faces of n valid draws sum to a value in [n, 6n] |
| DiceEngine.RollD6 | src/lib/dice/engine.ts:10-12 | the face of a draw u is the integer in [1,6] with (face−1)/6 ≤ u < face/6 |
| DiceEngine.RollD6Examples | src/lib/dice/__tests__/engine.test.ts:14-31 | draw 0 gives 1, 0.5 gives 4, 0.999 gives 6, and 0.4 and 0.7 give 3 and 5 |
| DiceEngine.EveryFaceReachable | src/lib/dice/engine.ts:11 | every face 1..6 is produced by some draw |
| DiceEngine.Faces | src/lib/dice/engine.ts:16 | one face per draw, in draw order |
| DiceEngine.SumOfFacesBounds | src/lib/dice/engine.ts:10-17 | n faces sum to a value in [n, 6n] |
| DiceEngine.RollNd6 | src/lib/dice/engine.ts:15-17 | exactly max(count, 0) values, each the face of the draw at its position, so count 0 gives none |
| DiceEngine.Roll1d6 | src/lib/dice/engine.ts:20-30 | a "1d6" record with one value, its total equal to it and in [1,6], the label passed through unchanged (absent when absent) |
| DiceEngine.Roll2d6 | src/lib/dice/engine.ts:33-43 | a "2d6" record with two values, the total their sum in [2,12], the label passed through |
| DiceEngine.Roll2d6Example | src/lib/dice/__tests__/engine.test.ts:99-112 | draws 0.4 and 0.7 give faces 3 and 5 and total 8 |
| LocalStorage.CreateEmptyEnvelope | src/lib/storage/local-storage.ts:40-47 | the current version, no characters, no last id, stamped now |
| LocalStorage.Migrate | src/lib/storage/local-storage.ts:49-56 | the version becomes the current one and every other field is kept |
| LocalStorage.MigrateIdempotent | src/lib/storage/local-storage.ts:49-56 | migrating twice equals migrating once |
| LocalStorage.GetEnvelope | src/lib/storage/local-storage.ts:10-31 | an empty or corrupt medium reads as the empty envelope; a stored one reads with its version raised to at least the current one and everything else as stored |
| LocalStorage.SaveEnvelope | src/lib/storage/local-storage.ts:33-38 | the medium afterwards holds the envelope, stamped now |
| LocalStorage.ReadAfterWrite | src/lib/storage/local-storage.ts:10-38 | reading back a written envelope yields it with its new stamp |
| Keyed.IndexBy | src/lib/storage/local-storage.ts:71 | the first position holding the id, or −1 when no position does |
| Keyed.FindBy | src/lib/storage/local-storage.ts:66 | a found element is in the list and has the id; none is found iff no element has it (also `find` at src/components/combat/combat-tracker.tsx:66 and src/components/character/character-sheet.tsx:76) |
| Keyed.FindByIsFirst | src/lib/storage/local-storage.ts:64-67 | `find` returns the element at the position `findIndex` reports, so it is the first with the id |
| Keyed.IndexByFirstMatch | src/lib/storage/local-storage.ts:71 | a position holding the id with none before it is what `findIndex` returns |
| Keyed.FindByAfterAbsentPrefix | src/components/combat/combat-tracker.tsx:66 | searching past a prefix without the id looks only at the rest |
| Keyed.RemoveBy | src/lib/storage/local-storage.ts:86 | an element remains iff it was there and lacks the id; a list without the id is unchanged (also the filters at src/components/combat/combat-tracker.tsx:69 and src/components/character/character-sheet.tsx:79) |
| Keyed.RemoveByKeepsOrder | src/lib/storage/local-storage.ts:86 | the filter distributes over concatenation, so the remaining elements keep their relative order |
| Keyed.RemoveByKeepsUnique | src/lib/storage/local-storage.ts:86 | filtering a list with unique ids keeps them unique |
| LocalStorage.Upsert | src/lib/storage/local-storage.ts:71-79 | an existing id is replaced in place with the length and every other position unchanged; a new id is appended |
| LocalStorage.UpsertProperties | src/lib/storage/local-storage.ts:71-79 | unique ids stay unique, and finding the id afterwards yields the saved character |
| LocalStorage.GetCharacters | src/lib/storage/local-storage.ts:59-62 | the stored list in stored order, empty for an empty or corrupt medium |
| LocalStorage.GetCharacter | src/lib/storage/local-storage.ts:64-67 | a found character is stored and has the id; null iff no stored character has it |
| LocalStorage.SaveCharacter | src/lib/storage/local-storage.ts:69-82 | the list becomes the upsert of the character stamped now; version and last id are kept |
| LocalStorage.SaveThenGet | src/lib/storage/local-storage.ts:69-82 | after saving, the id reads back as the saved character with its new stamp, and ids stay unique |
| LocalStorage.SaveCharacterShape | src/lib/storage/__tests__/local-storage.test.ts:108-139 | creating appends at the end; updating replaces in place, keeping the length and every other position |
| LocalStorage.RepairLastId | src/lib/storage/local-storage.ts:88-91 | a last-character id naming the deleted id becomes the first remaining id, or null when none remain; any other last id is kept |
| LocalStorage.DeleteCharacter | src/lib/storage/local-storage.ts:84-94 | every character with the id is dropped and the last-character id is repaired; the version is kept |
| LocalStorage.DeleteProperties | src/lib/storage/__tests__/local-storage.test.ts:142-183 | afterwards the id is gone, the last-character id never names it, ids stay unique, and an unknown id leaves the list unchanged |
| LocalStorage.GetLastCharacterId | src/lib/storage/local-storage.ts:96-99 | the stored last-character id, null for an empty or corrupt medium |
| LocalStorage.SetLastCharacterId | src/lib/storage/local-storage.ts:101-105 | any id is stored, whether or not a character has it; the list is unchanged |
| LocalStorage.SetThenGetLastId | src/lib/storage/__tests__/local-storage.test.ts:192-197 | after setting the last-character id it reads back as the id set, and the characters read as before |
| LocalStorage.ParseSerialize | src/lib/storage/local-storage.ts:109-117 | parsing a serialized envelope gives a valid document that stands for that envelope |
| LocalStorage.ExportData | src/lib/storage/local-storage.ts:107-110 | the exported text parses as a valid document of the envelope as read |
| LocalStorage.ImportData | src/lib/storage/local-storage.ts:112-131 | text that does not parse fails with a syntax error, and a document without a truthy version or an array of characters fails as invalid, both leaving the medium as it was; a valid one replaces the whole envelope, migrated if older, stamped now |
| LocalStorage.ExportImportRoundTrip | src/lib/storage/__tests__/local-storage.test.ts:240-257 | importing an export succeeds and reproduces the characters, in order, and the last id, whatever the target held |
| LocalStorage.RejectedImportKeepsData | src/lib/storage/local-storage.ts:113-119 | after a failed import every read is as before |
| LocalStorage.ImportRejectsIncompleteDocuments | src/lib/storage/__tests__/local-storage.test.ts:226-238 | non-JSON text, a document without a version, a version 0 and one without characters are all rejected |
| LocalStorage.IsValidPayload | src/lib/storage/local-storage.ts:117 | a document passes iff its version is truthy (present and non-zero) and its characters are an array (a predicate; `LocalStorage.ImportData` and `LocalStorage.ImportRejectsIncompleteDocuments` use it) |
| LocalStorage.Serialize | src/lib/storage/local-storage.ts:109 | `JSON.stringify(envelope)` as a document carrying the envelope's fields (no contract of its own; `LocalStorage.ParseSerialize` is its round trip) |
| LocalStorage.Parse | src/lib/storage/local-storage.ts:114 | `JSON.parse` fails iff the text is not JSON, and otherwise yields the document |
| UseCharacter.UpdateCharacter | src/hooks/use-character.ts:63-95 | nothing without a loaded character; otherwise the merged character is loaded and persisted with its stamp, a truthy description arms the slot with the pre-update snapshot, and no description or an empty one leaves the slot as it was; in storage only that character's entry changes (replaced in place, or appended), and the last id and the version stay as they were |
| UseCharacter.Undo | src/hooks/use-character.ts:98-122 | nothing without an entry or a character; an entry for another character is discarded and nothing else changes; a matching one is restored, persisted and cleared, and in storage only its entry changes while the last id and the version stay as they were |
| UseCharacter.ClearSlot | src/hooks/use-character.ts:125-130 | dismissal and expiry empty the slot and change nothing else |
| UseCharacter.SwitchTo | src/hooks/use-character.ts:30-56 | a new id empties the slot and loads the stored character, or none for an absent or empty id; a call with the current id stands for a page remounting its hook |
| UseCharacter.StepKeepsSlotConsistent | src/hooks/use-character.ts:77-82 | an armed entry always names the id of the snapshot it holds, whatever event comes |
| UseCharacter.UndoRestoresPreUpdateState | src/hooks/use-character.ts:108-118 | undoing a described update restores the pre-update character in memory and in storage, and empties the slot |
| UseCharacter.UndoTwiceIsUndoOnce | src/hooks/use-character.ts:99-114 | a second undo is a no-op |
| UseCharacter.SlotHoldsOnlyLatest | src/hooks/use-character.ts:71-83 | after two described updates only the state before the second can be restored |
| UseCharacter.UndescribedUpdateKeepsEntry | src/hooks/use-character.ts:71 | an update with no description, or an empty one, neither arms nor clears the slot |
| UseCharacter.UndoAfterSwitchIsNoop | src/hooks/use-character.ts:30-35 | after switching characters an undo changes nothing |
| UseCharacter.StaleUndoIsDiscarded | src/hooks/use-character.ts:102-106 | an entry for another character is dropped and neither the character nor the storage change |
| UseCharacter.Step | src/hooks/use-character.ts:30-130 | only an update and an undo write to storage; dismissal, expiry and a switch leave the slot empty and the storage as it was; dismissal and expiry keep the loaded character; without a loaded character an update or an undo changes nothing |
| Counter.StepDescription | src/components/ui/counter.tsx:43 | the description `label : from → to` is never empty |
| Counter.Decrement | src/components/ui/counter.tsx:41-45 | emits iff value > min, then value − 1 (still at least min) with its description |
| Counter.Increment | src/components/ui/counter.tsx:47-51 | emits iff value < max, then value + 1 (still at most max) with its description |
| Counter.PressStaysInRange | src/components/ui/counter.tsx:27-51 | from a value in [min, max] every emitted value stays in it, one step away, with a non-empty description; at a bound the button towards it emits nothing |
| Counter.IsCritical | src/components/ui/counter.tsx:33-37 | critical only with a threshold and a positive initial value, and then iff value < threshold · initial |
| Counter.Press | src/components/ui/counter.tsx:41-51 | minus emits iff value > min, plus iff value < max; the emitted value is one step that way, described as `label : from → to` |
| Counter.IsDead | src/components/ui/counter.tsx:39 | dead iff the value is at most 0 on a counter whose minimum is 0 (a predicate; `CombatTracker.DefeatedIsCounterDead` and `CharacterSheet.StaminaCounterMatchesRules` relate it to the page flags) |
| EditCharacterDialog.OpenForm | src/components/character/edit-character-dialog.tsx:39-47 | opening shows the character's name, title and initial stats |
| EditCharacterDialog.ClampStat | src/components/character/edit-character-dialog.tsx:89-90 | in-range values are kept, values below go to the lower bound and values above go to the upper bound; the result is never below the lower bound |
| EditCharacterDialog.ClampStatVersusClamp | src/components/character/edit-character-dialog.tsx:89-90 | the dialog's clamp equals the ruleset's on every well-formed range; on an inverted range one yields the lower bound and the other the upper |
| EditCharacterDialog.SkillInput | src/components/character/edit-character-dialog.tsx:155-163 | the typed skill is kept inside [1,12], the bounds are used outside it, and text that is not a number gives 1 |
| EditCharacterDialog.StaminaInput | src/components/character/edit-character-dialog.tsx:182-190 | the typed stamina is kept inside [1,24], the bounds are used outside it, and text that is not a number gives 1 |
| EditCharacterDialog.LuckInput | src/components/character/edit-character-dialog.tsx:209-217 | the typed luck is kept inside [1,12], the bounds are used outside it, and text that is not a number gives 1 |
| EditCharacterDialog.InputsKeepFormInRange | src/components/character/edit-character-dialog.tsx:155-219 | typing into any input keeps the form's stats within their input ranges |
| EditCharacterDialog.FillForm | src/components/character/edit-character-dialog.tsx:32-47 | an untouched stat keeps the character's value and a typed one takes its input's clamped value |
| EditCharacterDialog.HandleSave | src/components/character/edit-character-dialog.tsx:49-87 | nothing is saved iff no field changed; name and title appear iff changed; an initial stat appears iff changed; its current value appears iff that initial changed and the old current exceeds the new initial |
| EditCharacterDialog.ApplyForm | src/components/character/edit-character-dialog.tsx:57-79 | the intended result keeps the id, the stamp and the inventory |
| EditCharacterDialog.SaveAppliesForm | src/components/character/edit-character-dialog.tsx:57-79 | on a character within its limits, saving any form equals taking its values with each current stat lowered to min(old current, new initial), everything else kept |
| EditCharacterDialog.SaveClampsOnlyOnChange | src/components/character/edit-character-dialog.tsx:57-63 | an unchanged initial leaves its current value alone, even out of range |
| EditCharacterDialog.UnchangedFormSavesNothing | src/components/character/edit-character-dialog.tsx:82-84 | saving the form as opened calls no save |
| EditCharacterDialog.RaisingKeepsCurrent | src/components/character/edit-character-dialog.tsx:66-71 | raising the initial stamina never touches the current stamina |
| EditCharacterDialog.SaveKeepsLimits | src/components/character/edit-character-dialog.tsx:49-87 | saving non-negative initials keeps a character within its limits |
| EditCharacterDialog.FilledFormKeepsLimits | src/components/character/edit-character-dialog.tsx:155-219 | any form the dialog can be left with keeps a character within its limits on save |
| CharacterSheet.CounterFor | src/components/character/character-sheet.tsx:195-263 | skill counts in [1, initial skill], stamina and luck in [0, initial], fear in [0, max fear], meals and gold in [0, 99] |
| CharacterSheet.SetStatChangesOnlyThatStat | src/components/character/character-sheet.tsx:53-58 | a one-field patch sets its stat and leaves every other stat and field as it was |
| CharacterSheet.HandleStatPress | src/components/character/character-sheet.tsx:195-263 | an edit is emitted iff the counter is rendered and its guard lets the press through; it is the one-stat patch with the counter's description |
| CharacterSheet.StatPressKeepsLimits | src/components/character/character-sheet.tsx:195-263 | on a character within its limits a press keeps it within them, moves only the pressed stat by one, and is described |
| CharacterSheet.CounterRefusesAtBounds | src/components/character/character-sheet.tsx:195-263 | at a counter's bound the button pointing past it emits nothing |
| CharacterSheet.StaminaCounterMatchesRules | src/components/character/character-sheet.tsx:205-214 | the stamina counter's critical flag equals `isStaminaCritical` for any non-negative initial stamina, and its dead flag equals `isDead` |
| CharacterSheet.HandleAddItem | src/components/character/character-sheet.tsx:60-72 | no edit iff the name is blank; otherwise the trimmed name is appended as a new item described "Ajout : name" |
| CharacterSheet.AddItemAppends | src/components/character/character-sheet.tsx:64-70 | existing items keep their order and the new item, at the end, has a non-empty name that starts with no white space |
| CharacterSheet.HandleRemoveItem | src/components/character/character-sheet.tsx:74-85 | every item with the id is dropped; the description names the first such item, or "objet" |
| CharacterSheet.RemoveItemThenFind | src/components/character/character-sheet.tsx:74-85 | after removal no item has the id and every other item remains |
| CharacterSheet.HandleNotesChange | src/components/character/character-sheet.tsx:87-92 | the notes patch has no description |
| CharacterSheet.HandlePageChange | src/components/character/character-sheet.tsx:94-149 | the page patch has no description, and text that is not a number gives page 0 |
| CharacterSheet.OnEditSave | src/components/character/character-sheet.tsx:349-354 | an edit is emitted iff the dialog saves a patch; it carries that patch, described "Personnage modifié" |
| CharacterSheet.SetStat | src/components/character/character-sheet.tsx:55 | `{ [field]: value }` for the stat's field (no contract of its own; `CharacterSheet.SetStatChangesOnlyThatStat` states that it sets that stat and nothing else) |
| CombatTracker.EnemiesEdit | src/components/combat/combat-tracker.tsx:39-44 | the edit replaces only the enemy list and carries its description |
| CombatTracker.UpdateEnemies | src/components/combat/combat-tracker.tsx:53-55 | the length is kept; enemies with the id are patched and all others are kept in place |
| CombatTracker.UpdateKeepsIds | src/components/combat/combat-tracker.tsx:53-55 | a patch that leaves ids alone keeps each position's id, so unique ids stay unique |
| CombatTracker.UpdateUnknownIdIsIdentity | src/components/combat/combat-tracker.tsx:53-55 | an update for an absent id changes nothing |
| CombatTracker.NewEnemy | src/components/combat/combat-tracker.tsx:26-37 | the trimmed name, or "Adversaire" when blank; each stat is the parsed number, or 7 for 0 or text that is not a number; the initial stats equal the current ones |
| CombatTracker.HandleAddEnemy | src/components/combat/combat-tracker.tsx:25-49 | the new enemy is appended, described "Combat : ajout de name" |
| CombatTracker.AddThenFind | src/components/combat/combat-tracker.tsx:39-44 | with a fresh id the new enemy is found under it, every earlier enemy keeps its place, and ids stay unique |
| CombatTracker.HandleUpdateEnemy | src/components/combat/combat-tracker.tsx:51-62 | only the enemy list changes: enemies with the id are merged with the patch and the rest stay in place; the caller's description is passed on |
| CombatTracker.HandleRemoveEnemy | src/components/combat/combat-tracker.tsx:64-75 | every enemy with the id is dropped; the description names the first such enemy, or "adversaire" |
| CombatTracker.RemoveThenFind | src/components/combat/combat-tracker.tsx:64-75 | after removal the id is gone and every other enemy remains |
| CombatTracker.HandleResetCombat | src/components/combat/combat-tracker.tsx:77-82 | the list becomes empty, described "Combat réinitialisé" |
| CombatTracker.CombatEditsAreDescribed | src/components/combat/combat-tracker.tsx:43-80 | adding, removing and resetting each carry a truthy description, so each arms the combat page's own undo slot, which that page offers no way to undo from |
| CombatTracker.DefeatedIsCounterDead | src/components/combat/combat-tracker.tsx:199 | an enemy is defeated iff its stamina is at most 0, which is its stamina counter's dead flag |
| CombatTracker.EnemyPress | src/components/combat/combat-tracker.tsx:225-246 | skill counts in [0,12] and stamina in [0, initial stamina]; a press emits iff the counter does, as a one-field patch described with the enemy's name in front |
| CombatTracker.CardPress | src/components/combat/combat-tracker.tsx:119-127 | a card's press reaches `handleUpdateEnemy` iff its counter emits, always described |
| CombatTracker.CardPressKeepsRange | src/components/combat/combat-tracker.tsx:225-246 | with unique ids and every enemy in range, a press keeps every enemy in range, changes only the pressed enemy, and moves its stat by exactly one |
| CombatTracker.MergeEnemy | src/components/combat/combat-tracker.tsx:54 | `{ ...e, ...updates }` on an enemy (no contract of its own; `CombatTracker.UpdateEnemies` and `CombatTracker.UpdateKeepsIds` state what it does to the list) |
| CombatTracker.IsDefeated | src/components/combat/combat-tracker.tsx:199 | an enemy card is dimmed iff its stamina is at most 0 (a predicate; `CombatTracker.DefeatedIsCounterDead` ties it to the counter) |
| UseDice.AddToHistory | src/hooks/use-dice.ts:18-20 | the new roll is at index 0, older rolls shift by one, and the length is min(old + 1, 10) |
| UseDice.ClearHistory | src/hooks/use-dice.ts:73-75 | the history becomes empty and the current roll is kept |
| UseDice.Reverse | src/hooks/use-dice.ts:19 | a newest-first view of a roll sequence |
| UseDice.HistoryIsNewestTen | src/hooks/use-dice.ts:7-20 | after any sequence of rolls the history is exactly the ten most recent (all when fewer), newest first |
| UseDice.RollOneDice | src/hooks/use-dice.ts:23-46 | a 1d6 record with the label becomes the current roll and the head of the history; rolling ends |
| UseDice.RollTwoDice | src/hooks/use-dice.ts:49-70 | a 2d6 record with the label becomes the current roll and the head of the history; rolling ends |
| UseDice.ClearThenAdd | src/hooks/use-dice.ts:73-75 | after clearing, the next roll is the whole history |
| SheetSession.EditFor | src/components/character/character-sheet.tsx:53-99 | notes and page edits carry no description; item removal and every combat edit carry a truthy one; undo, dismissal, expiry and switching produce no edit |
| SheetSession.EditKeepsLimits | src/components/character/character-sheet.tsx:195-263 | every edit a page produces for a character within its limits leaves it within them |
| SheetSession.SaveKeepsStoreWithinLimits | src/lib/storage/local-storage.ts:69-82 | saving a character within its limits keeps every stored character within them |
| SheetSession.ApplyKeepsInvariant | src/hooks/use-character.ts:63-130 | no single page action, undo, dismissal, expiry or switch breaks the invariant over the store, the loaded character and the undo snapshot |
| SheetSession.RunKeepsInvariant | src/hooks/use-character.ts:63-130 | no sequence of such actions breaks the invariant |
| SheetSession.UndoArming | src/hooks/use-character.ts:71-88 | notes and page edits keep an armed entry; combat edits re-arm the slot with the state before them (in the app, the combat page's slot, which only expires) |
| Common.OrIfFalsy | src/components/combat/combat-tracker.tsx:27-28 | `parseInt(text) \|\| d` keeps a non-zero number and gives d for 0 or for text that is not a number |
| Common.Trim | src/components/combat/combat-tracker.tsx:26 | the result is the text between the leading and trailing white space; it neither starts nor ends with white space, and it is empty iff the text is all white space |
| GameTypes.MergeNoChange | src/hooks/use-character.ts:90 | spreading an empty patch changes nothing |
| GameTypes.MergeSnapshot | src/hooks/use-character.ts:90 | spreading a full snapshot yields that snapshot |
| GameTypes.MergeIdempotent | src/hooks/use-character.ts:90 | spreading the same patch twice equals spreading it once |
| GameTypes.Merge | src/hooks/use-character.ts:90 | `{ ...character, ...updates }`: each field present in the patch overrides, every other field is kept (no contract of its own; `GameTypes.MergeNoChange`, `GameTypes.MergeSnapshot` and `GameTypes.MergeIdempotent` state its laws) |

## Left out

- The server-side branch of `getEnvelope` and `saveEnvelope`, taken when
  there is no `window`, is not modelled. The model always runs in a
  browser.
- JSON on the storage key is not modelled as text. A key that parses but
  is not an envelope (an array, or missing fields) is not modelled; such a
  value would reach the repository methods as is.
- DiceEngine.RollD6: a `Math.random()` draw is an exact rational in
  [0, 1), so a double's rounding of `r * 6` is not modelled.
- Rules.IsStaminaCritical: the quotient `current / initial` is an exact
  real, not a double. For integer stats of realistic size the double
  comparison against 0.25 gives the same answer.
- Counter.IsCritical: `value / initialValue` is an exact real as well,
  for the same reason.
- `nanoid()`, `new Date().toISOString()` and `parseInt` are parameters.
  The model does not parse number text; a parameter of `None` stands for
  `NaN`.
- React state, effects, `useCallback` dependencies and asynchronous
  loading are not modelled; this includes `isLoading` and stale closures.
  Timers are events: the 5000 ms expiry is `Expire`. The unmount clean-up
  effect has no state to model.
- The `JSON.parse` failure branch of `undo` is not modelled. The snapshot
  is held as a `Character`, so restoring it cannot fail.
- The dice animation is collapsed to its last step. The roll frames of
  `setInterval`, `isRolling` during the animation, and the haptic
  vibration are not modelled.
- Counter colours and animation, the sheet's mini summary and every
  rendered string other than the undo descriptions are not modelled.
- Validation on import is limited to what `importData` checks. A valid
  import may bring characters outside their limits, or a lower version.
  `SheetSession` therefore starts from a store within limits and has no
  import action.
- LocalStorage.ImportData: an imported `version` is an integer or
  absent. The source accepts any truthy version: a non-integer number, a
  boolean, a string or an object. It migrates the ones below 1 and stores
  the others unchanged. The model cannot represent these versions, so it
  does not say what happens to them. An imported document that is `null`
  is not representable either; the source throws on reading its `version`
  and reports an import error.
- LocalStorage.SaveEnvelope: every write succeeds. In the browser
  `localStorage.setItem` can throw, with a QuotaExceededError or, when
  storage is disabled, a SecurityError. The key then keeps its old
  contents and `saveCharacter` rejects.
- UseCharacter.UpdateCharacter: a failed write is not modelled. When it
  happens the source has already set the merged character in memory and
  armed the undo slot, but storage still holds the old character. The
  model promises that the saved character is persisted.
- UseCharacter.Undo: a failed write is not modelled. When it happens the
  source does not restore the character and leaves the slot armed. The
  model promises that the snapshot is restored and persisted.
- SheetSession: the app mounts a separate `useCharacter` on each page, and
  only the sheet page exposes `undo` and `dismissUndo`; the combat page
  drops them. An undo of a combat edit therefore cannot happen in the app:
  the combat page's entry is dropped by the timer or on unmount. Moving
  between pages remounts the hook with an empty slot, which the model
  expresses as `Open` with the last-character id. The single session
  allows more behaviour than the app, so the invariant it proves covers
  the app's pages.
- `UseCharacter.UndoEntry.previousState` is held as a `Character`, not as
  JSON text. The model assumes the codec's round trip is the identity.
- `DiceEngine.RollNd6` takes only integer counts. The truncation of a
  fractional `length` by `Array.from` is not modelled.
- `CombatTracker.CardPressKeepsRange` requires unique enemy ids, which
  `nanoid()` provides. With duplicate ids, one stamina press would patch
  every duplicate using the pressed enemy's bound.
- The data manager, creation wizard, character list hook, storage context
  hook, dice page, character card and layout files are not part of this
  model. They are page wiring or browser I/O over the operations above.
