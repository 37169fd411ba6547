# HellTaker clone — grid-movement core in Dafny

This project models the game logic of a Unity clone of the puzzle game
HellTaker and proves properties of it. The player walks on an integer grid,
kicks blocks and monsters, collects a key, steps on spikes and tries to reach
a goal character within a move budget.

The project has one Dafny module per source component:

- `Common` holds `Option`, integer cells (`Vec2Int`) and `Abs`. `GameEnums`
  holds `GameState` and `UIType`. World positions (`Vec2`) live in `Grid`,
  and `DialogueType` lives in `DialogueTable`.
- `GridModel` is the occupancy index of `GridManager` as a value. It is a map
  from cell to the list of object identities listed there, plus the scene:
  each object's tag, the cell of its transform, and whether it is still alive.
  A destroyed Unity object compares equal to `null`; here that is `live == false`.
  The module defines the index's invariant and the functions that register,
  unregister, move, clear and query.
- `Grid` is the `GridManager` class. Its methods are the source's loops, and
  each is proved against a `GridModel` function. It also holds
  `WorldToGrid`/`GridToWorld`, with `Mathf.RoundToInt` written out (halves go
  to the even neighbour).
- `Turns` is `GameManager`. It covers the move count, the budget, the cleared,
  game-over and key flags, the win check, and the turn and stage texts.
- `Input` is `InputManager`. Each frame's axes and keys are a `Frame` record.
  The calls the manager makes into the player and the dialogue come back as
  an ordered list of `Call`s. The manager's own `SetState` calls change its
  state directly. So do the `SetState` calls a dispatched move makes back on
  the manager: they are given with the frame and applied at the move, before
  the R and L keys are read.
- `Text` models the .NET string routines the readers rely on: `Trim`,
  `Split`, `Join`, `string.IsNullOrWhiteSpace`, `int.TryParse`, the decimal
  part of `float.TryParse` and `int.ToString`.
- `DialogueTable` covers the dialogue table reader of `DialogueManager`: the
  quote-aware `ParseCSVLine`, `CleanString`, the `DialogueType` parse and the
  node loader with its correct-choice rule. `Dialogue` is the
  `DialogueManager` class: lines, list choices, number choices, and the end
  of a dialogue.
- `Levels` is `LevelManager`. It covers the map file reader (the header, the
  map's size, the cell buffer), the tile-code dispatch of `GenerateMap`, the
  spawn-coordinate formula, the goal prefab table and `GetTileAt`.
- `PlayerMoves` is the current move resolver, `Utils/Objects/Player.cs`. It
  covers the kick-in-place push rule, key pickup, thorn toggling, move
  charging and the one-slot input buffer.
- `LegacyPlayer` is the earlier root `Player.cs` (push-and-follow). It has
  contrast lemmas against `PlayerMoves`.
- `Prototype` is the first prototype: `PlayerMovement`, `Push` and `Monster`.
  They scan lists of obstacles, pushables and monsters by world position.
- `Thorns` covers the toggle spikes (`ThornToggle`) and the animated variant
  (`ThornToggleAnimator`), whose frame strip plays as a sequence.
- `GoalLatch` is the proximity latch of `Managers/Goal.cs`.

Each class that the source updates in place is a Dafny `class` with the same
fields. The class has a snapshot function over a datatype. Each method
ensures that its new snapshot is a specification function of the old one,
and lemmas prove what the source promises about those functions.

Three members are called by the source but their bodies are not part of the
model:

- `GridManager.ToggleThorns`.
- The `MoveObject(..., updateTransform)` overload.
- `GameManager.IsPendingGameOver`/`ExecutePendingGameOver`.

They enter as caller-supplied values: the `PlayerMoves.Hooks` functions, the
`pending` flag, and an `executedPending` result.

## Model

| member | source | states |
|---|---|---|
| GridModel.RemoveFirst | HellTaker/Assets/Scripts/Managers/GridManager.cs:47 | `List.Remove` drops the first occurrence of the object and keeps the order of the rest; absent, the list is unchanged |
| GridModel.LiveIn | HellTaker/Assets/Scripts/Managers/GridManager.cs:133-150 | the objects `GetObjectsAt` returns are exactly the live ones of the cell's list, in list order |
| GridModel.FirstIn | HellTaker/Assets/Scripts/Managers/GridManager.cs:153-181 | the first-match search returns a listed object that matches, or nothing |
| GridModel.FirstInIsFirst | HellTaker/Assets/Scripts/Managers/GridManager.cs:153-181 | no object listed before the returned one matches, so the query returns the first match in list order |
| GridModel.AnyTaggedIffFirst | HellTaker/Assets/Scripts/Managers/GridManager.cs:153-181 | the first-match search finds something exactly when some live object at the cell has one of the tags |
| GridModel.FirstInLive | HellTaker/Assets/Scripts/Managers/GridManager.cs:168-181 | searching `GetObjectsAt`'s live list finds the same object as searching the raw list and skipping the dead |
| GridModel.DestroyedIsSkipped | HellTaker/Assets/Scripts/Managers/GridManager.cs:95-104 | a destroyed object that is still listed is ignored by the blocked, punished and pushable queries |
| GridModel.AbsentCellIsEmpty | HellTaker/Assets/Scripts/Managers/GridManager.cs:88-93 | a cell with no key is not blocked or punished and holds nothing, pushable or tagged |
| GridModel.PushableIsBlockOrMonster | HellTaker/Assets/Scripts/Managers/GridManager.cs:173-176 | a pushable is always a Block or a Monster, never a LockBox |
| GridModel.LockBoxBlocks | HellTaker/Assets/Scripts/Managers/GridManager.cs:99-104 | a cell holding a live LockBox is blocked |
| GridModel.RemoveFirstNoDup | HellTaker/Assets/Scripts/Managers/GridManager.cs:47 | on a duplicate-free list, `Remove` deletes exactly that object and the list stays duplicate-free |
| GridModel.RegisterIdempotent | HellTaker/Assets/Scripts/Managers/GridManager.cs:26-39 | registering twice is the same as registering once |
| GridModel.RegisterEffect | HellTaker/Assets/Scripts/Managers/GridManager.cs:26-39 | an object already listed leaves the grid unchanged; otherwise it is appended to its cell's list (created if absent) and no other cell changes |
| GridModel.UnregisterEffect | HellTaker/Assets/Scripts/Managers/GridManager.cs:42-55 | the object leaves its cell's list while every other object there stays listed, an emptied key is deleted, other cells are unchanged, and an absent cell is a no-op |
| GridModel.UnregisterUndoesRegister | HellTaker/Assets/Scripts/Managers/GridManager.cs:26-55 | unregistering undoes a registration that added the object |
| GridModel.RegisterPreservesValid | HellTaker/Assets/Scripts/Managers/GridManager.cs:26-39 | registering keeps every key mapped to a non-empty, duplicate-free list of known objects |
| GridModel.UnregisterPreservesValid | HellTaker/Assets/Scripts/Managers/GridManager.cs:42-55 | unregistering keeps the same invariant |
| GridModel.MoveEffect | HellTaker/Assets/Scripts/Managers/GridManager.cs:61-85 | after `MoveObject(obj, from, to)` the object is listed once at `to`, not at `from` when they differ, has its transform at `to`, other cells are unchanged, and the invariant holds; no legality check is made |
| GridModel.ClearIsValid | HellTaker/Assets/Scripts/Managers/GridManager.cs:207-210 | clearing leaves no key and keeps the scene, so the invariant holds |
| Grid.RoundToInt | HellTaker/Assets/Scripts/Managers/GridManager.cs:184-192 | the result is within one half of the input, and even when the input lies halfway between two integers |
| Grid.WorldGridRoundTrip | HellTaker/Assets/Scripts/Managers/GridManager.cs:184-204 | `WorldToGrid(GridToWorld(p)) == p` for every integer cell |
| Grid.WorldNearCell | HellTaker/Assets/Scripts/Managers/GridManager.cs:184-192 | a world position less than half a tile from a cell's centre on each axis rounds to that cell |
| Grid.GridManager.constructor | HellTaker/Assets/Scripts/Managers/GridManager.cs:10 | the grid starts empty and valid |
| Grid.GridManager.Instantiate | HellTaker/Assets/Scripts/Managers/LevelManager.cs:197 | a new live object with the tag, whose transform rounds to the cell and hangs under a level parent exactly when asked, with a fresh identity; nothing else changes |
| Grid.GridManager.Destroy | HellTaker/Assets/Scripts/Utils/Objects/Player.cs:251-258 | the object is no longer alive; its grid entries stay |
| Grid.GridManager.RegisterObject | HellTaker/Assets/Scripts/Managers/GridManager.cs:26-39 | the new grid is `Register` of the old |
| Grid.GridManager.UnregisterObject | HellTaker/Assets/Scripts/Managers/GridManager.cs:42-55 | the new grid is `Unregister` of the old |
| Grid.GridManager.MoveObject | HellTaker/Assets/Scripts/Managers/GridManager.cs:61-85 | the new grid is `Move` of the old |
| Grid.GridManager.ApplyEffect | HellTaker/Assets/Scripts/Utils/Objects/Player.cs:160 | a caller-supplied grid effect is applied and nothing else changes |
| Grid.GridManager.ClearGrid | HellTaker/Assets/Scripts/Managers/GridManager.cs:207-210 | the new grid is `Clear` of the old |
| Grid.GridManager.ScanForTags | HellTaker/Assets/Scripts/Managers/GridManager.cs:95-107 | the loop finds a live object at the cell carrying one of the tags exactly when one exists |
| Grid.GridManager.IsPositionBlocked | HellTaker/Assets/Scripts/Managers/GridManager.cs:88-108 | true exactly when some live object at the cell is a Wall, Goal or LockBox |
| Grid.GridManager.IsPositionPunished | HellTaker/Assets/Scripts/Managers/GridManager.cs:110-130 | true exactly when some live object at the cell is ThornNormal or ThornHidden; ThornUp and ThornDown do not count |
| Grid.GridManager.GetObjectsAt | HellTaker/Assets/Scripts/Managers/GridManager.cs:133-150 | returns exactly the live objects listed at the cell |
| Grid.GridManager.FirstWithTags | HellTaker/Assets/Scripts/Managers/GridManager.cs:153-181 | the loop returns the first live object of the list carrying one of the tags |
| Grid.GridManager.GetObjectWithTagAt | HellTaker/Assets/Scripts/Managers/GridManager.cs:153-165 | returns a live object at the cell with the tag, and none exactly when no such object exists |
| Grid.GridManager.GetPushableAt | HellTaker/Assets/Scripts/Managers/GridManager.cs:168-181 | returns a live Block or Monster at the cell, and none exactly when there is no such object |
| Input.NormalizeDirection | HellTaker/Assets/Scripts/Managers/InputManager.cs:158-168 | always one of the four unit steps; horizontal exactly when abs(x) > abs(y); the sign follows the dominant axis, so ties and zero input give (0, -1) unless y > 0 |
| Input.SetStateChangingState | HellTaker/Assets/Scripts/Managers/InputManager.cs:48-93 | changing state stores it and raises the release gate; UI with subtype None stores Dialogue; a non-UI state stores None |
| Input.SetStateSameState | HellTaker/Assets/Scripts/Managers/InputManager.cs:77-91 | re-entering UI with another subtype stores it and raises the gate; re-entering with the same subtype, or re-entering a non-UI state, changes nothing |
| Input.SetStateIdempotent | HellTaker/Assets/Scripts/Managers/InputManager.cs:48-93 | setting the same state twice equals setting it once |
| Input.SetStatePreservesValid | HellTaker/Assets/Scripts/Managers/InputManager.cs:48-93 | the subtype is None outside the UI state and never None inside it |
| Input.StepPreservesValid | HellTaker/Assets/Scripts/Managers/InputManager.cs:31-46 | every frame keeps that invariant, whatever the dispatched move does back to the manager |
| Input.TransitionIgnoresInput | HellTaker/Assets/Scripts/Managers/InputManager.cs:31-46 | Transition, and the unused None state, dispatch nothing and change nothing |
| Input.WaitingBlocksInput | HellTaker/Assets/Scripts/Managers/InputManager.cs:282-298 | while waiting for release, a frame with the stick deflected or a tracked key held changes and dispatches nothing |
| Input.ReleaseRearms | HellTaker/Assets/Scripts/Managers/InputManager.cs:103-116 | a released frame drops the gate and arms the manager; in UI nothing else happens that frame |
| Input.PlayingMovesOncePerDeflection | HellTaker/Assets/Scripts/Managers/InputManager.cs:118-140 | in Playing a frame dispatches at most one move, exactly when the stick is deflected, the manager armed and a player present; afterwards the manager is disarmed exactly when the stick is deflected |
| Input.HeldDeflectionFiresOnce | HellTaker/Assets/Scripts/Managers/InputManager.cs:118-140 | the frame after, the same deflection dispatches nothing; a move that sends nothing back leaves the manager in Playing |
| Input.MoveResolvesBeforeKeys | HellTaker/Assets/Scripts/Managers/InputManager.cs:127-153 | the move is resolved before R and L: after a clearing move L still opens the advice and R still restarts; after a losing move with the game-over UI up, R switches to Transition and without keys the game-over UI stays |
| Input.SetStatesKeepLatch | HellTaker/Assets/Scripts/Managers/InputManager.cs:48-93 | no run of `SetState` calls touches the move latch |
| Input.IsAnyKeyPressed | HellTaker/Assets/Scripts/Managers/InputManager.cs:282-298 | a held key always counts as pressed, and a stick at rest with nothing held never does |
| Input.NumberChoiceStep | HellTaker/Assets/Scripts/Managers/InputManager.cs:194-213 | a number choice steps +1 or -1 by the sign of x, once per deflection, and Enter confirms |
| Input.ListChoiceStep | HellTaker/Assets/Scripts/Managers/InputManager.cs:215-235 | a list choice moves -1 for up and +1 otherwise, once per deflection, and Enter selects |
| Input.InputManager.constructor | HellTaker/Assets/Scripts/Managers/InputManager.cs:9-15 | Playing, subtype Dialogue, armed, not waiting, threshold 0.5 |
| Input.InputManager.SetState | HellTaker/Assets/Scripts/Managers/InputManager.cs:48-93 | the new mode is `SetStateSpec` of the old |
| Input.InputManager.Update | HellTaker/Assets/Scripts/Managers/InputManager.cs:31-46 | the new mode and the dispatched calls are `Step` of the old mode, the frame and what the dispatched move does back to the manager |
| Input.InputManager.HandlePlayingInput | HellTaker/Assets/Scripts/Managers/InputManager.cs:98-155 | mode and calls are `PlayingStep`: the gate, the latch, the move with its `SetState` calls back, then R and L read in the mode the move left |
| Input.InputManager.HandleUIInput | HellTaker/Assets/Scripts/Managers/InputManager.cs:170-280 | mode and calls are `UIStep` of the old mode and the frame |
| Turns.TurnText | HellTaker/Assets/Scripts/Managers/GameManager.cs:92-103 | "X" exactly when no move remains, otherwise the remaining count in decimal |
| Turns.StageText | HellTaker/Assets/Scripts/Managers/GameManager.cs:109-119 | the roman numeral for stages 0 to 10, "?" otherwise |
| Turns.RemainingMoves | HellTaker/Assets/Scripts/Managers/GameManager.cs:271-274 | never negative; equals the budget minus the count when that is positive |
| Turns.StageTextReadsBack | HellTaker/Assets/Scripts/Managers/GameManager.cs:28 | each label of 0 to 10 identifies its stage |
| Turns.StageTextInjective | HellTaker/Assets/Scripts/Managers/GameManager.cs:109-119 | distinct stages in range get distinct labels |
| Turns.TurnTextReadsBack | HellTaker/Assets/Scripts/Managers/GameManager.cs:92-103 | the turn text parses as a number exactly when moves remain, and that number is the remaining count |
| Turns.ResetIsFresh | HellTaker/Assets/Scripts/Managers/GameManager.cs:68-76 | reset zeroes the count, clears all three flags, keeps budget and stage, and shows the whole budget |
| Turns.IncreaseAfterEndIsNoOp | HellTaker/Assets/Scripts/Managers/GameManager.cs:163-169 | once cleared or lost, an increase changes nothing |
| Turns.IncreaseCounts | HellTaker/Assets/Scripts/Managers/GameManager.cs:171-173 | while running, the count grows by exactly the amount and the text shows what remains |
| Turns.ClearIffWin | HellTaker/Assets/Scripts/Managers/GameManager.cs:175-183 | a running stage clears exactly when a Goal is next to the player; a clearing move never also loses, whatever the budget |
| Turns.GameOverIffBudgetSpent | HellTaker/Assets/Scripts/Managers/GameManager.cs:175-217 | game over is entered exactly when a running stage is not won and the count reaches the budget; the input then shows the game-over UI with a death animator, or is in Transition without one |
| Turns.GameOverStrandsWithoutAnimator | HellTaker/Assets/Scripts/Managers/GameManager.cs:201-243 | without a death animator the losing move ends in the as-written restart stopped in Transition; every later frame is ignored and every later move changes nothing |
| Turns.GuardedRestartReturnsToGame | HellTaker/Assets/Scripts/Managers/GameManager.cs:224-243 | the guarded restart resets the stage and returns to Playing, and equals the as-written restart when a death animator is assigned |
| Turns.IncreasePreservesValid | HellTaker/Assets/Scripts/Managers/GameManager.cs:163-217 | cleared and game over are never both set |
| Turns.WinIffGoalAdjacent | HellTaker/Assets/Scripts/Managers/GameManager.cs:132-160 | the win check looks at exactly the four orthogonal neighbours for a live Goal |
| Turns.NoPlayerNoWin | HellTaker/Assets/Scripts/Managers/GameManager.cs:134-137 | without a live player the win check never fires |
| Turns.GameManager.constructor | HellTaker/Assets/Scripts/Managers/GameManager.cs:14-33 | budget 23, stage 1, count 0, all flags clear, empty texts, no player |
| Turns.GameManager.UpdateUI | HellTaker/Assets/Scripts/Managers/GameManager.cs:90-124 | only the two texts change, to `TurnText` and `StageText` |
| Turns.GameManager.ResetGameState | HellTaker/Assets/Scripts/Managers/GameManager.cs:68-76 | the new state is `Reset` of the old |
| Turns.GameManager.InitializeStage | HellTaker/Assets/Scripts/Managers/GameManager.cs:63-88 | the state is reset and the input manager is set to Playing |
| Turns.GameManager.SetPlayer | HellTaker/Assets/Scripts/Managers/GameManager.cs:126-129 | only the player reference changes |
| Turns.GameManager.SetKey | HellTaker/Assets/Scripts/Managers/GameManager.cs:295-298 | only the key flag changes |
| Turns.GameManager.GetRemainingMoves | HellTaker/Assets/Scripts/Managers/GameManager.cs:271-274 | returns `RemainingMoves` of the state |
| Turns.GameManager.OnLevelClear | HellTaker/Assets/Scripts/Managers/GameManager.cs:187-198 | state and input mode are `LevelClear` of the old ones |
| Turns.GameManager.OnGameOver | HellTaker/Assets/Scripts/Managers/GameManager.cs:201-217 | state and input mode are `GameOverSpec` of the old ones |
| Turns.GameManager.RestartStage | HellTaker/Assets/Scripts/Managers/GameManager.cs:220-230 | up to the first wait: the input manager enters Transition, nothing else changes, and the coroutine carries on exactly when a death animator is assigned, since `HideGameOver` on a missing one throws |
| Turns.GameManager.FinishRestart | HellTaker/Assets/Scripts/Managers/GameManager.cs:231-243 | only reachable with a death animator; after the wait the state is reset and the input returns to Playing |
| Turns.GameManager.FinishNextStage | HellTaker/Assets/Scripts/Managers/GameManager.cs:259-266 | after the wait: the stage number grows by one, the state is reset and the input returns to Playing |
| Turns.GameManager.CheckWinCondition | HellTaker/Assets/Scripts/Managers/GameManager.cs:132-160 | the level is cleared exactly when `WinReached`, otherwise nothing changes |
| Turns.GameManager.IncreaseMoveCount | HellTaker/Assets/Scripts/Managers/GameManager.cs:163-184 | state and input mode are `Increase` of the old ones |
| Text.SkipStart | HellTaker/Assets/Scripts/Managers/DialogueManager.cs:270 | the first position from `i` whose character is not white space |
| Text.IsWhiteSpace | HellTaker/Assets/Scripts/Managers/DialogueManager.cs:270 | `char.IsWhiteSpace` never accepts a digit, a sign, a decimal point, a comma or a double quote |
| Text.IsNullOrWhiteSpace | HellTaker/Assets/Scripts/Managers/LevelManager.cs:119 | the empty string qualifies, and a string qualifies exactly when its first character is white space and the rest qualifies |
| Text.SkipEnd | HellTaker/Assets/Scripts/Managers/DialogueManager.cs:270 | the end of the range once trailing white space is dropped, never below its start |
| Text.Trim | HellTaker/Assets/Scripts/Managers/DialogueManager.cs:270 | the result is no longer than the input and has no white space at either end |
| Text.TrimDropsOnlyWhiteSpace | HellTaker/Assets/Scripts/Managers/DialogueManager.cs:270 | what `Trim` removes, on either side, is white space |
| Text.TrimEmptyIff | HellTaker/Assets/Scripts/Managers/LevelManager.cs:119-121 | `Trim` gives "" exactly for blank input, as `IsNullOrWhiteSpace` tests |
| Text.TrimUnchanged | HellTaker/Assets/Scripts/Managers/DialogueManager.cs:280 | text without white space at its ends is left as it is |
| Text.Split | HellTaker/Assets/Scripts/Managers/LevelManager.cs:114 | the pieces hold no separator and there is one more piece than there are separators |
| Text.JoinSplit | HellTaker/Assets/Scripts/Managers/LevelManager.cs:114 | joining the pieces of a split with the separator gives the input back |
| Text.Join | HellTaker/Assets/Scripts/Managers/LevelManager.cs:160-167 | the writer the row reader inverts: it starts with the first piece, is that piece alone exactly for one piece, and puts the separator after it otherwise |
| Text.SplitNoSeparator | HellTaker/Assets/Scripts/Managers/LevelManager.cs:128 | text without the separator splits into itself alone |
| Text.SplitJoin | HellTaker/Assets/Scripts/Managers/LevelManager.cs:164 | splitting the join of separator-free pieces gives the pieces back |
| Text.ParseInt32 | HellTaker/Assets/Scripts/Managers/LevelManager.cs:130 | a parsed value is a 32-bit integer |
| Text.NatToString | HellTaker/Assets/Scripts/Managers/GameManager.cs:101 | a non-empty string of decimal digits |
| Text.ParseNatToString | HellTaker/Assets/Scripts/Managers/GameManager.cs:101 | a printed count up to 2^31-1 parses back to that count |
| Text.ParseDecimalOfNat | HellTaker/Assets/Scripts/Managers/LevelManager.cs:139-140 | a whole number written in decimal reads back as that number |
| Text.ParseDecimal | HellTaker/Assets/Scripts/Managers/LevelManager.cs:139-140 | a parsed value needs at least one digit, and a negative value needs a minus sign |
| Text.ReplaceEscapedNewlines | HellTaker/Assets/Scripts/Managers/DialogueManager.cs:277 | the result is no longer than the input, keeps or converts its first character, and holds no backslash-n pair |
| DialogueTable.TypeOfName | HellTaker/Assets/Scripts/Managers/DialogueNode.cs:23-31 | the member named exactly by the text, or none |
| DialogueTable.ParseType | HellTaker/Assets/Scripts/Managers/DialogueManager.cs:169 | blank text parses to nothing; a result is the member named exactly by the trimmed text or the value of the 32-bit number it holds, and an unnamed value comes only from a number |
| DialogueTable.TypeNameReadsBack | HellTaker/Assets/Scripts/Managers/DialogueManager.cs:169 | every member name parses back to its member |
| DialogueTable.TypeValueReadsBack | HellTaker/Assets/Scripts/Managers/DialogueManager.cs:169 | every underlying value 0 to 5 in decimal parses back to its member |
| DialogueTable.Scan | HellTaker/Assets/Scripts/Managers/DialogueManager.cs:238-258 | the splitter keeps the fields it has already found and appends to them |
| DialogueTable.Unquote | HellTaker/Assets/Scripts/Managers/DialogueManager.cs:243-245 | the result holds no double quote |
| DialogueTable.FieldCount | HellTaker/Assets/Scripts/Managers/DialogueManager.cs:232-260 | one field more than there are commas outside quotes |
| DialogueTable.FieldsHaveNoQuotes | HellTaker/Assets/Scripts/Managers/DialogueManager.cs:232-260 | no field holds a double quote |
| DialogueTable.FieldsJoinToUnquotedLine | HellTaker/Assets/Scripts/Managers/DialogueManager.cs:232-260 | the fields joined with commas give the line with its quotes removed |
| DialogueTable.UnquotedIsSplit | HellTaker/Assets/Scripts/Managers/DialogueManager.cs:232-260 | without quotes the splitter is a plain split on commas |
| DialogueTable.ParseCSVLine | HellTaker/Assets/Scripts/Managers/DialogueManager.cs:232-260 | the loop returns the fields of `ParseCSV` |
| DialogueTable.CleanString | HellTaker/Assets/Scripts/Managers/DialogueManager.cs:265-281 | empty gives empty; the result has no white space at either end |
| DialogueTable.StripQuotes | HellTaker/Assets/Scripts/Managers/DialogueManager.cs:271-274 | the four quote removals never lengthen the text |
| DialogueTable.TrimKeepsNoEscape | HellTaker/Assets/Scripts/Managers/DialogueManager.cs:277-280 | trimming cannot create a backslash-n pair |
| DialogueTable.CleanTextUnchanged | HellTaker/Assets/Scripts/Managers/DialogueManager.cs:265-281 | already clean text passes through unchanged |
| DialogueTable.StripQuotesWithoutQuotes | HellTaker/Assets/Scripts/Managers/DialogueManager.cs:271-274 | quote-free text passes the quote removals unchanged |
| DialogueTable.CleanFieldOnlyTrims | HellTaker/Assets/Scripts/Managers/DialogueManager.cs:179-181 | on a field from the splitter, cleaning only trims and turns backslash-n into a newline |
| DialogueTable.NewNode | HellTaker/Assets/Scripts/Managers/DialogueNode.cs:11-12 | every node has three choice slots |
| DialogueTable.TextsBelow | HellTaker/Assets/Scripts/Managers/DialogueManager.cs:191-210 | the slot texts after the first j slots are read, three of them |
| DialogueTable.NextsBelow | HellTaker/Assets/Scripts/Managers/DialogueManager.cs:191-210 | the slot targets after the first j slots are read, three of them |
| DialogueTable.CorrectBelow | HellTaker/Assets/Scripts/Managers/DialogueManager.cs:188-209 | the correct index so far is one of the slots already read, or 0 |
| DialogueTable.ChoiceNode | HellTaker/Assets/Scripts/Managers/DialogueManager.cs:185-211 | a choice row's node keeps its header and has three slots |
| DialogueTable.BuildRow | HellTaker/Assets/Scripts/Managers/DialogueManager.cs:175-224 | a built node carries the parsed id and type and has three slots |
| DialogueTable.ParseRow | HellTaker/Assets/Scripts/Managers/DialogueManager.cs:159-224 | a row that is not skipped has at least five fields; an added node has three slots, and its id and type are the parses of fields 0 and 1 |
| DialogueTable.NumberFields | HellTaker/Assets/Scripts/Managers/DialogueManager.cs:215-218 | present exactly when fields 5 to 8 exist and parse as integers |
| DialogueTable.SkipIff | HellTaker/Assets/Scripts/Managers/DialogueManager.cs:161-173 | a row is skipped exactly when it has fewer than five fields or its id or type does not parse |
| DialogueTable.RowHeader | HellTaker/Assets/Scripts/Managers/DialogueManager.cs:175-182 | a kept row is built from its parsed id and type and its cleaned fields 2 to 4 |
| DialogueTable.LinesContinueAtNextId | HellTaker/Assets/Scripts/Managers/DialogueManager.cs:220-224 | Dialogue and Advice rows continue at id + 1 |
| DialogueTable.NumberChoiceFields | HellTaker/Assets/Scripts/Managers/DialogueManager.cs:212-219 | a number-choice row is added exactly when fields 5 to 8 exist and parse as integers, and otherwise the loader throws; its node takes them as minimum, first target, maximum, second target |
| DialogueTable.CorrectChoiceIsLastContinuing | HellTaker/Assets/Scripts/Managers/DialogueManager.cs:185-210 | the correct index is the last filled slot whose target is below 100, or 0 |
| DialogueTable.LoadLinesValid | HellTaker/Assets/Scripts/Managers/DialogueManager.cs:155-227 | a successful load keeps every earlier entry and keys every node by its own id with three slots |
| DialogueTable.LoadedTableValid | HellTaker/Assets/Scripts/Managers/DialogueManager.cs:141-230 | a loaded table keys every node by its id, each with three slots |
| DialogueTable.LoadLines | HellTaker/Assets/Scripts/Managers/DialogueManager.cs:155-227 | a load that does not throw keeps every earlier entry unchanged, since a duplicate id throws |
| DialogueTable.LoadTable | HellTaker/Assets/Scripts/Managers/DialogueManager.cs:141-157 | a missing file, or one with only a header line, gives an empty table |
| DialogueTable.ParseChoices | HellTaker/Assets/Scripts/Managers/DialogueManager.cs:185-211 | the loop gives `ChoiceNode` of the row, or none exactly when a target does not parse |
| DialogueTable.SlotStep | HellTaker/Assets/Scripts/Managers/DialogueManager.cs:196-209 | reading slot j fills that slot's text and target and updates the correct index, and leaves the other slots alone |
| Dialogue.ActiveCount | HellTaker/Assets/Scripts/Managers/DialogueManager.cs:362-376 | the number of non-empty choice texts, at most the number of slots |
| Dialogue.ShowKeepsMode | HellTaker/Assets/Scripts/Managers/DialogueManager.cs:283-353 | showing a line never hands the input back to the game |
| Dialogue.ShowOutcome | HellTaker/Assets/Scripts/Managers/DialogueManager.cs:283-406 | a missing id ends the dialogue; a game-over line ends it and reports its text; a list choice puts the cursor on slot 0; a number choice starts at its minimum; a plain line hides the choices |
| Dialogue.ShowPreservesValid | HellTaker/Assets/Scripts/Managers/DialogueManager.cs:283-353 | showing a line keeps the manager's invariant |
| Dialogue.AdvanceBlockedByChoice | HellTaker/Assets/Scripts/Managers/DialogueManager.cs:417 | while a choice is shown, advancing does nothing |
| Dialogue.AdvanceThrowsIff | HellTaker/Assets/Scripts/Managers/DialogueManager.cs:419 | advancing throws exactly when no choice is shown and the current id has no line |
| Dialogue.AdvanceToNextLine | HellTaker/Assets/Scripts/Managers/DialogueManager.cs:421-437 | a plain line with a successor shows the successor and keeps the input mode |
| Dialogue.AdvanceAtSuccess | HellTaker/Assets/Scripts/Managers/DialogueManager.cs:453-457 | a success line ends the dialogue and reports its end, without resuming play |
| Dialogue.AdvancePreservesValid | HellTaker/Assets/Scripts/Managers/DialogueManager.cs:415-458 | advancing keeps the invariant |
| Dialogue.AdviceExitStrandsInput | HellTaker/Assets/Scripts/Managers/DialogueManager.cs:430-433 | as written, an advice line followed by a plain line ends the advice with the input manager still in the advice UI, and no input frame can restart it |
| Dialogue.AdviceExitReturnsToGame | HellTaker/Assets/Scripts/Managers/DialogueManager.cs:430-450 | corrected: from an advice line, advancing stays on the next advice line or returns the input to play |
| Dialogue.MoveWraps | HellTaker/Assets/Scripts/Managers/DialogueManager.cs:460-473 | on a shown list the cursor moves by the step modulo the number of active slots |
| Dialogue.MoveStaysInRange | HellTaker/Assets/Scripts/Managers/DialogueManager.cs:460-473 | the cursor stays on an active slot, and moves only while a list is shown |
| Dialogue.SelectOnActiveSlot | HellTaker/Assets/Scripts/Managers/DialogueManager.cs:490-514 | selecting on a shown list goes to the selected slot's target, right or wrong, without throwing |
| Dialogue.SelectThrowsOnlyOffTheList | HellTaker/Assets/Scripts/Managers/DialogueManager.cs:494-505 | selecting throws only when the line is missing or the cursor is off the slots |
| Dialogue.SelectPreservesValid | HellTaker/Assets/Scripts/Managers/DialogueManager.cs:490-514 | selecting keeps the invariant |
| Dialogue.ChangeNumberClamps | HellTaker/Assets/Scripts/Managers/DialogueManager.cs:516-529 | the number stays within its range, moves by exactly the step when that fits, and changes only during a number choice |
| Dialogue.SelectNumberBranches | HellTaker/Assets/Scripts/Managers/DialogueManager.cs:531-552 | confirming goes to the second target exactly at the maximum, else the first, and clears both choice flags |
| Dialogue.SelectNumberPreservesValid | HellTaker/Assets/Scripts/Managers/DialogueManager.cs:531-552 | confirming keeps the invariant |
| Dialogue.StartEntersUI | HellTaker/Assets/Scripts/Managers/DialogueManager.cs:91-139 | with a non-empty table the dialogue is active on the start line and the input is in UI with the given subtype |
| Dialogue.DialogueManager.constructor | HellTaker/Assets/Scripts/Managers/DialogueManager.cs:56-76 | inactive, nothing shown |
| Dialogue.DialogueManager.LoadDialogueData | HellTaker/Assets/Scripts/Managers/DialogueManager.cs:141-230 | the table becomes `LoadTable` of the file and nothing else changes |
| Dialogue.DialogueManager.EndDialogue | HellTaker/Assets/Scripts/Managers/DialogueManager.cs:554-569 | state and input mode are `EndSpec` of the old ones |
| Dialogue.DialogueManager.ShowChoices | HellTaker/Assets/Scripts/Managers/DialogueManager.cs:355-383 | the new state is `ShowChoicesSpec` of the node |
| Dialogue.DialogueManager.ShowNumberChoice | HellTaker/Assets/Scripts/Managers/DialogueManager.cs:385-406 | the new state is `ShowNumberSpec` of the node |
| Dialogue.DialogueManager.ShowDialogue | HellTaker/Assets/Scripts/Managers/DialogueManager.cs:283-353 | state and input mode are `ShowSpec` of the old ones |
| Dialogue.DialogueManager.StartDialogue | HellTaker/Assets/Scripts/Managers/DialogueManager.cs:91-114 | state and mode are `StartSpec` at id 1 with the Dialogue subtype |
| Dialogue.DialogueManager.StartAdvice | HellTaker/Assets/Scripts/Managers/DialogueManager.cs:116-139 | state and mode are `StartSpec` at id 201 with the Advice subtype |
| Dialogue.DialogueManager.Start | HellTaker/Assets/Scripts/Managers/DialogueManager.cs:94-113 | the shared body: load the table, then stop on an empty table or show the start line and enter UI |
| Dialogue.DialogueManager.AdvanceDialogue | HellTaker/Assets/Scripts/Managers/DialogueManager.cs:415-458 | state, mode and outcome are `Advance` of the old ones |
| Dialogue.DialogueManager.MoveChoiceSelection | HellTaker/Assets/Scripts/Managers/DialogueManager.cs:460-473 | the new state is `MoveSpec` of the old |
| Dialogue.DialogueManager.SelectChoice | HellTaker/Assets/Scripts/Managers/DialogueManager.cs:490-514 | state, mode and outcome are `SelectSpec` of the old ones |
| Dialogue.DialogueManager.ChangeNumberValue | HellTaker/Assets/Scripts/Managers/DialogueManager.cs:516-529 | the new state is `ChangeNumberSpec` of the old |
| Dialogue.DialogueManager.SelectNumberChoice | HellTaker/Assets/Scripts/Managers/DialogueManager.cs:531-552 | state and mode are `SelectNumberSpec` of the old ones |
| Levels.CodeTag | HellTaker/Assets/Scripts/Managers/LevelManager.cs:47-57 | distinct tile codes spawn distinct tags |
| Levels.ValidLines | HellTaker/Assets/Scripts/Managers/LevelManager.cs:114-123 | the kept lines are trimmed and non-blank, no more than there were |
| Levels.ValidLinesOfClean | HellTaker/Assets/Scripts/Managers/LevelManager.cs:117-123 | clean lines are all kept as they are |
| Levels.ValidLinesIdempotent | HellTaker/Assets/Scripts/Managers/LevelManager.cs:117-123 | reading the lines a second time changes nothing |
| Levels.StoredCells | HellTaker/Assets/Scripts/Managers/LevelManager.cs:160-169 | a stored cell is trimmed and holds no comma, cells past the width are ignored, and the first map row fills every column |
| Levels.MoveBudgetOfNumber | HellTaker/Assets/Scripts/Managers/LevelManager.cs:130-137 | a header whose field 0 is a count up to 2^31-1 sets the budget to that count |
| Levels.RowLines | HellTaker/Assets/Scripts/Managers/LevelManager.cs:164 | one line per row, its cells joined by commas |
| Levels.RowLineReadsBack | HellTaker/Assets/Scripts/Managers/LevelManager.cs:117-126 | a row of cells joined by commas is one clean line that splits back into the row |
| Levels.MapReadsBack | HellTaker/Assets/Scripts/Managers/LevelManager.cs:105-171 | loading a written map gives back its height (lines - 1), its width (commas of row 1 + 1) and every cell |
| Levels.MapLinesReadBack | HellTaker/Assets/Scripts/Managers/LevelManager.cs:114-123 | the lines of a map file, none of them blank, read back as written |
| Levels.RowsReadBack | HellTaker/Assets/Scripts/Managers/LevelManager.cs:125-169 | lines that split into the rows of a rectangular map give back its size and cells |
| Levels.UnitTileCell | HellTaker/Assets/Scripts/Managers/LevelManager.cs:186-190 | with unit tiles, column x and row y register at (x - w/2, h/2 - y) relative to the base, with integer division |
| Levels.UnitTileCellsDistinct | HellTaker/Assets/Scripts/Managers/LevelManager.cs:186-190 | distinct map cells land on distinct grid cells |
| Levels.SpawnLayout | HellTaker/Assets/Scripts/Managers/LevelManager.cs:186-190 | with a positive tile size later columns sit further right and later rows lower |
| Levels.Slots | HellTaker/Assets/Scripts/Managers/LevelManager.cs:195-248 | one check per code, ten in all |
| Levels.SpawnedPrefixes | HellTaker/Assets/Scripts/Managers/LevelManager.cs:195-248 | no check spawns nothing; all ten spawn the cell's objects |
| Levels.SpawnedBounded | HellTaker/Assets/Scripts/Managers/LevelManager.cs:195-248 | the first k checks spawn at most one object each, at the cell |
| Levels.SpawnedSorted | HellTaker/Assets/Scripts/Managers/LevelManager.cs:195-248 | spawns come in the order of the code table |
| Levels.SpawnedMembers | HellTaker/Assets/Scripts/Managers/LevelManager.cs:195-248 | a code spawns its tag exactly when its letter is in the cell text |
| Levels.TileSpawnsInOrder | HellTaker/Assets/Scripts/Managers/LevelManager.cs:195-248 | one object per distinct code letter, at the cell, in the order P, K, L, T, U, D, G, #, B, M; U and D spawn ThornUp and ThornDown |
| Levels.Plan | HellTaker/Assets/Scripts/Managers/LevelManager.cs:181-249 | one row of spawn lists per map row, one list per column |
| Levels.PlaceEffect | HellTaker/Assets/Scripts/Managers/LevelManager.cs:197-198 | one spawn adds a live object listed at its cell, and nothing else |
| Levels.PlaceScene | HellTaker/Assets/Scripts/Managers/LevelManager.cs:197-198 | one spawn adds the object to the scene and keeps the grid valid |
| Levels.PlaceAllScene | HellTaker/Assets/Scripts/Managers/LevelManager.cs:181-251 | spawning adds exactly the new identities and leaves earlier objects as they were |
| Levels.PlaceAllFrame | HellTaker/Assets/Scripts/Managers/LevelManager.cs:181-251 | spawning keeps every earlier entry |
| Levels.PlaceAllFresh | HellTaker/Assets/Scripts/Managers/LevelManager.cs:181-251 | spawning keeps the grid valid |
| Levels.PlaceAllListed | HellTaker/Assets/Scripts/Managers/LevelManager.cs:181-251 | spawn i is listed at its cell under identity n + i |
| Levels.PlaceListed | HellTaker/Assets/Scripts/Managers/LevelManager.cs:197-198 | one spawn lists the new object at its cell |
| Levels.PlaceKeeps | HellTaker/Assets/Scripts/Managers/LevelManager.cs:197-198 | one spawn keeps every listed entry |
| Levels.ReloadLeavesOnlyNewObjects | HellTaker/Assets/Scripts/Managers/LevelManager.cs:264-288 | after a clear and a fresh generation only new objects are listed; every child of a level parent and every Player, Key or LockBox object is dead, and every other object is as it was |
| Levels.SpawnedObjectsAreCleared | HellTaker/Assets/Scripts/Managers/LevelManager.cs:193-249 | every object a generation spawns is destroyed by the next clear, through its parent or through its tag |
| Levels.CharacterNamesDistinct | HellTaker/Assets/Scripts/Managers/LevelManager.cs:97 | no character name is listed twice |
| Levels.GoalPrefabLookup | HellTaker/Assets/Scripts/Managers/LevelManager.cs:93-103 | the first min(#prefabs, #names) characters get their own prefab; any other name falls back to the first prefab |
| Levels.ReadValidLines | HellTaker/Assets/Scripts/Managers/LevelManager.cs:114-123 | the loop gives `ValidLines` |
| Levels.ReadCells | HellTaker/Assets/Scripts/Managers/LevelManager.cs:160-169 | a fresh buffer of the map's size holding each row's trimmed fields up to the width |
| Levels.ReadRow | HellTaker/Assets/Scripts/Managers/LevelManager.cs:162-168 | row y gets the trimmed fields of line y + 1; other rows are unchanged |
| Levels.LevelManager.Tiles | HellTaker/Assets/Scripts/Managers/LevelManager.cs:39-41 | the buffer's cells, height rows of width cells |
| Levels.LevelManager.constructor | HellTaker/Assets/Scripts/Managers/LevelManager.cs:59-72 | the goal prefab map is built, the goal character is "PandeMonica", no map is loaded, and the base position and tile size are the given ones |
| Levels.LevelManager.InitializeGoalPrefabs | HellTaker/Assets/Scripts/Managers/LevelManager.cs:93-103 | the map becomes `GoalPrefabMap` of the prefabs; nothing else changes |
| Levels.LevelManager.GetGoalPrefab | HellTaker/Assets/Scripts/Managers/LevelManager.cs:254-263 | returns `GoalPrefabFor` of the name |
| Levels.LevelManager.LoadMapFromCSV | HellTaker/Assets/Scripts/Managers/LevelManager.cs:105-171 | a missing file changes nothing; otherwise a fresh buffer holds the cells and the header sets budget, base and goal character |
| Levels.LevelManager.ReadHeader | HellTaker/Assets/Scripts/Managers/LevelManager.cs:128-158 | the budget and base change only when their fields parse; the goal character is the trimmed field 3, or "PandeMonica" when it is missing or blank |
| Levels.LevelManager.GenerateMap | HellTaker/Assets/Scripts/Managers/LevelManager.cs:173-252 | no buffer changes nothing; otherwise the grid gains exactly the spawns of every cell, row by row |
| Levels.LevelManager.PlanOfBuffer | HellTaker/Assets/Scripts/Managers/LevelManager.cs:181-192 | the plan has one entry per stored cell |
| Levels.LevelManager.SpawnRows | HellTaker/Assets/Scripts/Managers/LevelManager.cs:181-251 | the rows loop places the spawns of every row |
| Levels.LevelManager.SpawnRow | HellTaker/Assets/Scripts/Managers/LevelManager.cs:183-250 | the column loop places the spawns of one row |
| Levels.LevelManager.SpawnTile | HellTaker/Assets/Scripts/Managers/LevelManager.cs:195-248 | the ten checks place the cell's spawns |
| Levels.LevelManager.SpawnMiddleCodes | HellTaker/Assets/Scripts/Managers/LevelManager.cs:200-223 | the checks of K, L, T and U |
| Levels.LevelManager.SpawnLastCodes | HellTaker/Assets/Scripts/Managers/LevelManager.cs:224-248 | the checks of D, G, #, B and M |
| Levels.LevelManager.SpawnSlot | HellTaker/Assets/Scripts/Managers/LevelManager.cs:195-248 | code k's check extends the spawns of the first k codes to the first k + 1 |
| Levels.LevelManager.SpawnCode | HellTaker/Assets/Scripts/Managers/LevelManager.cs:195-199 | one code check: spawn and register when the cell holds the letter |
| Levels.LevelManager.SpawnObject | HellTaker/Assets/Scripts/Managers/LevelManager.cs:197-198 | `Instantiate` then `RegisterObject` places the next spawn |
| Levels.LevelManager.ClearCurrentMap | HellTaker/Assets/Scripts/Managers/LevelManager.cs:264-279 | the children of the level parents and the Player, Key and LockBox objects are destroyed, other objects are left alone, then the grid is cleared |
| Levels.LevelManager.LoadedBuffer | HellTaker/Assets/Scripts/Managers/LevelManager.cs:160-169 | a buffer of full rows stores every cell, with a goal cell only where the text has one |
| Levels.LevelManager.LoadStage | HellTaker/Assets/Scripts/Managers/LevelManager.cs:105-171 | a load whose map can be generated |
| Levels.LevelManager.LoadAndGenerate | HellTaker/Assets/Scripts/Managers/LevelManager.cs:89-90 | load, then the grid gains exactly the current map's spawns |
| Levels.LevelManager.Start | HellTaker/Assets/Scripts/Managers/LevelManager.cs:74-91 | stage 1 changes nothing; any other stage records its file name, loads it and generates it |
| Levels.LevelManager.OpenStage | HellTaker/Assets/Scripts/Managers/LevelManager.cs:85-90 | the file name is recorded, the map loaded and generated |
| Levels.LevelManager.ReloadStage | HellTaker/Assets/Scripts/Managers/LevelManager.cs:281-288 | the grid is cleared and gains exactly the reloaded map's spawns |
| Levels.LevelManager.LoadNextStage | HellTaker/Assets/Scripts/Managers/LevelManager.cs:290-302 | the file name of the given stage is recorded; the grid is cleared and gains exactly its spawns |
| Levels.LevelManager.GetTileAt | HellTaker/Assets/Scripts/Managers/LevelManager.cs:310-317 | "." outside the map, the stored cell inside |
| Levels.IntText | HellTaker/Assets/Scripts/Managers/LevelManager.cs:85 | the decimal text of any integer is never empty |
| Levels.StageFileInjective | HellTaker/Assets/Scripts/Managers/LevelManager.cs:85 | distinct stages read distinct map files |
| PlayerMoves.IgnoredUnlessRunning | HellTaker/Assets/Scripts/Utils/Objects/Player.cs:68-78 | outside Playing, or once cleared or lost, an attempt changes nothing |
| PlayerMoves.AnimatingOnlyBuffers | HellTaker/Assets/Scripts/Utils/Objects/Player.cs:81-85 | during an animation the attempt only overwrites the one-slot buffer |
| PlayerMoves.BlockedOnlyTurns | HellTaker/Assets/Scripts/Utils/Objects/Player.cs:87-95 | a blocked target only sets the facing direction: no grid change, no charge |
| PlayerMoves.PendingGameOverStops | HellTaker/Assets/Scripts/Utils/Objects/Player.cs:97-103 | with a free target and a game over pending, the pending game over runs and nothing moves |
| PlayerMoves.ResolutionCharges | HellTaker/Assets/Scripts/Utils/Objects/Player.cs:160-175 | every attempt past those checks toggles the thorns once and charges 2 when the player's final cell is punished after the toggle, else 1 |
| PlayerMoves.WalkMovesOneStep | HellTaker/Assets/Scripts/Utils/Objects/Player.cs:140-158 | with nothing pushable at the target the player moves exactly one cell, listed there |
| PlayerMoves.WalkCollectsKey | HellTaker/Assets/Scripts/Utils/Objects/Player.cs:153-157 | a plain move takes a key exactly when a live Key is at the target; the key is unlisted and dead afterwards |
| PlayerMoves.MoveKeepsOthers | HellTaker/Assets/Scripts/Managers/GridManager.cs:61-85 | moving one object changes no other object's listing or scene entry |
| PlayerMoves.KickStaysInPlace | HellTaker/Assets/Scripts/Utils/Objects/Player.cs:110-139 | with a pushable at the target the player never moves and no key is taken |
| PlayerMoves.PushOutcome | HellTaker/Assets/Scripts/Utils/Objects/Player.cs:178-249 | a push succeeds exactly when the cell beyond is neither blocked nor holds a pushable; a failed Monster push removes and destroys it, a failed Block push leaves it |
| PlayerMoves.UpdateReplaysOnce | HellTaker/Assets/Scripts/Utils/Objects/Player.cs:38-54 | a pending game over empties the buffer; otherwise an idle animator replays the buffered move once |
| PlayerMoves.Player.constructor | HellTaker/Assets/Scripts/Utils/Objects/Player.cs:17-36 | the cell of the transform, facing right, an empty buffer, registered as the game's player |
| PlayerMoves.Player.Update | HellTaker/Assets/Scripts/Utils/Objects/Player.cs:38-54 | the new world is `UpdateSpec` of the old |
| PlayerMoves.Player.TryMove | HellTaker/Assets/Scripts/Utils/Objects/Player.cs:65-176 | the new world is `TryMoveSpec` of the old |
| PlayerMoves.Player.ResolveMove | HellTaker/Assets/Scripts/Utils/Objects/Player.cs:87-175 | the rest of `TryMove` after its guards |
| PlayerMoves.Player.PushOrWalk | HellTaker/Assets/Scripts/Utils/Objects/Player.cs:105-158 | the push of the object at the target, or else the plain move with key pickup |
| PlayerMoves.Player.TryPushObject | HellTaker/Assets/Scripts/Utils/Objects/Player.cs:178-249 | grid and result are `Push` of the old grid |
| PlayerMoves.Player.DestroyMonster | HellTaker/Assets/Scripts/Utils/Objects/Player.cs:251-258 | the monster is unregistered, then destroyed |
| PlayerMoves.Player.CollectKey | HellTaker/Assets/Scripts/Utils/Objects/Player.cs:260-266 | the key flag is set; the key is unregistered and destroyed |
| PlayerMoves.Player.UnlockBox | HellTaker/Assets/Scripts/Utils/Objects/Player.cs:268-274 | the box is unregistered and destroyed and the key flag is cleared |
| LegacyPlayer.BlockedChangesNothing | HellTaker/Assets/Scripts/Player.cs:63-70 | a blocked target changes nothing and charges nothing |
| LegacyPlayer.PushAndFollow | HellTaker/Assets/Scripts/Player.cs:72-91 | when the cell beyond is free the pushable moves there and the player follows into the target, charged 2 if the target is punished and 1 otherwise |
| LegacyPlayer.FailedBlockPushChargesNothing | HellTaker/Assets/Scripts/Player.cs:76-79 | a Block pushed against something stays, the player stays, nothing is charged |
| LegacyPlayer.FailedMonsterPushChargesOne | HellTaker/Assets/Scripts/Player.cs:96-133 | a Monster pushed against something is removed and destroyed; the player stays; exactly one move is charged |
| LegacyPlayer.StepCost | HellTaker/Assets/Scripts/Player.cs:82-92 | a plain step costs 2 when the target is punished before the step, else 1 |
| LegacyPlayer.IgnoredAfterStageEnds | HellTaker/Assets/Scripts/Player.cs:18-26 | once cleared or lost, input changes nothing |
| LegacyPlayer.OneMovePerPress | HellTaker/Assets/Scripts/Player.cs:28-47 | a held deflection moves on its first frame only |
| LegacyPlayer.TryMoveKeepsReady | HellTaker/Assets/Scripts/Player.cs:62-94 | a move attempt never touches the arming flag |
| LegacyPlayer.SmallDeflectionRearms | HellTaker/Assets/Scripts/Player.cs:43-46 | a deflection at or below 0.5 re-arms and moves nothing |
| LegacyPlayer.FailedBlockPushContrast | HellTaker/Assets/Scripts/Player.cs:76-79 | on a failed Block push the current player is charged and toggles the thorns, the legacy one is not |
| LegacyPlayer.SuccessfulPushContrast | HellTaker/Assets/Scripts/Player.cs:72-91 | on a successful push the legacy player follows into the freed cell and the current one stays |
| LegacyPlayer.Player.constructor | HellTaker/Assets/Scripts/Player.cs:10-16 | the cell of the transform, registered as the game's player, armed |
| LegacyPlayer.Player.Update | HellTaker/Assets/Scripts/Player.cs:18-47 | the new world is `UpdateSpec` of the old and the frame's axes |
| LegacyPlayer.Player.TryMove | HellTaker/Assets/Scripts/Player.cs:62-94 | the new world is `TryMoveSpec` of the old |
| LegacyPlayer.Player.Step | HellTaker/Assets/Scripts/Player.cs:82-92 | the cost read at the target, the step, the charge |
| LegacyPlayer.Player.TryPushObject | HellTaker/Assets/Scripts/Player.cs:96-126 | world and result are `Push` of the old world |
| LegacyPlayer.Player.DestroyMonster | HellTaker/Assets/Scripts/Player.cs:128-133 | the monster is unregistered, then destroyed |
| Prototype.UnitOf | HellTaker/Assets/Scripts/Player/PlayerMovement.cs:45-55 | the component's sign, or 0 at or below the cut-off |
| Prototype.FirstAt | HellTaker/Assets/Scripts/Player/PlayerMovement.cs:80-110 | the first index holding the position, none exactly when it is absent |
| Prototype.AxisStepIsAxisAligned | HellTaker/Assets/Scripts/Player/PlayerMovement.cs:45-55 | `Move` takes an axis-aligned step of length at most one: x is dropped below one half, y otherwise |
| Prototype.ObstacleBlocksFirst | HellTaker/Assets/Scripts/Player/PlayerMovement.cs:68-78 | an obstacle at the next position blocks before anything is pushed |
| Prototype.PushableBlocksIffStuck | HellTaker/Assets/Scripts/Player/PlayerMovement.cs:80-94 | a pushable there blocks exactly when its own move fails; when it moves, the player follows |
| Prototype.MonsterBlocksIffStuck | HellTaker/Assets/Scripts/Player/PlayerMovement.cs:96-110 | a live monster there blocks exactly when its move fails, and a failed move destroys it |
| Prototype.FreeStep | HellTaker/Assets/Scripts/Player/PlayerMovement.cs:56-65 | with nothing at the next position the player steps there |
| Prototype.CountsOnlyMoves | HellTaker/Assets/Scripts/Player/PlayerMovement.cs:27-36 | the count grows by one exactly when the player moved, so destroying a monster costs nothing |
| Prototype.OneMovePerDeflection | HellTaker/Assets/Scripts/Player/PlayerMovement.cs:22-43 | a held deflection moves once |
| Prototype.FirstDeflectionIgnored | HellTaker/Assets/Scripts/Player/PlayerMovement.cs:13-19 | the reader starts disarmed, so the first deflection only re-arms after a release |
| Prototype.CrateMoveOutcome | HellTaker/Assets/Scripts/Obstacle/Push.cs:23-34 | `Push.Move` steps exactly when the next position is free, else changes nothing |
| Prototype.NoPushChains | HellTaker/Assets/Scripts/Obstacle/Push.cs:48-62 | a pushable or live monster in a pushable's way blocks it instead of being pushed along |
| Prototype.MonsterMoveOutcome | HellTaker/Assets/Scripts/Monster/Monster.cs:8-20 | a monster's move either steps or destroys it, never both, and blocks by the pushables' rule |
| Prototype.DestroyedMonsterIgnored | HellTaker/Assets/Scripts/Obstacle/Push.cs:56-62 | a destroyed monster no longer blocks |
| Prototype.Board.constructor | HellTaker/Assets/Scripts/Obstacle/Push.cs:10-15 | the lists of obstacles, pushables and monsters, every monster alive |
| Prototype.Board.ObjToBlocked | HellTaker/Assets/Scripts/Obstacle/Push.cs:36-65 | true exactly when an obstacle, a pushable or a live monster is at position + direction |
| Prototype.Board.CrateMove | HellTaker/Assets/Scripts/Obstacle/Push.cs:23-34 | board and result are `CrateStep` of the old board |
| Prototype.Board.MonsterMove | HellTaker/Assets/Scripts/Monster/Monster.cs:8-20 | board and result are `MonsterStep` of the old board |
| Prototype.PlayerMovement.constructor | HellTaker/Assets/Scripts/Player/PlayerMovement.cs:13-19 | count 0, not ready |
| Prototype.PlayerMovement.Update | HellTaker/Assets/Scripts/Player/PlayerMovement.cs:22-43 | the new state is `UpdateSpec` of the old |
| Prototype.PlayerMovement.Move | HellTaker/Assets/Scripts/Player/PlayerMovement.cs:45-66 | state and result are `MoveSpec` of the old |
| Prototype.PlayerMovement.Blocked | HellTaker/Assets/Scripts/Player/PlayerMovement.cs:68-113 | board and result are `BlockedSpec` of the old board |
| Thorns.SpikeTag | HellTaker/Assets/Scripts/ThornToggle.cs:27 | ThornUp exactly when up, ThornDown otherwise |
| Thorns.SpikeStartState | HellTaker/Assets/Scripts/ThornToggle.cs:14-21 | up exactly when tagged ThornUp, with the matching sprite |
| Thorns.SpikeToggleFlips | HellTaker/Assets/Scripts/ThornToggle.cs:23-36 | `Toggle` negates the state, retags to match and shows the matching sprite |
| Thorns.SpikeToggleTwice | HellTaker/Assets/Scripts/ThornToggle.cs:23-30 | toggling twice restores state, tag and sprite |
| Thorns.ThornToggle.constructor | HellTaker/Assets/Scripts/ThornToggle.cs:14-21 | the state is `SpikeStart` of the tag |
| Thorns.ThornToggle.Toggle | HellTaker/Assets/Scripts/ThornToggle.cs:23-30 | the new state is `SpikeToggle` of the old |
| Thorns.ThornToggle.UpdateVisual | HellTaker/Assets/Scripts/ThornToggle.cs:32-36 | the sprite is spriteUp exactly when up |
| Thorns.Reverse | HellTaker/Assets/Scripts/Animator/ThornToggleAnimator.cs:60-67 | the reversed strip has the same length |
| Thorns.RestingFrame | HellTaker/Assets/Scripts/Animator/ThornToggleAnimator.cs:18-28 | frame 0 when up, the last frame when down |
| Thorns.ReverseAt | HellTaker/Assets/Scripts/Animator/ThornToggleAnimator.cs:60-67 | frame k of the reversed strip is frame n-1-k |
| Thorns.ReverseMultiset | HellTaker/Assets/Scripts/Animator/ThornToggleAnimator.cs:60-67 | the reversed strip is a permutation |
| Thorns.FrameOrderIsPermutation | HellTaker/Assets/Scripts/Animator/ThornToggleAnimator.cs:52-67 | lowering plays the frames ascending, raising descending, each exactly once |
| Thorns.AnimStartState | HellTaker/Assets/Scripts/Animator/ThornToggleAnimator.cs:18-28 | up exactly when tagged ThornUp; frame 0 when up, the last when down; an empty strip leaves the sprite alone |
| Thorns.ToggleIgnoredWhileAnimating | HellTaker/Assets/Scripts/Animator/ThornToggleAnimator.cs:30-32 | while playing, `Toggle` changes nothing |
| Thorns.AnimToggleFlips | HellTaker/Assets/Scripts/Animator/ThornToggleAnimator.cs:34-38 | otherwise it flips the state and retags; the playback runs exactly when there are frames |
| Thorns.Playback | HellTaker/Assets/Scripts/Animator/ThornToggleAnimator.cs:41-70 | after k waits frame k of the order is shown while playing; after the last, playback stops on the resting frame |
| Thorns.PlaybackIndex | HellTaker/Assets/Scripts/Animator/ThornToggleAnimator.cs:52-67 | the loop index after k waits: k ascending, n-1-k descending |
| Thorns.EmptyStripNeverAnimates | HellTaker/Assets/Scripts/Animator/ThornToggleAnimator.cs:45-50 | an empty strip never leaves `isAnimating` set |
| Thorns.FallsOutOfStep | HellTaker/Assets/Scripts/Animator/ThornToggleAnimator.cs:30-32 | two quick toggles leave a plain spike and an animated spike in different states |
| Thorns.ThornToggleAnimator.constructor | HellTaker/Assets/Scripts/Animator/ThornToggleAnimator.cs:18-28 | the state is `AnimStart` of the tag and strip |
| Thorns.ThornToggleAnimator.Toggle | HellTaker/Assets/Scripts/Animator/ThornToggleAnimator.cs:30-39 | the new state is `AnimToggle` of the old |
| Thorns.ThornToggleAnimator.PlayAnimation | HellTaker/Assets/Scripts/Animator/ThornToggleAnimator.cs:41-59 | up to the first wait the state is `PlayStart` of the old |
| Thorns.ThornToggleAnimator.Resume | HellTaker/Assets/Scripts/Animator/ThornToggleAnimator.cs:52-69 | one elapsed wait: the state is `AnimResume` of the old |
| GoalLatch.Run | HellTaker/Assets/Scripts/Managers/Goal.cs:19-23 | one message flag per frame |
| GoalLatch.StepLatches | HellTaker/Assets/Scripts/Managers/Goal.cs:25-52 | after a frame with a player, both flags hold exactly when the Manhattan distance is at most 1, the goal itself included; the message is logged exactly on entry |
| GoalLatch.LeavingClearsLog | HellTaker/Assets/Scripts/Managers/Goal.cs:38-42 | leaving the range clears both flags |
| GoalLatch.OnOrBesideGoal | HellTaker/Assets/Scripts/Managers/Goal.cs:32-37 | the goal and its four neighbours are in range |
| GoalLatch.NoPlayerThrows | HellTaker/Assets/Scripts/Managers/Goal.cs:19-23 | without a player a frame throws and changes nothing |
| GoalLatch.OncePerStay | HellTaker/Assets/Scripts/Managers/Goal.cs:45-52 | over a run of frames the message is logged exactly on the frames where the player enters range, once per continuous stay |
| GoalLatch.Goal.constructor | HellTaker/Assets/Scripts/Managers/Goal.cs:12-17 | both flags start false |
| GoalLatch.Goal.Update | HellTaker/Assets/Scripts/Managers/Goal.cs:19-23 | flags and output are `Step` of the old flags |
| GoalLatch.Goal.CheckPlayerGoal | HellTaker/Assets/Scripts/Managers/Goal.cs:25-43 | the flags become `Proximity` of the old |
| GoalLatch.Goal.CheckIsGoal | HellTaker/Assets/Scripts/Managers/Goal.cs:45-52 | flags and log are `ClearLog` of the old |

## Left out

- Animation, tweens, audio, effects, sprites, backgrounds, the TextMeshPro texts' fonts and colours, and the fade coroutines. They drive no game state here; `IsAnimating` enters `PlayerMoves` only as a boolean input.
- Coroutine timing. Each coroutine is split at its waits: `RestartStage`/`FinishRestart`, `FinishNextStage`, and the spike animator's `PlayAnimation`/`Resume`, where each `Resume` stands for one elapsed wait. `EnableStageCoroutine` is folded into `InitializeStage` with the input manager present.
- The level reload and next-stage load inside the two transition coroutines. `Turns` does not call into `Levels`, so `Levels.LevelManager.ReloadStage`/`LoadNextStage` stand alone.
- `GridManager.ToggleThorns`, the `MoveObject(..., updateTransform)` overload and `GameManager.IsPendingGameOver`/`ExecutePendingGameOver` have no bodies in these files. They are parameters (`PlayerMoves.Hooks`, the `pending` flag); the model does not give them meaning.
- `Resources.Load` and `Resources.LoadAll`: the stage's text is a parameter, with `None` for a missing file. `Instantiate` is `Grid.GridManager.Instantiate`; prefab objects are reduced to their tag.
- `Input.GetAxisRaw`/`GetKey`/`GetKeyDown` polling: each frame's axes and keys are a `Frame` record. The legacy player and the prototype take the axes as parameters. The prototype's `Update` takes them after `Vector2.Normalize` as its parameter, so that normalisation to unit length is not modelled; `Prototype.UnitOf` is only the clean-up `Move` applies after zeroing one axis.
- Unity's deferred `Destroy`: objects die at once (`live := false`), and their grid entries stay until unregistered, as in the source.
- Singleton `Awake` boilerplate and the static `Instance` references: managers are passed as constructor arguments.
- Floating-point rounding: positions, offsets and tile sizes are reals, so `float.TryParse` is modelled only on plain decimals (no exponent, no culture).
- `Levels.LevelManager.LoadMapFromCSV`: requires the shape the source indexes without checking: at least two non-blank lines, at least three header fields, and rows not shorter than the width. A shorter file throws in the source.
- `Dialogue.DialogueManager.LoadDialogueData`: requires that the load does not throw. `LoadTable` returns `None` when `int.Parse` fails, a number-choice row lacks fields 5 to 8, or `Dictionary.Add` meets a duplicate id.
- `Dialogue.DialogueManager.AdvanceDialogue`: models the corrected advice exit (see Findings). `Dialogue.AdvanceAsWritten` is the code as written.
- `PlayerMoves.Player.UnlockBox`: it is unreachable from `TryMove` with these grid queries (`GridModel.PushableIsBlockOrMonster`), so no lemma relates it to a move.
- `Prototype`: every object in the pushable list carries a `Push` and every monster a `Monster`, so the `oPush &&` component guards always pass.
- `Prototype`: positions are reals and are compared component by component with `==`, exactly, as the source compares its float components; float rounding of `Translate` is not modelled.
- `Thorns.ThornToggleAnimator`: a missing frame strip is treated as an empty one.
- `LevelManager.Start`'s background sprite and the `TODO` epilogue numbering. The six parent transforms appear only as each scene object's `parented` flag. Stage 1's built-in objects are unparented and so survive a clear, as in the source, but they are not registered again.
- `Levels.LevelManager.GenerateMap`: requires `GoalReady`. With an empty `GoalPrefabs` array and a goal cell, the source throws at LevelManager.cs:262 part-way through the map; that partial map is not modelled (`GetGoalPrefab` returns `None` there).
- `Turns.GameManager.FinishRestart`: `DialogueDeathAnimator.HideGameOver` is not defined in the death animator's file. It is taken to change no modelled state, and to throw only when no death animator is assigned.
- `DialogueTable.ParseType`: `Enum.TryParse` also accepts a comma-separated list of names, OR-ing their values. `TypeOfName` matches one name only, so such a list does not parse in the model.
- `Levels.LevelManager.LoadNextStage`: it records the file name before clearing instead of after. `ClearCurrentMap` does not read it, so the result is the same.
- `Input.InputManager.HandleUIInput`: the StageSelect branch dispatches its calls but the stage-select screen itself is not modelled.

## Findings

| source | as written | input that shows it | evidently intended | confidence | as-written member | corrected member |
|---|---|---|---|---|---|---|
| HellTaker/Assets/Scripts/Managers/DialogueManager.cs:430-433 | an advice line whose next line is not an advice line ends the dialogue with `EndDialogue(false)`, so the input manager stays in the Advice UI and no input frame leads back to play | table {201: Advice, next 202; 202: Dialogue}, current id 201, input in UI/Advice, one confirm | the advice ends and the game resumes, as for an advice line with no successor (line 444) | not executed | Dialogue.AdviceExitStrandsInput | Dialogue.AdviceExitReturnsToGame |
| HellTaker/Assets/Scripts/Managers/GameManager.cs:213-230 | with no death animator assigned, the game-over path starts the restart coroutine, which sets the input to Transition and then calls `HideGameOver` on the missing animator, so the coroutine throws and the input stays in Transition | a move that spends the last move of the budget, with `dialogueDeathAnimator` unassigned | a null-guarded `HideGameOver`, so the coroutine still resets the stage and returns to Playing | not executed | Turns.GameOverStrandsWithoutAnimator | Turns.GuardedRestartReturnsToGame |
