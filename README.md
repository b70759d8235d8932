# Sokoban game engine and command-line parser, modelled in Dafny

This project models the two pieces of logic in the sokoban_game repository.

- **`GameController`** is the turn-based Sokoban engine. Its parts are:
  - `prepareLevel`, which normalises a level: it strips the PLAYER and CRATE
    spawn markers from the board, sets the crate flags and places the player;
  - the move resolver: bounds, walls and the GHOST power-up, pushing a crate
    (with STRENGTH for two crates), the PULL power-up, the one-point commit,
    the win check and the power-up pick-up;
  - the lifecycle operations: `startGame`, `nextLevel`, `stopGame`,
    `resetLevel`, `togglePause` and `enableInput`, with lives, the level
    score, the total score and the notifications the listeners receive.
- **`CommandLineParser.parse`** parses the command line:
  - long options `--name` and `--name=value`;
  - clusters of shorthands such as `-abc`, `-nvalue` and `-n value`;
  - number values read with `Integer.valueOf`;
  - defaults for every option that was not given;
  - `buildOptionList`, which reads the `@CommandLineArgument` fields of an
    options class.

Files:

- `basics.dfy` (`Basics`): `Option` for Java references that may be null, and
  `Result` for calls that may throw.
- `game_types.dfy` (`GameTypes`): the tiles, power-ups, directions, positions,
  crate deltas, levels, listener events, and `Game`, a snapshot of every field
  of the controller.
- `game_spec.dfy` (`GameSpec`): one function per controller operation, written
  branch by branch after the Java. It maps the fields before the call to the
  fields after it, the listener calls made in order, and how the call ended.
  Its lemmas describe `prepareLevel`.
- `game_controller.dfy` (`Controller`): the class `GameController`. It keeps
  the board in an `array2<Tile>` and the crate flags in an `array2<bool>`, and
  the other fields as the Java does. `prepareLevel` fills the arrays in nested
  loops. Crate flags are flipped in place. A ghost `trace` stands in for the
  two listener lists and records each notification in dispatch order. Every
  method is proved to change the fields and the trace exactly as its
  `GameSpec` function says.
- `game_properties.dfy` (`GameProperties`): the engine's promises, proved
  about the `GameSpec` functions.
- `cli_integer.dfy` (`Decimal`): `Integer.valueOf` over ASCII decimal text,
  with a round trip against `Show`.
- `cli_parser.dfy` (`CommandLine`):
  - the options class is a sequence of field declarations;
  - the object being filled is a map from field name to value;
  - `Field.set` is a map update that fails when the value does not fit the
    field's type;
  - each exception is an `Err`.

  Functions say what each step computes. The methods `BuildOptionList`,
  `ParseShortArgs`, `ApplyDefaults` and `Parse` are the source's loops, proved
  to compute exactly that.
- `cli_properties.dfy` (`CommandLineProperties`): the parser's promises,
  proved about those functions.

How exceptions and quirks are modelled:

- A `move` that would throw in Java ends with the outcome `Fault`. This covers
  an index outside the arrays and a null reference. Rejected moves end with
  `Blocked`, and moves dropped by the input gate end with `Ignored`. No wall
  border is required of levels.
- The bounds test keeps the source's `>` (`GameController.java:342`). A target
  exactly one past the last column or row passes it, and the board access on
  line 346 then faults with nothing changed (`BoundsAndWallsReject`).
- STRENGTH is modelled as written. It sets the crate flag two cells ahead
  without checking what is there, so a crate already there is lost. The
  matched count of lines 374-377 follows only a crate going from the target
  to the next cell, while the crates really go from the target to the cell
  two steps ahead. So whenever the next cell and the cell two steps ahead
  differ in being a TARGET_SPOT, numMatched drifts, even with the far cell
  free (`PushMovesCrate`, `DoublePushDrifts`). The drift can make the win
  test of line 404 pass while a crate stands off its target, and the level
  is then reported solved (`DoublePushFalseWin`).
- PULL is modelled as written. It tests `crates[ny-ym][nx-xm]`, which is the
  player's own cell before the move. It copies the push's delta and
  matched-count cells, and its delta set replaces the push's. A level with a
  spawn point puts no crate under the player, and no move ever puts one
  there: the player steps onto the cell the push has just cleared, and every
  pushed crate lands ahead of it. So PULL never fires and is never spent
  (`MoveKeepsPlayerCellFree`, `PullNeverSpent`).
- The pick-up after a win reads the board then in place, which is the new
  level's board (`ConcludeOutcome`).
- `resetLevel` keeps the power-ups and the level score. It re-enables input
  even while paused (`ResetLevelSpendsLife`).
- `startGame` has no "not running" guard in the source, and the model adds
  none.
- `stopGame` adds the level score into the total (line 259) and reports that
  sum in game-stopped (line 260). It then clears lives, both scores, the
  level and its index (lines 262-267) (`StopGameClears`).
- The power-up set is `null` until the first successful `startGame`. A move
  that reaches line 346 or 348 before then faults (`BoundsAndWallsReject`).
- `CommandLineArgumentType` appears in the source only as FLAG and NUMBER.
  The model's third value, `Text`, stands for any other kind, whose values are
  kept as strings.

## Model

| member | source | states |
|---|---|---|
| GameTypes.Offset | src/src/main/java/elkaproj/game/GameController.java:319-336 | each direction is a unit step along one axis: RIGHT is x+1, LEFT x-1, UP y-1, DOWN y+1 |
| GameTypes.InitialGame | src/src/main/java/elkaproj/game/GameController.java:23-37 | a fresh controller has level index -1, no level, input accepted, not paused, no power-up set, and an empty board |
| GameSpec.NormalizeTile | src/src/main/java/elkaproj/game/GameController.java:223-228 | the board never keeps a PLAYER or CRATE tile, and every other tile is copied unchanged |
| GameSpec.ScanPlayerFindsLast | src/src/main/java/elkaproj/game/GameController.java:211-225 | the player ends on the last PLAYER cell in row-major order, or keeps its previous position if the level has none |
| GameSpec.PrepareLevelBoard | src/src/main/java/elkaproj/game/GameController.java:206-228 | the new board has the level's size, and each cell holds the level tile with its spawn markers replaced by FLOOR |
| GameSpec.PrepareLevelCrates | src/src/main/java/elkaproj/game/GameController.java:202-222 | a crate flag is set exactly on the CRATE cells, numCrates counts them, numMatched is 0 and input is on |
| GameSpec.PrepareLevelPlayer | src/src/main/java/elkaproj/game/GameController.java:223-225 | the player is on the last PLAYER cell in row-major order, or where it was if the level has none |
| GameSpec.PrepareLevelFits | src/src/main/java/elkaproj/game/GameController.java:206-230 | the board has the level's size and every crate flag lies on it |
| GameSpec.PrepareLevelNormalizes | src/src/main/java/elkaproj/game/GameController.java:201-232 | all of prepareLevel at once: no spawn markers are left, the crate flags and count are right, the player is placed, and no other field changes |
| GameSpec.InitialGameInv | src/src/main/java/elkaproj/game/GameController.java:45-48 | a fresh controller satisfies the field invariant |
| GameSpec.NextLevelInternal | src/src/main/java/elkaproj/game/GameController.java:184-199 | advancing the level keeps the field invariant |
| GameSpec.NextLevel | src/src/main/java/elkaproj/game/GameController.java:173-182 | nextLevel keeps the field invariant |
| GameSpec.StartGame | src/src/main/java/elkaproj/game/GameController.java:237-248 | startGame keeps the field invariant |
| GameSpec.StopGame | src/src/main/java/elkaproj/game/GameController.java:255-268 | stopGame leaves the board, the crate flags, the counts, the player and the power-ups untouched |
| GameSpec.LifecycleKeepsInv | src/src/main/java/elkaproj/game/GameController.java:255-307 | stopGame, togglePause and enableInput keep the field invariant |
| GameSpec.ResetLevel | src/src/main/java/elkaproj/game/GameController.java:288-298 | resetLevel keeps the field invariant |
| GameSpec.MatchedChange | src/src/main/java/elkaproj/game/GameController.java:374-377 | the matched count changes by +1 when a crate moves onto TARGET_SPOT from elsewhere, by -1 in the reverse case, and by 0 otherwise |
| GameSpec.SameLayoutKeepsInv | src/src/main/java/elkaproj/game/GameController.java:350-397 | changing only fields other than the level, its index, the board and the crates keeps the invariant |
| GameSpec.SameGroundKeepsInv | src/src/main/java/elkaproj/game/GameController.java:350-397 | a crate stage keeps the invariant |
| GameSpec.PushCrate | src/src/main/java/elkaproj/game/GameController.java:351-378 | the push stage leaves the board, level, scores, lives, player and crate count as they were, and keeps every crate on the board |
| GameSpec.PullCrate | src/src/main/java/elkaproj/game/GameController.java:380-397 | the pull stage leaves the same fields alone and keeps every crate on the board |
| GameSpec.Pickup | src/src/main/java/elkaproj/game/GameController.java:409-412 | only the three pick-up tiles grant a power-up |
| GameSpec.CompleteLevel | src/src/main/java/elkaproj/game/GameController.java:404-407 | the level change after a win keeps the field invariant |
| GameSpec.Conclude | src/src/main/java/elkaproj/game/GameController.java:398-412 | the commit keeps the field invariant |
| GameSpec.CrateStages | src/src/main/java/elkaproj/game/GameController.java:350-397 | push then pull leave the board, level, scores, lives and player as they were |
| GameSpec.Resolve | src/src/main/java/elkaproj/game/GameController.java:350-412 | the crate stages plus the commit keep the field invariant |
| GameSpec.Move | src/src/main/java/elkaproj/game/GameController.java:314-413 | every move, whatever its outcome, keeps the field invariant |
| Controller.SetFlag | src/src/main/java/elkaproj/game/GameController.java:363-369 | writing one crate flag adds the cell to, or removes it from, the set the array holds |
| Controller.LoadGrid | src/src/main/java/elkaproj/game/GameController.java:207-230 | the nested loops of prepareLevel build arrays holding the normalised board and the CRATE cells, count them, and place the player as the scan does |
| Controller.LoadRow | src/src/main/java/elkaproj/game/GameController.java:215-229 | one pass of the inner loop loads row y |
| Controller.LoadCell | src/src/main/java/elkaproj/game/GameController.java:216-228 | one cell is copied with its marker stripped, and a crate there is flagged and counted |
| Controller.LoadedGrid | src/src/main/java/elkaproj/game/GameController.java:211-230 | once every row is loaded, the arrays hold exactly the normalised board and the CRATE cells |
| Controller.AppendAssoc | src/src/main/java/elkaproj/game/GameController.java:237-248 | helper of StartGame and Commit: notifications appended to the trace in two steps give the same trace as appended in one |
| GameSpec.ConcludeSplit | src/src/main/java/elkaproj/game/GameController.java:398-412 | the commit splits into notify, win check and pick-up, the order the controller follows |
| Controller.TiedKept | src/src/main/java/elkaproj/game/GameController.java:259-267 | helper of EndGame, SpendLife, EnterLevel, BeginGame, Commit and Move: writes to scalar fields leave the arrays tied to the ghost board and crate set |
| Controller.GameController.constructor | src/src/main/java/elkaproj/game/GameController.java:45-48 | a new controller holds the configuration and the pack, its fields match InitialGame, and its trace is empty |
| Controller.GameController.CurrentLives | src/src/main/java/elkaproj/game/GameController.java:64-66 | getCurrentLives returns the lives field |
| Controller.GameController.PowerUps | src/src/main/java/elkaproj/game/GameController.java:73-75 | getPowerUps returns null before the first successful startGame and the active set afterwards |
| Controller.GameController.MaxLives | src/src/main/java/elkaproj/game/GameController.java:82-84 | getMaxLives returns the configured maximum |
| Controller.GameController.CurrentScore | src/src/main/java/elkaproj/game/GameController.java:91-93 | getCurrentScore returns the level score |
| Controller.GameController.CurrentLevel | src/src/main/java/elkaproj/game/GameController.java:100-102 | getCurrentLevel returns the current level or null |
| Controller.GameController.TotalScore | src/src/main/java/elkaproj/game/GameController.java:109-111 | getTotalScore returns the banked total |
| Controller.GameController.IsGameRunning | src/src/main/java/elkaproj/game/GameController.java:118-120 | a game runs exactly when the level index is at least 0 |
| Controller.GameController.IsPaused | src/src/main/java/elkaproj/game/GameController.java:127-129 | isPaused returns the pause flag |
| Controller.GameController.PrepareLevel | src/src/main/java/elkaproj/game/GameController.java:201-232 | fresh arrays are built from the current level, exactly as GameSpec.PrepareLevel says; with no current level the call throws after clearing the counts and enabling input |
| Controller.GameController.Install | src/src/main/java/elkaproj/game/GameController.java:207-225 | the arrays and values the loops produced become the controller's fields |
| Controller.GameController.EnterLevel | src/src/main/java/elkaproj/game/GameController.java:188-196 | the score is banked, the level is loaded, and score-updated then a full redraw are appended to the trace |
| Controller.GameController.NextLevelInternal | src/src/main/java/elkaproj/game/GameController.java:184-199 | fields, trace and result are exactly GameSpec.NextLevelInternal's |
| Controller.GameController.NextLevel | src/src/main/java/elkaproj/game/GameController.java:173-182 | fields, trace and result are exactly GameSpec.NextLevel's |
| Controller.GameController.BeginGame | src/src/main/java/elkaproj/game/GameController.java:241-247 | lives start at the configured value, both scores and the power-ups are cleared, and game-started then lives-updated are appended |
| Controller.GameController.StartGame | src/src/main/java/elkaproj/game/GameController.java:237-248 | fields, trace and the throw are exactly GameSpec.StartGame's |
| Controller.GameController.StopGame | src/src/main/java/elkaproj/game/GameController.java:255-268 | fields and trace are exactly GameSpec.StopGame's |
| Controller.GameController.EndGame | src/src/main/java/elkaproj/game/GameController.java:259-267 | with a game running: game-stopped(total + score, completed) is appended, then lives, both scores, the level and its index are cleared, and nothing else changes |
| Controller.GameController.EnableInput | src/src/main/java/elkaproj/game/GameController.java:305-307 | only the input gate changes |
| Controller.GameController.TogglePause | src/src/main/java/elkaproj/game/GameController.java:273-283 | fields and trace are exactly GameSpec.TogglePause's |
| Controller.GameController.ResetLevel | src/src/main/java/elkaproj/game/GameController.java:288-298 | fields, trace and the throw are exactly GameSpec.ResetLevel's |
| Controller.GameController.SpendLife | src/src/main/java/elkaproj/game/GameController.java:290-294 | one life is lost, and lives-updated with the new count then a null-delta redraw are appended; nothing else changes |
| Controller.GameController.ShiftFlag | src/src/main/java/elkaproj/game/GameController.java:368-369 | one crate flag moves from src to dst in the array |
| Controller.GameController.CountMatch | src/src/main/java/elkaproj/game/GameController.java:374-377 | the matched count changes by MatchedChange of the two static tiles |
| Controller.GameController.Shove | src/src/main/java/elkaproj/game/GameController.java:361-377 | the crate moves one step; with a crate behind, a flag is set one step further and STRENGTH is spent |
| Controller.GameController.PushStage | src/src/main/java/elkaproj/game/GameController.java:351-378 | the push stage, on the arrays, does exactly what GameSpec.PushCrate says |
| Controller.GameController.PullStage | src/src/main/java/elkaproj/game/GameController.java:380-397 | the pull stage, on the arrays, does exactly what GameSpec.PullCrate says |
| Controller.GameController.CompleteLevel | src/src/main/java/elkaproj/game/GameController.java:404-407 | fields and trace are exactly GameSpec.CompleteLevel's |
| Controller.GameController.CollectPickup | src/src/main/java/elkaproj/game/GameController.java:409-412 | the power-up of the tile under the player on the current board is added; off that board the call faults with nothing changed |
| Controller.GameController.Commit | src/src/main/java/elkaproj/game/GameController.java:398-412 | fields, trace and outcome are exactly GameSpec.Conclude's |
| Controller.GameController.Move | src/src/main/java/elkaproj/game/GameController.java:314-413 | fields, trace and outcome are exactly GameSpec.Move's |
| Controller.GameController.ResolveMove | src/src/main/java/elkaproj/game/GameController.java:350-412 | fields, trace and outcome are exactly GameSpec.Resolve's |
| GameProperties.CardRemove | src/src/main/java/elkaproj/game/GameController.java:360-377 | set-size helper of PushMovesCrate and OnTargetsSwap: removing a member lowers a set's size by one |
| GameProperties.CardSwap | src/src/main/java/elkaproj/game/GameController.java:360-377 | set-size helper of PushMovesCrate: swapping a member for a non-member keeps a set's size |
| GameProperties.CardSubset | src/src/main/java/elkaproj/game/GameController.java:404 | set-size helper of WinMeansAllCratesOnTargets: a subset is no larger, and one of equal size is the whole set |
| GameProperties.MoveGated | src/src/main/java/elkaproj/game/GameController.java:314-316 | with no game running or input off, a move changes nothing and notifies nobody |
| GameProperties.TogglePauseGatesInput | src/src/main/java/elkaproj/game/GameController.java:273-283 | after togglePause, input is accepted exactly when not paused, and pause or resume is emitted to match; nothing else changes |
| GameProperties.BoundsAndWallsReject | src/src/main/java/elkaproj/game/GameController.java:338-347 | a target failing the `>` bounds test, or a WALL without GHOST, is rejected with no change; x == width or y == height passes the test and faults with no change |
| GameProperties.MovePastWallCheck | src/src/main/java/elkaproj/game/GameController.java:345-348 | past the wall check, GHOST is removed before the crate stages run |
| GameProperties.MoveStoppedEarly | src/src/main/java/elkaproj/game/GameController.java:314-347 | a move stopped by the gate, the bounds or the wall changes nothing and notifies nobody |
| GameProperties.CrateStagesOnlySpend | src/src/main/java/elkaproj/game/GameController.java:350-397 | the crate stages only remove power-ups, and when they stop the move it is rejected or faulted |
| GameProperties.CompleteLevelKeepsPowerUps | src/src/main/java/elkaproj/game/GameController.java:404-407 | a level change never touches the power-ups |
| GameProperties.CompleteLevelAdvances | src/src/main/java/elkaproj/game/GameController.java:404-405 | with a level left, the win banks the score, loads it, and emits score-updated, a full redraw and next-level |
| GameProperties.CompleteLevelStops | src/src/main/java/elkaproj/game/GameController.java:404-406 | with no level left, the win emits game-stopped(total + score, true) and clears the game |
| GameProperties.CompleteLevelReports | src/src/main/java/elkaproj/game/GameController.java:404-407 | the win is reported as one of those two, and the power-ups are kept |
| GameProperties.ConcludeNotifies | src/src/main/java/elkaproj/game/GameController.java:398-403 | the commit emits score-updated(score+1) then board-ready with the player on the target; without a win that is all, and the pick-up is collected |
| GameProperties.ConcludeOutcome | src/src/main/java/elkaproj/game/GameController.java:404-412 | the pick-up is read after the win check from the board then in place, and nothing else is gained |
| GameProperties.ConcludeWins | src/src/main/java/elkaproj/game/GameController.java:398-407 | a commit with every crate matched reports the level change after the two move notifications |
| GameProperties.ResolveScoresOne | src/src/main/java/elkaproj/game/GameController.java:350-402 | a move stopped by the crate stages scores nothing; one that gets through scores exactly one point |
| GameProperties.ResolveWins | src/src/main/java/elkaproj/game/GameController.java:398-407 | extra notifications after the crate stages mean the win was reported |
| GameProperties.ResolveCollectsPickup | src/src/main/java/elkaproj/game/GameController.java:409-412 | past the crate stages, only the pick-up under the target is gained |
| GameProperties.GhostSpentPastWallCheck | src/src/main/java/elkaproj/game/GameController.java:345-348 | once past the wall check, GHOST is gone after the move, even if it is then rejected, unless the move lands on a GHOST pick-up |
| GameProperties.ScoresPastWallCheck | src/src/main/java/elkaproj/game/GameController.java:398-402 | past the wall check, a move scores one point and emits score then board, or scores nothing and emits nothing |
| GameProperties.AcceptedMoveScoresOne | src/src/main/java/elkaproj/game/GameController.java:398-402 | for every move: no notification means no point and no change of player, score or level; otherwise exactly one point, score-updated first, then board-ready with the player on the target |
| GameProperties.WinPastWallCheck | src/src/main/java/elkaproj/game/GameController.java:404-407 | past the wall check, extra notifications mean a reported win |
| GameProperties.WinAdvancesBeforePickup | src/src/main/java/elkaproj/game/GameController.java:398-412 | every move with more than two notifications matched the last crate, and its extra notifications are the level change (advance or completed stop) |
| GameProperties.MovedCollectsPickup | src/src/main/java/elkaproj/game/GameController.java:409-412 | an accepted move gains exactly the pick-up under the target on the board in place after the win check; other moves gain nothing |
| GameProperties.PushRejected | src/src/main/java/elkaproj/game/GameController.java:352-359 | a crate with a WALL behind, or another crate behind without STRENGTH, rejects the move with player, crates and score unchanged; only GHOST is spent |
| GameProperties.PushMovesCrate | src/src/main/java/elkaproj/game/GameController.java:360-377 | the crate moves one step and one delta is recorded; without a crate behind the count is kept; with STRENGTH the far crate goes two steps, STRENGTH is spent, and a crate already there is lost |
| GameProperties.OnTargets | src/src/main/java/elkaproj/game/GameController.java:374-377 | reference definition, not a contract: the crates whose static tile is TARGET_SPOT, the set numMatched is proved to count |
| GameProperties.WinMeansAllCratesOnTargets | src/src/main/java/elkaproj/game/GameController.java:404 | while the counts track the crates, 0 <= numMatched <= numCrates, and the win test holds exactly when every crate is on a TARGET_SPOT |
| GameProperties.PrepareLevelTracks | src/src/main/java/elkaproj/game/GameController.java:202-228 | after prepareLevel, numCrates and numMatched = 0 are exact, because crate spawn cells become FLOOR |
| GameProperties.OnTargetsSwap | src/src/main/java/elkaproj/game/GameController.java:374-377 | moving one crate to a free cell changes the crates on targets by what the two static tiles say |
| GameProperties.PushKeepsTracking | src/src/main/java/elkaproj/game/GameController.java:367-377 | a push without a crate behind keeps numCrates and numMatched exact |
| GameProperties.PullFindsNothing | src/src/main/java/elkaproj/game/GameController.java:381-383 | with no crate on the player's pre-move cell, PULL changes nothing and is not spent |
| GameProperties.PrepareLevelClearsPlayerCell | src/src/main/java/elkaproj/game/GameController.java:218-225 | a level with a spawn point puts no crate under the player |
| GameProperties.NextLevelKeepsInvariants | src/src/main/java/elkaproj/game/GameController.java:184-199 | nextLevel keeps exact counts exact and a free player cell free: a loaded level starts both right, and running out of levels changes neither |
| GameProperties.ConcludeKeepsInvariants | src/src/main/java/elkaproj/game/GameController.java:398-412 | a commit onto a crate-free cell leaves the player's cell free, and keeps exact counts exact, across a level change too |
| GameProperties.CrateStagesSkipPull | src/src/main/java/elkaproj/game/GameController.java:380-397 | with no crate under the player, the pull stage finds nothing and PULL stays held |
| GameProperties.CrateStagesKeepTracking | src/src/main/java/elkaproj/game/GameController.java:350-397 | without a double push, the crate stages keep the counts exact |
| GameProperties.MoveKeepsPlayerCellFree | src/src/main/java/elkaproj/game/GameController.java:314-413 | every move, double pushes included, keeps the player's cell free of crates |
| GameProperties.MoveKeepsTracking | src/src/main/java/elkaproj/game/GameController.java:314-413 | every move except a STRENGTH double push keeps numCrates and numMatched exact |
| GameProperties.DoublePushDrifts | src/src/main/java/elkaproj/game/GameController.java:361-377 | a double push onto a crate two cells ahead loses it while numCrates stays; onto a free cell, numCrates stays exact and numMatched is off by the TARGET_SPOT indicator of the next cell minus that of the cell two ahead, so the counts stay exact exactly when those two cells agree |
| GameProperties.DoublePushMatchesAll | src/src/main/java/elkaproj/game/GameController.java:350-397 | pushing the last unmatched crate with STRENGTH into a crate on a TARGET_SPOT, with a free cell beyond, leaves numMatched == numCrates and a crate on the far cell |
| GameProperties.DoublePushResolves | src/src/main/java/elkaproj/game/GameController.java:350-407 | the stages and commit of that push report the win |
| GameProperties.DoublePushFalseWin | src/src/main/java/elkaproj/game/GameController.java:314-407 | a move making that push passes the win test of line 404 and reports the level solved while the crate two cells ahead stands on a tile other than TARGET_SPOT |
| GameProperties.PullNeverSpent | src/src/main/java/elkaproj/game/GameController.java:380-397 | because line 383 tests the player's own cell, PULL once held is never spent |
| GameProperties.NextLevelAdvances | src/src/main/java/elkaproj/game/GameController.java:173-199 | the index always increments; past the last level the result is false and nothing else changes; otherwise the score is banked and reset, and score-updated and a null-delta redraw are emitted; nextLevel adds next-level(previous level, its score) |
| GameProperties.StartGameResets | src/src/main/java/elkaproj/game/GameController.java:237-248 | an empty pack throws; otherwise lives are the starting lives, both scores are 0, the power-ups are empty, and game-started and lives-updated follow the level's notifications |
| GameProperties.StopGameClears | src/src/main/java/elkaproj/game/GameController.java:255-268 | stopGame is a no-op when no game runs; otherwise it emits game-stopped(total + score) and then clears lives, both scores and the level index |
| GameProperties.ResetLevelSpendsLife | src/src/main/java/elkaproj/game/GameController.java:288-298 | with lives >= 1, exactly one life is spent and lives-updated then a full redraw are emitted; with 0 lives the game stops as not completed; power-ups and the score are kept, and input is re-enabled |
| Decimal.DigitValue | src/src/main/java/elkaproj/config/commandline/CommandLineParser.java:154 | a digit's value is below ten |
| Decimal.DigitChar | src/src/main/java/elkaproj/config/commandline/CommandLineParser.java:154 | each value below ten has a digit character that reads back as that value |
| Decimal.ParseInt | src/src/main/java/elkaproj/config/commandline/CommandLineParser.java:154 | Integer.valueOf only ever yields 32-bit ints |
| Decimal.NatDigits | src/src/main/java/elkaproj/config/commandline/CommandLineParser.java:154 | the decimal form of a natural number is one or more digits |
| Decimal.NatDigitsValue | src/src/main/java/elkaproj/config/commandline/CommandLineParser.java:154 | the decimal digits of n spell n |
| Decimal.ParseShow | src/src/main/java/elkaproj/config/commandline/CommandLineParser.java:154 | every int is read back from its decimal form |
| Decimal.ParseRejects | src/src/main/java/elkaproj/config/commandline/CommandLineParser.java:224-226 | the empty string, a lone sign and any non-digit after the sign are not integers |
| Decimal.ParseRejectsOverflow | src/src/main/java/elkaproj/config/commandline/CommandLineParser.java:154 | values outside the 32-bit range are not integers |
| CommandLine.SetField | src/src/main/java/elkaproj/config/commandline/CommandLineParser.java:157 | reference definition, not a contract: Field.set as a map update that succeeds exactly when the value fits the field's type; SetValueForStores and DefaultsFill are proved about it |
| CommandLine.IndexOf | src/src/main/java/elkaproj/config/commandline/CommandLineParser.java:82 | indexOf gives the first '=' or -1 when there is none |
| CommandLine.BuildOptionList | src/src/main/java/elkaproj/config/commandline/CommandLineParser.java:197-236 | the loop over the declared fields yields exactly BuildOptions: the annotated fields' arguments, or the first refusal |
| CommandLine.BuildOptionsPrefixErr | src/src/main/java/elkaproj/config/commandline/CommandLineParser.java:226-229 | the first field that throws decides the result |
| CommandLine.ParseShortArgs | src/src/main/java/elkaproj/config/commandline/CommandLineParser.java:118-149 | the letter loop with its early return and break yields exactly ShortArgs |
| CommandLine.ApplyDefaults | src/src/main/java/elkaproj/config/commandline/CommandLineParser.java:63-76 | the defaulting loop yields exactly Defaults |
| CommandLine.Parse | src/src/main/java/elkaproj/config/commandline/CommandLineParser.java:17-79 | the token loop with its carried state, then the defaulting, yields exactly ParseOf |
| CommandLineProperties.Annotated | src/src/main/java/elkaproj/config/commandline/CommandLineParser.java:200-203 | only annotated fields are kept |
| CommandLineProperties.ArgumentOfDeclares | src/src/main/java/elkaproj/config/commandline/CommandLineParser.java:205-233 | one annotated field is refused exactly when its type is not boolean, String or int, or its int default does not parse; otherwise its argument carries the annotation and the converted default |
| CommandLineProperties.BuildOptionsRefuses | src/src/main/java/elkaproj/config/commandline/CommandLineParser.java:197-236 | buildOptionList fails exactly when some annotated field has another type or an int default that does not parse |
| CommandLineProperties.BuildOptionsDeclares | src/src/main/java/elkaproj/config/commandline/CommandLineParser.java:197-236 | on success there is one argument per annotated field, in order, with boolean defaults false, an empty String default null, and int defaults parsed |
| CommandLineProperties.DefaultsFit | src/src/main/java/elkaproj/config/commandline/CommandLineParser.java:213-227 | every default buildOptionList makes fits its field, and a FLAG's false fits exactly a boolean field |
| CommandLineProperties.IndexByNameOk | src/src/main/java/elkaproj/config/commandline/CommandLineParser.java:20-21 | the map by full name exists exactly when no full name repeats |
| CommandLineProperties.IndexByNameHolds | src/src/main/java/elkaproj/config/commandline/CommandLineParser.java:20-21 | that map holds every argument under its full name and nothing else |
| CommandLineProperties.IndexByShorthandResult | src/src/main/java/elkaproj/config/commandline/CommandLineParser.java:23-25 | the map by shorthand holds every argument that has one under it, and nothing else |
| CommandLineProperties.TokensAppend | src/src/main/java/elkaproj/config/commandline/CommandLineParser.java:39-58 | the token loop over two runs of tokens is the loop over the first, then over the second from where it stopped |
| CommandLineProperties.TokenMustBeOption | src/src/main/java/elkaproj/config/commandline/CommandLineParser.java:48-49 | a token not taken as a pending value must start with '-', otherwise parsing fails with "Invalid option" |
| CommandLineProperties.PendingTakesNextToken | src/src/main/java/elkaproj/config/commandline/CommandLineParser.java:40-46 | a waiting shorthand takes the next token verbatim, even one starting with '-' |
| CommandLineProperties.LongFlag | src/src/main/java/elkaproj/config/commandline/CommandLineParser.java:81-111 | `--name` sets a FLAG argument's boolean field to true and marks it processed |
| CommandLineProperties.LongValue | src/src/main/java/elkaproj/config/commandline/CommandLineParser.java:86-115 | `--name=value` passes everything after the first '=' (possibly empty) to setValueFor for a non-FLAG argument |
| CommandLineProperties.LongRejects | src/src/main/java/elkaproj/config/commandline/CommandLineParser.java:86-100 | an empty name, an unknown name, a value for a FLAG, or no value for any other argument raises the matching exception |
| CommandLineProperties.ShortArgsSplit | src/src/main/java/elkaproj/config/commandline/CommandLineParser.java:122-137 | FLAG letters are handled one at a time, so a cluster is its flag prefix followed by the rest |
| CommandLineProperties.ShortFlagsSet | src/src/main/java/elkaproj/config/commandline/CommandLineParser.java:122-137 | a cluster of FLAG letters sets each of their fields to true, marks them processed, and leaves every other field alone |
| CommandLineProperties.ShortValueLetter | src/src/main/java/elkaproj/config/commandline/CommandLineParser.java:138-145 | the first non-FLAG letter takes the rest of the cluster as its value, unexamined; as the last letter it waits for the next token |
| CommandLineProperties.ShortUnknownLetter | src/src/main/java/elkaproj/config/commandline/CommandLineParser.java:122-125 | an unknown letter raises the exception |
| CommandLineProperties.SetValueForStores | src/src/main/java/elkaproj/config/commandline/CommandLineParser.java:151-161 | a NUMBER value is stored as the int Integer.valueOf reads, and non-integer text raises the exception; other values are stored as text in a String field |
| CommandLineProperties.NumberRoundTrip | src/src/main/java/elkaproj/config/commandline/CommandLineParser.java:153-157 | an int written in decimal is stored as that int |
| CommandLineProperties.DefaultsFill | src/src/main/java/elkaproj/config/commandline/CommandLineParser.java:63-76 | defaulting succeeds exactly when every unset argument accepts its default; each unset argument then holds its default (false for a FLAG), and every set field keeps its parsed value |
| CommandLineProperties.ParseEnds | src/src/main/java/elkaproj/config/commandline/CommandLineParser.java:60-76 | after the tokens, a waiting shorthand fails with "Missing value", otherwise the defaults are filled in |
| CommandLineProperties.MissingValueAtEnd | src/src/main/java/elkaproj/config/commandline/CommandLineParser.java:60-61 | a final `-c` for a non-FLAG shorthand fails with "Missing value for c" |

## Left out

- The listener objects and their add/remove methods (`GameController.java:136-166`) are left out. Each dispatcher's loop over its handlers becomes one entry appended to the ghost trace. Exceptions thrown by listeners are not modelled.
- `DebugWriter` logging (line 277), the unused `gameClock`, and the write-only `currentStreak` are left out.
- The board listeners receive the live arrays. The trace records the crate cells and the player position at the moment of the call, not the array references.
- Level packs and configuration are immutable values given to the constructor. `ILevelPack`, `ILevel` and `IConfiguration` are not part of this model.
- GameSpec.NextLevelInternal: its own contract states only that the invariant is kept. Its behaviour is stated by `NextLevelAdvances`.
- GameSpec.Move: its own contract states only that the invariant is kept. Its behaviour is stated by the `GameProperties` lemmas.
- GameProperties.MoveKeepsTracking: excludes a STRENGTH double push, because in the source as written that push breaks the counts in two ways. A crate already two cells ahead is lost (line 363) while numCrates stays. And lines 374-377 count the crate as going to the next cell rather than two cells ahead, so numMatched drifts whenever those two cells differ in being a TARGET_SPOT, even with the far cell free; that can end in a false win (`DoublePushDrifts`, `DoublePushFalseWin`).
- The engine's `int` fields are unbounded integers in the model, not Java's 32-bit `int`. `currentScore++` (line 399), `totalScore +=` (lines 189 and 259) and `++currentLevelNumber` (line 185, which keeps counting on every `nextLevel` past the end) wrap at Integer.MAX_VALUE in Java. So GameProperties.AcceptedMoveScoresOne ("exactly one point") and GameProperties.NextLevelAdvances ("the index always increments") hold in Java only below that bound.
- GameSpec.Inv: every GameSpec function and the controller's constructor assume the level collaborator hands out grids of exactly height rows of width tiles (`PackWellFormed`). The source accepts any `ILevel`, and a shorter grid throws at line 216; that exception is not modelled.
- GameProperties.MoveKeepsPlayerCellFree, MoveKeepsTracking, NextLevelKeepsInvariants and ConcludeKeepsInvariants also assume that every level has a PLAYER tile (`PackHasPlayers`). In the source a level without one keeps the previous player position, which may sit on one of the new level's crates, after which PULL does fire.
- `printHelp` is left out, because it only writes to a `PrintStream`. The annotation's `helpText` is read only by `printHelp`, so it is left out too.
- Reflection is modelled as data:
  - `getDeclaredFields` is a given sequence of field declarations;
  - the no-argument constructor is a given `Option` of the object it makes;
  - `Field.set` is a map update, checked against the field's kind (boolean, String, int, or other).
  - Boxed and primitive field types are not told apart, because null only ever reaches String fields.
- Decimal.ParseInt: reads ASCII digits only. `Integer.valueOf` also accepts other Unicode decimal digits.
- `Collectors.toMap`'s duplicate-key exception is modelled as the `DuplicateKey` error, not by its message.
