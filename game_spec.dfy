/**
 * GameController.java as functions over the `Game` snapshot: one function
 * per operation, each taking the fields before the call and giving the
 * fields after it, the listener calls it made in order, and how it ended.
 * The class in game_controller.dfy is proved to do exactly this.
 */
module GameSpec {
  import opened Basics
  import opened GameTypes

  /** A lifecycle operation's effect. `ok` is the Java return value of
      nextLevel/nextLevelInternal; for startGame and resetLevel, false
      means the call threw. */
  datatype Transition = Transition(game: Game, events: seq<Event>, ok: bool)

  /** An operation that always completes. */
  datatype Effect = Effect(game: Game, events: seq<Event>)

  /** The effect of one call of `move`. */
  datatype Step = Step(game: Game, events: seq<Event>, outcome: MoveOutcome)

  /** Between the crate stages of `move`: carry on with this state and
      delta set, or leave `move` with this state and outcome. */
  datatype Stage = Continue(game: Game, deltas: Option<set<Delta>>) | Stop(game: Game, outcome: MoveOutcome)

  // ---------------------------------------------------------------------
  // Levels and their normalisation (prepareLevel)
  // ---------------------------------------------------------------------

  predicate PackWellFormed(pack: seq<Level>) {
    forall i :: 0 <= i < |pack| ==> pack[i].WellFormed()
  }

  predicate IsCell(tiles: seq<seq<Tile>>, p: Pos) {
    0 <= p.y < |tiles| && 0 <= p.x < |tiles[p.y]|
  }

  predicate HasTile(tiles: seq<seq<Tile>>, p: Pos, t: Tile) {
    IsCell(tiles, p) && tiles[p.y][p.x] == t
  }

  /** The level has a spawn point. */
  ghost predicate HasPlayer(l: Level) {
    exists q :: HasTile(l.tiles, q, Player)
  }

  /** Row-major order, the order in which prepareLevel visits the cells. */
  predicate Before(p: Pos, q: Pos) {
    p.y < q.y || (p.y == q.y && p.x < q.x)
  }

  /** The static tile that prepareLevel leaves in a cell of the board. */
  function NormalizeTile(t: Tile): (r: Tile)
    ensures r != Player && r != Crate
    ensures t != Player && t != Crate ==> r == t
  {
    if t == Player || t == Crate then Floor else t
  }

  /** A row with its spawn markers replaced by FLOOR. */
  function NormalizeRow(row: seq<Tile>): seq<Tile> {
    if row == [] then [] else NormalizeRow(row[..|row| - 1]) + [NormalizeTile(row[|row| - 1])]
  }

  lemma {:induction false} NormalizeRowCells(row: seq<Tile>)
    ensures |NormalizeRow(row)| == |row|
    ensures forall x :: 0 <= x < |row| ==> NormalizeRow(row)[x] == NormalizeTile(row[x])
  {
    if row != [] {
      NormalizeRowCells(row[..|row| - 1]);
    }
  }

  /** The board prepareLevel builds: the grid with its spawn markers
      replaced by FLOOR. */
  function NormalizeBoard(tiles: seq<seq<Tile>>): seq<seq<Tile>> {
    if tiles == [] then [] else NormalizeBoard(tiles[..|tiles| - 1]) + [NormalizeRow(tiles[|tiles| - 1])]
  }

  lemma {:induction false} NormalizeBoardCells(tiles: seq<seq<Tile>>)
    ensures |NormalizeBoard(tiles)| == |tiles|
    ensures forall y :: 0 <= y < |tiles| ==> NormalizeBoard(tiles)[y] == NormalizeRow(tiles[y])
  {
    if tiles != [] {
      NormalizeBoardCells(tiles[..|tiles| - 1]);
    }
  }

  /** The cells of row `y` whose tile is CRATE. */
  function RowCrates(row: seq<Tile>, y: int): set<Pos> {
    if row == [] then {}
    else RowCrates(row[..|row| - 1], y) + (if row[|row| - 1] == Crate then {Pos(|row| - 1, y)} else {})
  }

  lemma {:induction false} RowCratesCells(row: seq<Tile>, y: int)
    ensures forall p :: p in RowCrates(row, y) <==> p.y == y && 0 <= p.x < |row| && row[p.x] == Crate
  {
    if row != [] {
      RowCratesCells(row[..|row| - 1], y);
    }
  }

  /** The cells whose level tile is CRATE, row by row. */
  function CrateCells(tiles: seq<seq<Tile>>): set<Pos> {
    if tiles == [] then {}
    else CrateCells(tiles[..|tiles| - 1]) + RowCrates(tiles[|tiles| - 1], |tiles| - 1)
  }

  lemma {:induction false} CrateCellsAre(tiles: seq<seq<Tile>>)
    ensures forall p :: p in CrateCells(tiles) <==> HasTile(tiles, p, Crate)
  {
    if tiles != [] {
      CrateCellsAre(tiles[..|tiles| - 1]);
      RowCratesCells(tiles[|tiles| - 1], |tiles| - 1);
    }
  }

  /** Where prepareLevel's loops leave the player position once they have
      visited every cell before (x, y): the last PLAYER cell so far, or
      `init` (the position from before the call) if there was none. */
  function ScanPlayer(tiles: seq<seq<Tile>>, y: nat, x: nat, init: Option<Pos>): Option<Pos>
    requires y <= |tiles| && (y < |tiles| ==> x <= |tiles[y]|) && (y == |tiles| ==> x == 0)
    decreases y, x
  {
    if x > 0 then
      if tiles[y][x - 1] == Player then Some(Pos(x - 1, y)) else ScanPlayer(tiles, y, x - 1, init)
    else if y > 0 then
      ScanPlayer(tiles, y - 1, |tiles[y - 1]|, init)
    else
      init
  }

  /** ScanPlayer finds the last PLAYER cell in row-major order among the
      cells visited so far, and keeps `init` when there is none. */
  lemma {:induction false} ScanPlayerFindsLast(tiles: seq<seq<Tile>>, y: nat, x: nat, init: Option<Pos>)
    requires y <= |tiles| && (y < |tiles| ==> x <= |tiles[y]|) && (y == |tiles| ==> x == 0)
    ensures var r := ScanPlayer(tiles, y, x, init);
      (forall q :: HasTile(tiles, q, Player) ==> !Before(q, Pos(x, y))) ==> r == init
    ensures var r := ScanPlayer(tiles, y, x, init);
      (exists q :: HasTile(tiles, q, Player) && Before(q, Pos(x, y))) ==>
        && r.Some? && HasTile(tiles, r.value, Player) && Before(r.value, Pos(x, y))
        && forall q :: HasTile(tiles, q, Player) && Before(q, Pos(x, y)) ==> q == r.value || Before(q, r.value)
    decreases y, x
  {
    if x > 0 {
      if tiles[y][x - 1] == Player {
        assert HasTile(tiles, Pos(x - 1, y), Player) && Before(Pos(x - 1, y), Pos(x, y));
      } else {
        ScanPlayerFindsLast(tiles, y, x - 1, init);
        assert forall q :: HasTile(tiles, q, Player) && Before(q, Pos(x, y)) ==> Before(q, Pos(x - 1, y));
      }
    } else if y > 0 {
      ScanPlayerFindsLast(tiles, y - 1, |tiles[y - 1]|, init);
      assert forall q :: HasTile(tiles, q, Player) && Before(q, Pos(x, y)) ==> Before(q, Pos(|tiles[y - 1]|, y - 1));
    }
  }

  /** Lines 201-232: rebuild the board, the crate flags, the crate count
      and the player position from the level's initial grid. Everything
      else, the power-ups included, is left alone. */
  function PrepareLevel(g: Game, l: Level): Game
    requires l.WellFormed()
  {
    var crates := CrateCells(l.tiles);
    g.(numCrates := |crates|, numMatched := 0, acceptsInput := true,
       height := l.height, width := l.width, board := NormalizeBoard(l.tiles),
       crates := crates, player := ScanPlayer(l.tiles, |l.tiles|, 0, g.player))
  }

  /** No cell of the board holds a spawn marker. */
  predicate NoMarkers(g: Game) {
    forall y, x :: 0 <= y < |g.board| && 0 <= x < |g.board[y]| ==> g.board[y][x] != Player && g.board[y][x] != Crate
  }

  /** prepareLevel's board: the level's grid, `height` rows of `width`
      tiles, with the spawn markers replaced by FLOOR. */
  lemma PrepareLevelBoard(g: Game, l: Level)
    requires l.WellFormed()
    ensures var r := PrepareLevel(g, l);
      && GridShaped(r) && r.height == l.height && r.width == l.width
      && forall p :: IsCell(l.tiles, p) ==> r.board[p.y][p.x] == NormalizeTile(l.tiles[p.y][p.x])
  {
    NormalizeBoardCells(l.tiles);
    forall y | 0 <= y < |l.tiles| {
      NormalizeRowCells(l.tiles[y]);
    }
  }

  /** prepareLevel's crates: one exactly where the level has CRATE, all of
      them counted, none matched, and input on. */
  lemma PrepareLevelCrates(g: Game, l: Level)
    requires l.WellFormed()
    ensures var r := PrepareLevel(g, l);
      && (forall p :: p in r.crates <==> HasTile(l.tiles, p, Crate))
      && r.numCrates == |r.crates| && r.numMatched == 0 && r.acceptsInput
  {
    CrateCellsAre(l.tiles);
  }

  /** prepareLevel's player: on the last PLAYER cell in row-major order,
      or where it was if the level has none. */
  lemma PrepareLevelPlayer(g: Game, l: Level)
    requires l.WellFormed()
    ensures var r := PrepareLevel(g, l);
      && (HasPlayer(l) ==>
            && r.player.Some? && HasTile(l.tiles, r.player.value, Player)
            && forall q :: HasTile(l.tiles, q, Player) ==> q == r.player.value || Before(q, r.player.value))
      && (!HasPlayer(l) ==> r.player == g.player)
  {
    var H := |l.tiles|;
    ScanPlayerFindsLast(l.tiles, H, 0, g.player);
    assert forall q :: IsCell(l.tiles, q) ==> Before(q, Pos(0, H));
  }

  /** What the invariant needs of prepareLevel: the board has the level's
      size and every crate lies on it. */
  lemma PrepareLevelFits(g: Game, l: Level)
    requires l.WellFormed()
    ensures var r := PrepareLevel(g, l);
      && GridShaped(r) && r.height == l.height && r.width == l.width
      && forall p :: p in r.crates ==> InGrid(r, p)
  {
    PrepareLevelBoard(g, l);
    PrepareLevelCrates(g, l);
  }

  /** After prepareLevel: the board is the level's grid with the spawn
      markers replaced by FLOOR, a crate sits exactly where the level had
      CRATE, numCrates counts them, nothing is matched, input is on, and
      the player is on the last PLAYER cell in row-major order (or where it
      was, if the level has none). Nothing else changes. */
  lemma PrepareLevelNormalizes(g: Game, l: Level)
    requires l.WellFormed()
    ensures var r := PrepareLevel(g, l);
      && GridShaped(r) && NoMarkers(r) && r.height == l.height && r.width == l.width
      && (forall p :: IsCell(l.tiles, p) ==> r.board[p.y][p.x] == NormalizeTile(l.tiles[p.y][p.x]))
      && (forall p :: p in r.crates <==> HasTile(l.tiles, p, Crate))
      && r.numCrates == |r.crates| && r.numMatched == 0 && r.acceptsInput
      && (HasPlayer(l) ==>
            && r.player.Some? && HasTile(l.tiles, r.player.value, Player)
            && forall q :: HasTile(l.tiles, q, Player) ==> q == r.player.value || Before(q, r.player.value))
      && (!HasPlayer(l) ==> r.player == g.player)
      && r == g.(numCrates := r.numCrates, numMatched := 0, acceptsInput := true, height := r.height,
                 width := r.width, board := r.board, crates := r.crates, player := r.player)
  {
    PrepareLevelBoard(g, l);
    PrepareLevelCrates(g, l);
    PrepareLevelPlayer(g, l);
    var r := PrepareLevel(g, l);
    forall y, x | 0 <= y < |r.board| && 0 <= x < |r.board[y]| ensures r.board[y][x] != Player && r.board[y][x] != Crate {
      assert IsCell(l.tiles, Pos(x, y));
    }
  }

  // ---------------------------------------------------------------------
  // The invariant of the controller's fields
  // ---------------------------------------------------------------------

  /** Every crate flag that is set lies on the board. */
  predicate CratesInGrid(g: Game) {
    forall p :: p in g.crates ==> InGrid(g, p)
  }

  /** What holds of the fields between any two calls: the pack's levels
      are well formed, the level index never drops below -1, the board is
      `height` rows of `width` tiles with every crate flag on it, an
      in-range index names the current level, and the current level (when
      set) is well formed and has the board's size. */
  predicate Inv(pack: seq<Level>, g: Game) {
    && PackWellFormed(pack)
    && g.levelNumber >= -1
    && GridShaped(g)
    && CratesInGrid(g)
    && (0 <= g.levelNumber < |pack| ==> g.level == Some(pack[g.levelNumber]))
    && (g.level.Some? ==>
          && g.level.value.WellFormed()
          && g.level.value.width == g.width && g.level.value.height == g.height)
  }

  lemma InitialGameInv(pack: seq<Level>)
    requires PackWellFormed(pack)
    ensures Inv(pack, InitialGame())
  {
  }

  // ---------------------------------------------------------------------
  // Lifecycle
  // ---------------------------------------------------------------------

  /** isGameRunning. */
  predicate Running(g: Game) {
    g.levelNumber >= 0
  }

  /** Lines 184-199: advance the level index; past the last level report
      false and change nothing else; otherwise bank the level score, load
      the next level, and redraw everything. */
  function NextLevelInternal(pack: seq<Level>, g: Game): (r: Transition)
    requires Inv(pack, g)
    ensures Inv(pack, r.game)
  {
    var n := g.levelNumber + 1;
    if n >= |pack| then
      Transition(g.(levelNumber := n), [], false)
    else
      var l := pack[n];
      var g1 := PrepareLevel(g.(levelNumber := n, level := Some(l), total := g.total + g.score,
                                 score := 0, acceptsInput := true), l);
      PrepareLevelFits(g.(levelNumber := n, level := Some(l), total := g.total + g.score,
                          score := 0, acceptsInput := true), l);
      Transition(g1, [OnScoreUpdated(g1.score, g1.total), OnBoardUpdated(g1.level, g1.crates, g1.player, None)], true)
  }

  /** Lines 173-182: nextLevelInternal, then, if a level was loaded, the
      next-level notification with the level left and its score. */
  function NextLevel(pack: seq<Level>, g: Game): (r: Transition)
    requires Inv(pack, g)
    ensures Inv(pack, r.game)
  {
    var n := NextLevelInternal(pack, g);
    if n.ok then
      Transition(n.game, n.events + [OnNextLevel(g.level, g.score, n.game.level, n.game.total)], true)
    else
      n
  }

  /** Lines 237-248. `ok` is false when the call throws
      IllegalStateException (no level left to load); the index has then
      already been advanced. */
  function StartGame(pack: seq<Level>, cfg: Config, g: Game): (r: Transition)
    requires Inv(pack, g)
    ensures Inv(pack, r.game)
  {
    var n := NextLevelInternal(pack, g);
    if !n.ok then
      n
    else
      var g1 := n.game.(lives := cfg.startingLives, score := 0, total := 0, powerUps := {}, powerUpsCreated := true);
      Transition(g1, n.events + [OnGameStarted(g1.level, g1.lives), OnLivesUpdated(g1.lives, cfg.maxLives)], true)
  }

  /** Lines 255-268: nothing when no game runs; otherwise report the final
      score and clear lives, scores and the level. The board, the crate
      flags, the player and the power-ups are left as they are. */
  function StopGame(g: Game, completed: bool): (r: Effect)
    ensures r.game.board == g.board && r.game.crates == g.crates && r.game.height == g.height && r.game.width == g.width
    ensures r.game.player == g.player && r.game.powerUps == g.powerUps
    ensures r.game.numCrates == g.numCrates && r.game.numMatched == g.numMatched
  {
    if g.levelNumber < 0 then
      Effect(g, [])
    else
      var total := g.total + g.score;
      Effect(g.(lives := 0, levelNumber := -1, level := None, score := 0, total := 0),
             [OnGameStopped(total, completed)])
  }

  /** Lines 273-283. */
  function TogglePause(g: Game): Effect {
    var paused := !g.paused;
    Effect(g.(paused := paused, acceptsInput := !paused), [if paused then OnGamePaused else OnGameResumed])
  }

  /** Lines 305-307. */
  function EnableInput(g: Game, enable: bool): Effect {
    Effect(g.(acceptsInput := enable), [])
  }

  /** stopGame, togglePause and setInputEnabled keep the invariant. */
  lemma LifecycleKeepsInv(pack: seq<Level>, g: Game, flag: bool)
    requires Inv(pack, g)
    ensures Inv(pack, StopGame(g, flag).game) && Inv(pack, TogglePause(g).game) && Inv(pack, EnableInput(g, flag).game)
  {
  }

  /** Lines 288-298: reload the current level (power-ups and score stay),
      then spend a life, or end the game when none is left. `ok` is false
      when there is no current level: prepareLevel then throws a
      NullPointerException after clearing the counts and enabling input. */
  function ResetLevel(pack: seq<Level>, cfg: Config, g: Game): (r: Transition)
    requires Inv(pack, g)
    ensures Inv(pack, r.game)
  {
    if g.level.None? then
      Transition(g.(numCrates := 0, numMatched := 0, acceptsInput := true), [], false)
    else
      PrepareLevelFits(g, g.level.value);
      var g1 := PrepareLevel(g, g.level.value);
      if g1.lives >= 1 then
        var g2 := g1.(lives := g1.lives - 1);
        Transition(g2, [OnLivesUpdated(g2.lives, cfg.maxLives), OnBoardUpdated(g2.level, g2.crates, g2.player, None)], true)
      else
        var s := StopGame(g1, false);
        Transition(s.game, s.events, true)
  }

  // ---------------------------------------------------------------------
  // The move resolver
  // ---------------------------------------------------------------------

  /** The change in the number of crates standing on TARGET_SPOT when a
      crate goes from a cell with static tile `src` to one with `dst`
      (lines 374-377). */
  function MatchedChange(src: Tile, dst: Tile): (c: int)
    ensures c == (if dst == TargetSpot then 1 else 0) - (if src == TargetSpot then 1 else 0)
  {
    if dst == TargetSpot && src != TargetSpot then 1
    else if dst != TargetSpot && src == TargetSpot then -1
    else 0
  }

  /** The state a stage leaves has the same board, level and index, and its
      crates are still on the board. */
  predicate SameGround(g: Game, h: Game) {
    && h.board == g.board && h.height == g.height && h.width == g.width
    && h.level == g.level && h.levelNumber == g.levelNumber
    && h.score == g.score && h.total == g.total && h.lives == g.lives
    && h.player == g.player && h.numCrates == g.numCrates
    && h.paused == g.paused && h.acceptsInput == g.acceptsInput
    && CratesInGrid(h)
  }

  /** The invariant only looks at the level, its index, the board and the
      crate flags. */
  lemma SameLayoutKeepsInv(pack: seq<Level>, g: Game, h: Game)
    requires Inv(pack, g)
    requires h.level == g.level && h.levelNumber == g.levelNumber && h.board == g.board
    requires h.height == g.height && h.width == g.width && h.crates == g.crates
    ensures Inv(pack, h)
  {
  }

  /** A stage keeps the invariant. */
  lemma SameGroundKeepsInv(pack: seq<Level>, g: Game, h: Game)
    requires Inv(pack, g) && SameGround(g, h)
    ensures Inv(pack, h)
  {
  }

  /** Lines 351-378: push the crate standing on the target cell `t` one
      step along `d`. The cell beyond must not be a WALL; a crate there is
      only allowed with STRENGTH, which then sets a crate flag one step
      further without looking at what is there and is used up. The
      matched count only follows the pushed crate. */
  function PushCrate(g: Game, t: Pos, d: Pos): (r: Stage)
    requires GridShaped(g) && CratesInGrid(g) && InGrid(g, t)
    ensures SameGround(g, r.game)
  {
    if t !in g.crates then
      Continue(g, None)
    else
      var b := Add(t, d);
      if !InGrid(g, b) then Stop(g, Fault)
      else if TileAt(g, b) == Wall then Stop(g, Blocked)
      else if b in g.crates && Strength !in g.powerUps then Stop(g, Blocked)
      else if b in g.crates && !InGrid(g, Add(b, d)) then Stop(g, Fault)
      else
        var far: set<Pos> := if b in g.crates then {Add(b, d)} else {};
        var powerUps := if b in g.crates then g.powerUps - {Strength} else g.powerUps;
        var crates := (g.crates + far - {t}) + {b};
        Continue(g.(crates := crates, powerUps := powerUps,
                    numMatched := g.numMatched + MatchedChange(TileAt(g, t), TileAt(g, b))),
                 Some({Delta(t, b)}))
  }

  /** Lines 380-397 as written: with PULL, look for a crate at `t - d`,
      which is the player's own cell before the move, move it onto `t`,
      and record the delta and the matched count of a crate going from `t`
      to `t + d` (the push's cells). The delta set replaces the push's. */
  function PullCrate(g: Game, t: Pos, d: Pos, deltas: Option<set<Delta>>): (r: Stage)
    requires GridShaped(g) && CratesInGrid(g) && InGrid(g, t)
    ensures SameGround(g, r.game)
  {
    if Pull !in g.powerUps then
      Continue(g, deltas)
    else
      var s := Sub(t, d);
      if !InGrid(g, s) then Stop(g, Fault)
      else if s !in g.crates then Continue(g, deltas)
      else
        var b := Add(t, d);
        var g1 := g.(powerUps := g.powerUps - {Pull}, crates := (g.crates - {s}) + {t});
        if !InGrid(g, b) then Stop(g1, Fault)
        else Continue(g1.(numMatched := g.numMatched + MatchedChange(TileAt(g, t), TileAt(g, b))), Some({Delta(t, b)}))
  }

  /** The power-up a pick-up tile grants. */
  function Pickup(t: Tile): (r: set<Powerup>)
    ensures r == {} <==> t !in {GhostPickup, StrengthPickup, PullPickup}
  {
    if t == GhostPickup then {Ghost}
    else if t == StrengthPickup then {Strength}
    else if t == PullPickup then {Pull}
    else {}
  }

  /** Lines 404-407: all crates matched, so load the next level, or end the
      game as completed when there is none. */
  function CompleteLevel(pack: seq<Level>, g: Game): (r: Effect)
    requires Inv(pack, g)
    ensures Inv(pack, r.game)
  {
    var n := NextLevel(pack, g);
    if n.ok then
      Effect(n.game, n.events)
    else
      var s := StopGame(n.game, true);
      Effect(s.game, n.events + s.events)
  }

  /** Lines 398-412: commit the move, notify, check for the win, and only
      then look at the tile under the player, on whatever board is now in
      place, for a pick-up. */
  function Conclude(pack: seq<Level>, g: Game, t: Pos, deltas: Option<set<Delta>>): (r: Step)
    requires Inv(pack, g) && InGrid(g, t)
    ensures Inv(pack, r.game)
  {
    var g1 := g.(player := Some(t), score := g.score + 1);
    var events := [OnScoreUpdated(g1.score, g1.total), OnBoardUpdated(g1.level, g1.crates, g1.player, deltas)];
    var w := if g1.numMatched == g1.numCrates then CompleteLevel(pack, g1) else Effect(g1, []);
    if !InGrid(w.game, t) then
      Step(w.game, events + w.events, Fault)
    else
      Step(w.game.(powerUps := w.game.powerUps + Pickup(TileAt(w.game, t))), events + w.events, Moved)
  }

  /** Conclude in the three steps the controller takes. */
  lemma ConcludeSplit(pack: seq<Level>, g: Game, t: Pos, deltas: Option<set<Delta>>)
    requires Inv(pack, g) && InGrid(g, t)
    ensures var g1 := g.(player := Some(t), score := g.score + 1);
      var w := if g1.numMatched == g1.numCrates then CompleteLevel(pack, g1) else Effect(g1, []);
      var r := Conclude(pack, g, t, deltas);
      && r.events == [OnScoreUpdated(g1.score, g1.total), OnBoardUpdated(g1.level, g1.crates, g1.player, deltas)] + w.events
      && (InGrid(w.game, t) ==> r.game == w.game.(powerUps := w.game.powerUps + Pickup(TileAt(w.game, t))) && r.outcome == Moved)
      && (!InGrid(w.game, t) ==> r.game == w.game && r.outcome == Fault)
  {
  }

  /** Lines 288-298 once the level is reloaded: spend a life, or stop the
      game when none is left. */
  lemma ResetLevelSplit(pack: seq<Level>, cfg: Config, g: Game)
    requires Inv(pack, g) && g.level.Some?
    ensures var g1 := PrepareLevel(g, g.level.value);
      var r := ResetLevel(pack, cfg, g);
      && r.ok
      && (g1.lives >= 1 ==>
            && r.game == g1.(lives := g1.lives - 1)
            && r.events == [OnLivesUpdated(g1.lives - 1, cfg.maxLives), OnBoardUpdated(g1.level, g1.crates, g1.player, None)])
      && (g1.lives < 1 ==> r.game == StopGame(g1, false).game && r.events == StopGame(g1, false).events)
  {
  }

  /** Lines 350-397: the push stage, then the pull stage. */
  function CrateStages(g: Game, t: Pos, d: Pos): (r: Stage)
    requires GridShaped(g) && CratesInGrid(g) && InGrid(g, t)
    ensures SameGround(g, r.game)
  {
    match PushCrate(g, t, d)
    case Stop(g2, outcome) => Stop(g2, outcome)
    case Continue(g2, deltas) => PullCrate(g2, t, d, deltas)
  }

  /** Lines 350-412, once GHOST has been spent: the crate stages, then the
      commit. */
  function Resolve(pack: seq<Level>, g: Game, t: Pos, d: Pos): (r: Step)
    requires Inv(pack, g) && InGrid(g, t)
    ensures Inv(pack, r.game)
  {
    match CrateStages(g, t, d)
    case Stop(g3, outcome) => Step(g3, [], outcome)
    case Continue(g3, deltas) => Conclude(pack, g3, t, deltas)
  }

  /** The target cell of a move: one step from the player. */
  function Target(g: Game, dir: Direction): Pos
    requires g.player.Some?
  {
    Add(g.player.value, Offset(dir))
  }

  /** The bounds test of line 342 as written: it compares with `>`, so a
      target one past the last column or row passes it. */
  predicate OutOfBounds(l: Level, t: Pos) {
    t.x < 0 || t.x > l.width || t.y < 0 || t.y > l.height
  }

  /** Lines 314-413: one move. Before the first successful startGame the
      power-up set is null, and a move that passes the bounds test throws
      at line 346 (a WALL target) or line 348 (any other). */
  function Move(pack: seq<Level>, g: Game, dir: Direction): (r: Step)
    requires Inv(pack, g)
    ensures Inv(pack, r.game)
  {
    if g.levelNumber < 0 || !g.acceptsInput then
      Step(g, [], Ignored)
    else if g.player.None? || g.level.None? then
      Step(g, [], Fault)
    else
      var d := Offset(dir);
      var t := Add(g.player.value, d);
      if OutOfBounds(g.level.value, t) then
        Step(g, [], Blocked)
      else if !InGrid(g, t) then
        Step(g, [], Fault)
      else if !g.powerUpsCreated then
        Step(g, [], Fault)
      else if TileAt(g, t) == Wall && Ghost !in g.powerUps then
        Step(g, [], Blocked)
      else
        Resolve(pack, g.(powerUps := g.powerUps - {Ghost}), t, d)
  }
}
