/**
 * GameController.java as a class. The fields the source updates in place
 * are fields here; the board and the crate flags are two-dimensional
 * arrays; the listener calls are appended to a ghost trace. Each method
 * is proved to change the `Game` snapshot of the fields exactly as the
 * matching function of GameSpec does, and to append that function's
 * events to the trace.
 */
module Controller {
  import opened Basics
  import opened GameTypes
  import opened GameSpec

  /** How far a crate stage of `move` got: on to the next stage with this
      delta set, or out of `move` with this outcome. */
  datatype Progress = Go(deltas: Option<set<Delta>>) | Halt(outcome: MoveOutcome)

  /** `p` is what the method reports of the stage `r` of GameSpec. */
  predicate Reports(p: Progress, r: Stage) {
    && (p.Go? <==> r.Continue?)
    && (p.Go? ==> p.deltas == r.deltas)
    && (p.Halt? ==> p.outcome == r.outcome)
  }

  /** The board array holds the rows `rows`. */
  ghost predicate BoardHolds(board: array2<Tile>, rows: seq<seq<Tile>>)
    reads board
  {
    && |rows| == board.Length0
    && (forall y :: 0 <= y < |rows| ==> |rows[y]| == board.Length1)
    && (forall y, x :: 0 <= y < board.Length0 && 0 <= x < board.Length1 ==> board[y, x] == rows[y][x])
  }

  /** The crate array is set exactly on the cells of `cells`. */
  ghost predicate FlagsHold(crates: array2<bool>, cells: set<Pos>)
    reads crates
  {
    && (forall y, x {:trigger crates[y, x]} {:trigger Pos(x, y) in cells} ::
          0 <= y < crates.Length0 && 0 <= x < crates.Length1 ==> (crates[y, x] <==> Pos(x, y) in cells))
    && (forall p {:trigger p in cells} :: p in cells ==> 0 <= p.y < crates.Length0 && 0 <= p.x < crates.Length1)
  }

  /** The two arrays have the same size and hold `rows` and `cells`. */
  ghost predicate ArraysHold(board: array2<Tile>, crates: array2<bool>, rows: seq<seq<Tile>>, cells: set<Pos>)
    reads board, crates
  {
    && BoardHolds(board, rows) && FlagsHold(crates, cells)
    && crates.Length0 == board.Length0 && crates.Length1 == board.Length1
  }

  /** Changing other fields of the controller leaves the arrays tied to
      the ghost board and crate set. */
  twostate lemma TiedKept(c: GameController)
    requires old(c.Tied()) && unchanged(old(c.board), old(c.crates))
    requires c.board == old(c.board) && c.crates == old(c.crates) && c.Board == old(c.Board) && c.Crates == old(c.Crates)
    ensures c.Tied()
  {
  }

  /** `crates[p.y][p.x] = v`, for a cell inside the array. */
  method SetFlag(crates: array2<bool>, p: Pos, v: bool, ghost cells: set<Pos>) returns (ghost after: set<Pos>)
    requires FlagsHold(crates, cells) && 0 <= p.y < crates.Length0 && 0 <= p.x < crates.Length1
    modifies crates
    ensures FlagsHold(crates, after)
    ensures after == if v then cells + {p} else cells - {p}
  {
    crates[p.y, p.x] := v;
    after := if v then cells + {p} else cells - {p};
  }

  /** The loops of prepareLevel (lines 211-230): copy the grid of `level`
      into a fresh board with its spawn markers replaced by FLOOR, set a
      crate flag on every CRATE cell and count them, and move the player
      to every PLAYER cell in turn, starting from `init`. */
  method LoadGrid(level: Level, init: Option<Pos>)
      returns (board: array2<Tile>, crates: array2<bool>, count: int, player: Option<Pos>, ghost rows: seq<seq<Tile>>, ghost cells: set<Pos>)
    requires level.WellFormed()
    ensures board.Length0 == level.height && board.Length1 == level.width
    ensures ArraysHold(board, crates, rows, cells)
    ensures rows == NormalizeBoard(level.tiles) && cells == CrateCells(level.tiles)
    ensures count == |cells|
    ensures player == ScanPlayer(level.tiles, |level.tiles|, 0, init)
  {
    var tiles := level.tiles;
    board := new Tile[level.height, level.width];
    crates := new bool[level.height, level.width]((_, _) => false);
    count := 0;
    player := init;
    ghost var seen: set<Pos> := {};

    var y := 0;
    while y < level.height
      invariant 0 <= y <= level.height
      invariant forall j, i :: 0 <= j < y && 0 <= i < level.width ==> board[j, i] == NormalizeTile(tiles[j][i])
      invariant FlagsHold(crates, seen)
      invariant forall p :: p in seen <==> HasTile(tiles, p, Crate) && Before(p, Pos(0, y))
      invariant count == |seen|
      invariant player == ScanPlayer(tiles, y, 0, init)
    {
      count, player, seen := LoadRow(level, y, board, crates, count, player, seen, init);
      y := y + 1;
    }

    LoadedGrid(level, board, crates, seen);
    rows, cells := NormalizeBoard(tiles), seen;
  }

  /** The inner loop of prepareLevel (lines 215-229) over row `y`. */
  method LoadRow(level: Level, y: int, board: array2<Tile>, crates: array2<bool>, count0: int,
                 player0: Option<Pos>, ghost seen0: set<Pos>, ghost init: Option<Pos>)
      returns (count: int, player: Option<Pos>, ghost seen: set<Pos>)
    requires level.WellFormed() && 0 <= y < level.height
    requires board.Length0 == level.height && board.Length1 == level.width
    requires crates.Length0 == level.height && crates.Length1 == level.width
    requires forall j, i :: 0 <= j < y && 0 <= i < level.width ==> board[j, i] == NormalizeTile(level.tiles[j][i])
    requires FlagsHold(crates, seen0)
    requires forall p :: p in seen0 <==> HasTile(level.tiles, p, Crate) && Before(p, Pos(0, y))
    requires count0 == |seen0|
    requires player0 == ScanPlayer(level.tiles, y, 0, init)
    modifies board, crates
    ensures forall j, i :: 0 <= j <= y && 0 <= i < level.width ==> board[j, i] == NormalizeTile(level.tiles[j][i])
    ensures FlagsHold(crates, seen)
    ensures forall p :: p in seen <==> HasTile(level.tiles, p, Crate) && Before(p, Pos(0, y + 1))
    ensures count == |seen|
    ensures player == ScanPlayer(level.tiles, y + 1, 0, init)
  {
    var tiles := level.tiles;
    count, player, seen := count0, player0, seen0;
    var x := 0;
    while x < level.width
      invariant 0 <= x <= level.width
      invariant forall j, i :: ((0 <= j < y && 0 <= i < level.width) || (j == y && 0 <= i < x)) ==>
                               board[j, i] == NormalizeTile(tiles[j][i])
      invariant FlagsHold(crates, seen)
      invariant forall p :: p in seen <==> HasTile(tiles, p, Crate) && Before(p, Pos(x, y))
      invariant count == |seen|
      invariant player == ScanPlayer(tiles, y, x, init)
    {
      count, player, seen := LoadCell(level, x, y, board, crates, count, player, seen, init);
      x := x + 1;
    }
  }

  /** The body of the inner loop of prepareLevel (lines 216-228): load
      the cell (x, y). */
  method LoadCell(level: Level, x: int, y: int, board: array2<Tile>, crates: array2<bool>, count0: int,
                  player0: Option<Pos>, ghost seen0: set<Pos>, ghost init: Option<Pos>)
      returns (count: int, player: Option<Pos>, ghost seen: set<Pos>)
    requires level.WellFormed() && 0 <= y < level.height && 0 <= x < level.width
    requires board.Length0 == level.height && board.Length1 == level.width
    requires crates.Length0 == level.height && crates.Length1 == level.width
    requires FlagsHold(crates, seen0)
    requires forall p :: p in seen0 <==> HasTile(level.tiles, p, Crate) && Before(p, Pos(x, y))
    requires count0 == |seen0|
    requires player0 == ScanPlayer(level.tiles, y, x, init)
    modifies board, crates
    ensures board[y, x] == NormalizeTile(level.tiles[y][x])
    ensures forall j, i :: 0 <= j < level.height && 0 <= i < level.width && (j, i) != (y, x) ==> board[j, i] == old(board[j, i])
    ensures FlagsHold(crates, seen)
    ensures forall p :: p in seen <==> HasTile(level.tiles, p, Crate) && Before(p, Pos(x + 1, y))
    ensures count == |seen|
    ensures player == ScanPlayer(level.tiles, y, x + 1, init)
  {
    count, player, seen := count0, player0, seen0;
    var tile := level.tiles[y][x];
    board[y, x] := tile;
    if tile == Crate {
      crates[y, x] := true;
      count := count + 1;
      seen := seen + {Pos(x, y)};
    }
    if tile == Player {
      player := Some(Pos(x, y));
      board[y, x] := Floor;
    } else if tile == Crate {
      board[y, x] := Floor;
    }
  }

  /** What the loops of LoadGrid leave once every row is done: the board
      and the crate flags of `level`, with `seen` its crate cells. */
  lemma LoadedGrid(level: Level, board: array2<Tile>, crates: array2<bool>, seen: set<Pos>)
    requires level.WellFormed()
    requires board.Length0 == level.height && board.Length1 == level.width
    requires crates.Length0 == level.height && crates.Length1 == level.width
    requires forall j, i :: 0 <= j < level.height && 0 <= i < level.width ==> board[j, i] == NormalizeTile(level.tiles[j][i])
    requires FlagsHold(crates, seen)
    requires forall p :: p in seen <==> HasTile(level.tiles, p, Crate) && Before(p, Pos(0, level.height))
    ensures seen == CrateCells(level.tiles)
    ensures ArraysHold(board, crates, NormalizeBoard(level.tiles), seen)
  {
    var tiles := level.tiles;
    CrateCellsAre(tiles);
    assert seen == CrateCells(tiles);
    NormalizeBoardCells(tiles);
    forall j | 0 <= j < level.height
      ensures |NormalizeBoard(tiles)[j]| == level.width
    {
      NormalizeRowCells(tiles[j]);
    }
    forall j, i | 0 <= j < level.height && 0 <= i < level.width
      ensures board[j, i] == NormalizeBoard(tiles)[j][i]
    {
      NormalizeRowCells(tiles[j]);
    }
  }

  /** Appending to the trace in two steps or in one. A lemma call gives the
      solver this one instance; left to itself it searches the heap-heavy
      context of the methods below at far greater cost. */
  lemma AppendAssoc<T>(a: seq<T>, b: seq<T>, c: seq<T>)
    ensures (a + b) + c == a + (b + c)
  {
  }

  class GameController {
    const configuration: Config
    const levelPack: seq<Level>

    var currentLives: int
    var currentLevelNumber: int
    var currentLevel: Option<Level>
    var currentScore: int
    var totalScore: int
    var powerUps: set<Powerup>
    /** False while the power-up set is still the null reference. */
    var powerUpsCreated: bool
    var gamePaused: bool
    var board: array2<Tile>
    var crates: array2<bool>
    var numCrates: int
    var numMatched: int
    var playerPosition: Option<Pos>
    var acceptsInput: bool

    /** What the two arrays hold, row by row and as a set of cells. */
    ghost var Board: seq<seq<Tile>>
    ghost var Crates: set<Pos>
    /** Every listener call made so far, oldest first. */
    ghost var trace: seq<Event>

    /** The snapshot of the fields that GameSpec works on. */
    ghost function Abstract(): Game
      reads this
    {
      Game(currentLives, currentLevelNumber, currentLevel, currentScore, totalScore, powerUps, powerUpsCreated,
           gamePaused, acceptsInput, board.Length0, board.Length1, Board, Crates, numCrates, numMatched, playerPosition)
    }

    /** The arrays hold what `Board` and `Crates` say, and have the same size. */
    ghost predicate Tied()
      reads this, board, crates
    {
      ArraysHold(board, crates, Board, Crates)
    }

    ghost predicate Valid()
      reads this, board, crates
    {
      Tied() && Inv(levelPack, Abstract())
    }

    /** Lines 45-48 with the field initialisers of lines 23-37. */
    constructor (configuration: Config, levelPack: seq<Level>)
      requires PackWellFormed(levelPack)
      ensures Valid() && Abstract() == InitialGame() && trace == []
      ensures this.configuration == configuration && this.levelPack == levelPack
    {
      this.configuration := configuration;
      this.levelPack := levelPack;
      currentLives := 0;
      currentLevelNumber := -1;
      currentLevel := None;
      currentScore := 0;
      totalScore := 0;
      powerUps := {};
      powerUpsCreated := false;
      gamePaused := false;
      board := new Tile[0, 0];
      crates := new bool[0, 0];
      numCrates := 0;
      numMatched := 0;
      playerPosition := None;
      acceptsInput := true;
      Board := [];
      Crates := {};
      trace := [];
      new;
      InitialGameInv(levelPack);
    }

    /** getCurrentLives. */
    function CurrentLives(): (r: int)
      reads this
      ensures r == Abstract().lives
    {
      currentLives
    }

    /** getPowerUps: null until the first successful startGame. */
    function PowerUps(): (r: Option<set<Powerup>>)
      reads this
      ensures r.Some? <==> Abstract().powerUpsCreated
      ensures r.Some? ==> r.value == Abstract().powerUps
    {
      if powerUpsCreated then Some(powerUps) else None
    }

    /** getMaxLives. */
    function MaxLives(): (r: int)
      ensures r == configuration.maxLives
    {
      configuration.maxLives
    }

    /** getCurrentScore. */
    function CurrentScore(): (r: int)
      reads this
      ensures r == Abstract().score
    {
      currentScore
    }

    /** getCurrentLevel. */
    function CurrentLevel(): (r: Option<Level>)
      reads this
      ensures r == Abstract().level
    {
      currentLevel
    }

    /** getTotalScore. */
    function TotalScore(): (r: int)
      reads this
      ensures r == Abstract().total
    {
      totalScore
    }

    /** isGameRunning. */
    predicate IsGameRunning()
      reads this
      ensures IsGameRunning() <==> Running(Abstract())
    {
      currentLevelNumber >= 0
    }

    /** isPaused. */
    predicate IsPaused()
      reads this
      ensures IsPaused() <==> Abstract().paused
    {
      gamePaused
    }

    /** Lines 201-232: build fresh arrays from the current level's grid.
        `loaded` is false when there is no current level: the call then
        throws a NullPointerException once it has cleared the counts and
        enabled input. */
    method PrepareLevel() returns (loaded: bool)
      requires Tied() && (currentLevel.Some? ==> currentLevel.value.WellFormed())
      modifies this
      ensures Tied() && trace == old(trace)
      ensures loaded <==> old(currentLevel).Some?
      ensures !loaded ==> Abstract() == old(Abstract()).(numCrates := 0, numMatched := 0, acceptsInput := true)
      ensures loaded ==> Abstract() == GameSpec.PrepareLevel(old(Abstract()), old(currentLevel).value)
    {
      numCrates, numMatched, acceptsInput := 0, 0, true;
      if currentLevel.None? {
        return false;
      }
      ghost var g := Abstract();
      var b, c, count, player, rows, cells := LoadGrid(currentLevel.value, playerPosition);
      Install(b, c, count, player, rows, cells);
      assert g.(height := b.Length0, width := b.Length1, board := rows, crates := cells, numCrates := count, player := player)
          == GameSpec.PrepareLevel(old(Abstract()), old(currentLevel).value);
      return true;
    }

    /** The field assignments of prepareLevel (lines 205-206, 220, 225 and
        231) with the arrays and values its loops produced. */
    method Install(b: array2<Tile>, c: array2<bool>, count: int, player: Option<Pos>,
                   ghost rows: seq<seq<Tile>>, ghost cells: set<Pos>)
      requires ArraysHold(b, c, rows, cells)
      modifies this
      ensures Tied() && trace == old(trace)
      ensures Abstract() == old(Abstract()).(height := b.Length0, width := b.Length1, board := rows, crates := cells,
                                            numCrates := count, player := player)
    {
      board, crates, numCrates, playerPosition, Board, Crates := b, c, count, player, rows, cells;
    }

    /** Lines 188-196: enter `level`, whose index has just been set. */
    method EnterLevel(level: Level)
      requires Tied() && level.WellFormed()
      modifies this
      ensures Tied()
      ensures var g := old(Abstract()).(level := Some(level), total := old(totalScore) + old(currentScore),
                                         score := 0, acceptsInput := true);
        Abstract() == GameSpec.PrepareLevel(g, level)
      ensures trace == old(trace) + [OnScoreUpdated(currentScore, totalScore), OnBoardUpdated(currentLevel, Crates, playerPosition, None)]
    {
      ghost var g := old(Abstract()).(level := Some(level), total := old(totalScore) + old(currentScore),
                                      score := 0, acceptsInput := true);
      currentLevel, totalScore, currentScore, acceptsInput := Some(level), totalScore + currentScore, 0, true;
      assert Abstract() == g;
      var loaded := PrepareLevel();
      assert Abstract() == GameSpec.PrepareLevel(g, level);
      ghost var events := [OnScoreUpdated(currentScore, totalScore), OnBoardUpdated(currentLevel, Crates, playerPosition, None)];
      assert trace == old(trace);
      label Loaded:
      trace := trace + events;
      TiedKept@Loaded(this);
    }

    /** Lines 184-199. */
    method NextLevelInternal() returns (success: bool)
      requires Valid()
      modifies this
      ensures Valid()
      ensures var r := GameSpec.NextLevelInternal(levelPack, old(Abstract()));
        Abstract() == r.game && trace == old(trace) + r.events && success == r.ok
    {
      currentLevelNumber := currentLevelNumber + 1;
      if currentLevelNumber >= |levelPack| {
        return false;
      }
      EnterLevel(levelPack[currentLevelNumber]);
      return true;
    }

    /** Lines 173-182. */
    method NextLevel() returns (success: bool)
      requires Valid()
      modifies this
      ensures Valid()
      ensures var r := GameSpec.NextLevel(levelPack, old(Abstract()));
        Abstract() == r.game && trace == old(trace) + r.events && success == r.ok
    {
      var previousLevel := currentLevel;
      var previousScore := currentScore;
      success := NextLevelInternal();
      if success {
        trace := trace + [OnNextLevel(previousLevel, previousScore, currentLevel, totalScore)];
      }
    }

    /** Lines 241-247: the new game's lives, scores and power-up set, and
        its notifications. */
    method BeginGame()
      requires Tied()
      modifies this
      ensures Tied()
      ensures var g := old(Abstract());
        Abstract() == g.(lives := configuration.startingLives, score := 0, total := 0, powerUps := {}, powerUpsCreated := true)
      ensures trace == old(trace) + [OnGameStarted(old(currentLevel), configuration.startingLives),
                                     OnLivesUpdated(configuration.startingLives, configuration.maxLives)]
    {
      ghost var g := Abstract();
      ghost var events := [OnGameStarted(currentLevel, configuration.startingLives), OnLivesUpdated(configuration.startingLives, configuration.maxLives)];
      currentLives, currentScore, totalScore, powerUps, powerUpsCreated := configuration.startingLives, 0, 0, {}, true;
      trace := trace + events;
      TiedKept(this);
      assert Abstract() == g.(lives := configuration.startingLives, score := 0, total := 0, powerUps := {}, powerUpsCreated := true);
    }

    /** Lines 237-248. `ok` is false when the call throws
        IllegalStateException because no level is left to load. */
    method StartGame() returns (ok: bool)
      requires Valid()
      modifies this
      ensures Valid()
      ensures var r := GameSpec.StartGame(levelPack, configuration, old(Abstract()));
        Abstract() == r.game && trace == old(trace) + r.events && ok == r.ok
    {
      ghost var g := Abstract();
      var loaded := NextLevelInternal();
      if !loaded {
        return false;
      }
      BeginGame();
      AppendAssoc(old(trace), GameSpec.NextLevelInternal(levelPack, g).events,
                  [OnGameStarted(currentLevel, currentLives), OnLivesUpdated(currentLives, configuration.maxLives)]);
      return true;
    }

    /** Lines 255-268. */
    method StopGame(completed: bool)
      requires Valid()
      modifies this
      ensures Valid()
      ensures var r := GameSpec.StopGame(old(Abstract()), completed);
        Abstract() == r.game && trace == old(trace) + r.events
    {
      LifecycleKeepsInv(levelPack, Abstract(), completed);
      if currentLevelNumber < 0 {
        return;
      }
      EndGame(completed);
    }

    /** Lines 259-267, with a game running: report the final score, then
        clear lives, both scores, the level and its index. */
    method EndGame(completed: bool)
      requires Tied() && currentLevelNumber >= 0
      modifies this
      ensures Tied()
      ensures var g := old(Abstract());
        && Abstract() == g.(lives := 0, levelNumber := -1, level := None, score := 0, total := 0)
        && trace == old(trace) + [OnGameStopped(g.total + g.score, completed)]
    {
      totalScore := totalScore + currentScore;
      trace := trace + [OnGameStopped(totalScore, completed)];
      currentLives, currentLevelNumber, currentLevel, currentScore, totalScore := 0, -1, None, 0, 0;
      TiedKept(this);
    }

    /** Lines 305-307. */
    method EnableInput(enable: bool)
      requires Valid()
      modifies this
      ensures Valid()
      ensures var r := GameSpec.EnableInput(old(Abstract()), enable);
        Abstract() == r.game && trace == old(trace) + r.events
    {
      acceptsInput := enable;
    }

    /** Lines 273-283. */
    method TogglePause()
      requires Valid()
      modifies this
      ensures Valid()
      ensures var r := GameSpec.TogglePause(old(Abstract()));
        Abstract() == r.game && trace == old(trace) + r.events
    {
      gamePaused := !gamePaused;
      EnableInput(!gamePaused);
      if gamePaused {
        trace := trace + [OnGamePaused];
      } else {
        trace := trace + [OnGameResumed];
      }
    }

    /** Lines 288-298. `ok` is false when prepareLevel throws because there
        is no current level. */
    method ResetLevel() returns (ok: bool)
      requires Valid()
      modifies this
      ensures Valid()
      ensures var r := GameSpec.ResetLevel(levelPack, configuration, old(Abstract()));
        Abstract() == r.game && trace == old(trace) + r.events && ok == r.ok
    {
      ghost var g0 := Abstract();
      var loaded := PrepareLevel();
      if !loaded {
        return false;
      }
      PrepareLevelFits(g0, g0.level.value);
      ghost var g1 := GameSpec.PrepareLevel(g0, g0.level.value);
      assert Abstract() == g1;
      ResetLevelSplit(levelPack, configuration, g0);
      if currentLives >= 1 {
        SpendLife();
      } else {
        StopGame(false);
      }
      return true;
    }

    /** Lines 290-292: one life is lost, then the lives and the reloaded
        board are reported. */
    method SpendLife()
      requires Tied() && currentLives >= 1
      modifies this
      ensures Tied()
      ensures var g := old(Abstract());
        && Abstract() == g.(lives := g.lives - 1)
        && trace == old(trace) + [OnLivesUpdated(g.lives - 1, configuration.maxLives), OnBoardUpdated(g.level, g.crates, g.player, None)]
    {
      currentLives := currentLives - 1;
      trace := trace + [OnLivesUpdated(currentLives, MaxLives()), OnBoardUpdated(currentLevel, Crates, playerPosition, None)];
      TiedKept(this);
    }

    /** Lines 368-369 and 386-387: move the crate flag from `src` to `dst`. */
    method ShiftFlag(src: Pos, dst: Pos)
      requires Tied() && InGrid(Abstract(), src) && InGrid(Abstract(), dst)
      modifies this, crates
      ensures Tied() && crates == old(crates) && board == old(board) && trace == old(trace)
      ensures Abstract() == old(Abstract()).(crates := (old(Crates) - {src}) + {dst})
    {
      Crates := SetFlag(crates, src, false, Crates);
      Crates := SetFlag(crates, dst, true, Crates);
    }

    /** Lines 374-377 and 392-395: update the matched count for a crate
        going from the cell `src` to the cell `dst`. */
    method CountMatch(src: Pos, dst: Pos)
      requires Tied() && InGrid(Abstract(), src) && InGrid(Abstract(), dst)
      modifies this
      ensures Tied() && crates == old(crates) && board == old(board) && trace == old(trace)
      ensures var g := old(Abstract());
        GridShaped(g) && Abstract() == g.(numMatched := g.numMatched + MatchedChange(TileAt(g, src), TileAt(g, dst)))
    {
      if board[dst.y, dst.x] == TargetSpot && board[src.y, src.x] != TargetSpot {
        numMatched := numMatched + 1;
      } else if board[dst.y, dst.x] != TargetSpot && board[src.y, src.x] == TargetSpot {
        numMatched := numMatched - 1;
      }
    }

    /** Lines 365-377: the crate on `t` goes to `b = t + d`, and a crate
        already on `b` goes on to `b + d` and uses up STRENGTH. */
    method Shove(t: Pos, d: Pos)
      requires Valid() && InGrid(Abstract(), t) && t in Crates
      requires var b := Add(t, d);
        && InGrid(Abstract(), b) && (b in Crates ==> InGrid(Abstract(), Add(b, d)))
      modifies this, crates
      ensures Tied() && crates == old(crates) && board == old(board) && trace == old(trace)
      ensures var g, b := old(Abstract()), Add(t, d);
        var far: set<Pos> := if b in g.crates then {Add(b, d)} else {};
        var powerUps := if b in g.crates then g.powerUps - {Strength} else g.powerUps;
        Abstract() == g.(crates := (g.crates + far - {t}) + {b}, powerUps := powerUps,
                         numMatched := g.numMatched + MatchedChange(TileAt(g, t), TileAt(g, b)))
    {
      ghost var g := Abstract();
      var b := Add(t, d);
      if crates[b.y, b.x] {
        Crates := SetFlag(crates, Add(b, d), true, Crates);
        powerUps := powerUps - {Strength};
      } else {
        assert g.crates + {} == g.crates;
      }
      ShiftFlag(t, b);
      CountMatch(t, b);
    }

    /** Lines 351-378: the push stage of `move` for the target cell `t`
        and the step `d`. */
    method PushStage(t: Pos, d: Pos) returns (p: Progress)
      requires Valid() && InGrid(Abstract(), t)
      modifies this, crates
      ensures Tied() && crates == old(crates) && board == old(board) && trace == old(trace)
      ensures var r := PushCrate(old(Abstract()), t, d); Abstract() == r.game && Reports(p, r)
    {
      ghost var g := Abstract();
      if !crates[t.y, t.x] {
        return Go(None);
      }
      var b := Add(t, d);
      if !(0 <= b.y < crates.Length0 && 0 <= b.x < crates.Length1) {
        return Halt(Fault);
      }
      if board[b.y, b.x] == Wall {
        return Halt(Blocked);
      }
      if crates[b.y, b.x] && Strength !in powerUps {
        return Halt(Blocked);
      }
      if crates[b.y, b.x] {
        var f := Add(b, d);
        if !(0 <= f.y < crates.Length0 && 0 <= f.x < crates.Length1) {
          return Halt(Fault);
        }
      }
      Shove(t, d);
      return Go(Some({Delta(t, b)}));
    }

    /** Lines 380-397: the pull stage of `move`, as written. */
    method PullStage(t: Pos, d: Pos, deltas: Option<set<Delta>>) returns (p: Progress)
      requires Valid() && InGrid(Abstract(), t)
      modifies this, crates
      ensures Tied() && crates == old(crates) && board == old(board) && trace == old(trace)
      ensures var r := PullCrate(old(Abstract()), t, d, deltas); Abstract() == r.game && Reports(p, r)
    {
      if Pull !in powerUps {
        return Go(deltas);
      }
      var s := Sub(t, d);
      if !(0 <= s.y < crates.Length0 && 0 <= s.x < crates.Length1) {
        return Halt(Fault);
      }
      if !crates[s.y, s.x] {
        return Go(deltas);
      }
      powerUps := powerUps - {Pull};
      ShiftFlag(s, t);
      var b := Add(t, d);
      if !(0 <= b.y < board.Length0 && 0 <= b.x < board.Length1) {
        return Halt(Fault);
      }
      CountMatch(t, b);
      return Go(Some({Delta(t, b)}));
    }

    /** Lines 404-407: every crate is matched, so load the next level, or
        stop the game as completed when there is none. */
    method CompleteLevel()
      requires Valid()
      modifies this
      ensures Valid()
      ensures var r := GameSpec.CompleteLevel(levelPack, old(Abstract()));
        Abstract() == r.game && trace == old(trace) + r.events
    {
      var advanced := NextLevel();
      if !advanced {
        StopGame(true);
      }
    }

    /** Lines 409-412: collect the power-up of the pick-up tile at `t`;
        `Fault` when `t` lies outside the board now in place. */
    method CollectPickup(t: Pos) returns (outcome: MoveOutcome)
      requires Valid()
      modifies this
      ensures Valid() && trace == old(trace)
      ensures var g := old(Abstract());
        if InGrid(g, t) then outcome == Moved && Abstract() == g.(powerUps := g.powerUps + Pickup(TileAt(g, t)))
        else outcome == Fault && Abstract() == g
    {
      if !(0 <= t.y < board.Length0 && 0 <= t.x < board.Length1) {
        return Fault;
      }
      var tile := board[t.y, t.x];
      if tile == GhostPickup {
        powerUps := powerUps + {Ghost};
      }
      if tile == StrengthPickup {
        powerUps := powerUps + {Strength};
      }
      if tile == PullPickup {
        powerUps := powerUps + {Pull};
      }
      return Moved;
    }

    /** Lines 398-412: commit the move to `t`, notify, complete the level
        when every crate is matched, then collect the pick-up under the
        player on whatever board is in place. */
    method Commit(t: Pos, deltas: Option<set<Delta>>) returns (outcome: MoveOutcome)
      requires Valid() && InGrid(Abstract(), t)
      modifies this
      ensures Valid()
      ensures var r := Conclude(levelPack, old(Abstract()), t, deltas);
        Abstract() == r.game && trace == old(trace) + r.events && outcome == r.outcome
    {
      ghost var g := Abstract();
      playerPosition := Some(t);
      currentScore := currentScore + 1;
      trace := trace + [OnScoreUpdated(currentScore, totalScore), OnBoardUpdated(currentLevel, Crates, playerPosition, deltas)];
      TiedKept(this);
      ghost var g1 := Abstract();
      ghost var t1 := trace;
      assert g1 == g.(player := Some(t), score := g.score + 1);
      SameLayoutKeepsInv(levelPack, g, g1);
      if numMatched == numCrates {
        CompleteLevel();
      }
      ghost var w := if g1.numMatched == g1.numCrates then GameSpec.CompleteLevel(levelPack, g1) else Effect(g1, []);
      assert Abstract() == w.game && trace == t1 + w.events;
      outcome := CollectPickup(t);
      ConcludeSplit(levelPack, g, t, deltas);
      AppendAssoc(old(trace), [OnScoreUpdated(g1.score, g1.total), OnBoardUpdated(g1.level, g1.crates, g1.player, deltas)], w.events);
    }

    /** Lines 314-413. The outcome says how the call ended; `Fault` stands
        for an exception (an index outside the arrays, or the null power-up
        set before the first successful startGame). */
    method Move(direction: Direction) returns (outcome: MoveOutcome)
      requires Valid()
      modifies this, crates
      ensures Valid()
      ensures var r := GameSpec.Move(levelPack, old(Abstract()), direction);
        Abstract() == r.game && trace == old(trace) + r.events && outcome == r.outcome
    {
      if currentLevelNumber < 0 || !acceptsInput {
        return Ignored;
      }
      if playerPosition.None? || currentLevel.None? {
        return Fault;
      }
      var d := Offset(direction);
      var t := Add(playerPosition.value, d);
      if t.x < 0 || t.x > currentLevel.value.width || t.y < 0 || t.y > currentLevel.value.height {
        return Blocked;
      }
      if !(0 <= t.y < board.Length0 && 0 <= t.x < board.Length1) {
        return Fault;
      }
      if !powerUpsCreated {
        return Fault;
      }
      ghost var g := Abstract();
      assert board[t.y, t.x] == TileAt(g, t);
      if board[t.y, t.x] == Wall && Ghost !in powerUps {
        return Blocked;
      }
      ghost var h := g.(powerUps := g.powerUps - {Ghost});
      SameLayoutKeepsInv(levelPack, g, h);
      assert GameSpec.Move(levelPack, g, direction) == Resolve(levelPack, h, t, d);
      powerUps := powerUps - {Ghost};
      TiedKept(this);
      assert Abstract() == h;
      outcome := ResolveMove(t, d);
    }

    /** Lines 350-412, once GHOST has been spent: the crate stages, then
        the commit. */
    method ResolveMove(t: Pos, d: Pos) returns (outcome: MoveOutcome)
      requires Valid() && InGrid(Abstract(), t)
      modifies this, crates
      ensures Valid()
      ensures var r := Resolve(levelPack, old(Abstract()), t, d);
        Abstract() == r.game && trace == old(trace) + r.events && outcome == r.outcome
    {
      ghost var g := Abstract();
      var p := PushStage(t, d);
      SameGroundKeepsInv(levelPack, g, Abstract());
      if p.Halt? {
        return p.outcome;
      }
      ghost var g2 := Abstract();
      p := PullStage(t, d, p.deltas);
      SameGroundKeepsInv(levelPack, g2, Abstract());
      if p.Halt? {
        return p.outcome;
      }
      outcome := Commit(t, p.deltas);
    }
  }
}
