/**
 * The values the game engine works with: level tiles, positions, levels,
 * power-ups, the notifications it sends to its listeners, and `Game`, a
 * snapshot of every field of the controller.
 */
module GameTypes {
  import opened Basics

  /** LevelTile. `Crate` and `Player` are spawn markers that only occur in a
      level's initial grid; the three pick-up tiles grant a power-up. */
  datatype Tile = Floor | Wall | Crate | TargetSpot | Player | GhostPickup | StrengthPickup | PullPickup

  /** GamePowerup: each one changes the rules of a later move once. */
  datatype Powerup = Ghost | Strength | Pull

  /** GameMovementDirection. */
  datatype Direction = Up | Down | Left | Right

  /** A cell of the grid: `x` is the column, `y` the row (Dimensions'
      width and height). Also used for the unit step of a direction. */
  datatype Pos = Pos(x: int, y: int)

  /** Dimensions.Delta: a crate that went from one cell to another. */
  datatype Delta = Delta(from: Pos, to: Pos)

  /** ILevel: a fixed size and the initial tile grid, row by row. */
  datatype Level = Level(width: nat, height: nat, tiles: seq<seq<Tile>>) {
    /** The grid has exactly `height` rows of `width` tiles. */
    predicate WellFormed() {
      |tiles| == height && forall y :: 0 <= y < |tiles| ==> |tiles[y]| == width
    }
  }

  /** The part of IConfiguration the controller reads. */
  datatype Config = Config(startingLives: int, maxLives: int)

  /** One call of a listener, in the order the controller dispatches them.
      The board listeners receive references to the live arrays; the
      trace records what those arrays hold at the moment of the call. */
  datatype Event =
    | OnGameStarted(level: Option<Level>, lives: int)
    | OnGameStopped(totalScore: int, completed: bool)
    | OnNextLevel(previousLevel: Option<Level>, previousScore: int, currentLevel: Option<Level>, totalScore: int)
    | OnLivesUpdated(lives: int, maxLives: int)
    | OnScoreUpdated(score: int, totalScore: int)
    | OnGamePaused
    | OnGameResumed
    | OnBoardUpdated(level: Option<Level>, crates: set<Pos>, player: Option<Pos>, deltas: Option<set<Delta>>)

  /** How a call of `move` ended: gated off, rejected by the rules,
      accepted, or stopped by an exception (an index outside the arrays or
      a null reference). */
  datatype MoveOutcome = Ignored | Blocked | Moved | Fault

  /** Every field of GameController. `board` is `height` rows of `width`
      tiles; `crates` is the set of cells whose crate flag is true;
      `powerUpsCreated` is false while the power-up set is still the null
      reference it is until the first successful startGame. */
  datatype Game = Game(
    lives: int,
    levelNumber: int,
    level: Option<Level>,
    score: int,
    total: int,
    powerUps: set<Powerup>,
    powerUpsCreated: bool,
    paused: bool,
    acceptsInput: bool,
    height: nat,
    width: nat,
    board: seq<seq<Tile>>,
    crates: set<Pos>,
    numCrates: int,
    numMatched: int,
    player: Option<Pos>)

  /** The fields as the controller's constructor leaves them: no level,
      level index -1, input accepted, no power-up set, empty arrays. */
  function InitialGame(): (g: Game)
    ensures g.levelNumber == -1 && g.level == None && g.acceptsInput && !g.paused && !g.powerUpsCreated
    ensures g.board == [] && g.crates == {} && g.player == None
  {
    Game(0, -1, None, 0, 0, {}, false, false, true, 0, 0, [], {}, 0, 0, None)
  }

  function Add(p: Pos, q: Pos): Pos {
    Pos(p.x + q.x, p.y + q.y)
  }

  function Sub(p: Pos, q: Pos): Pos {
    Pos(p.x - q.x, p.y - q.y)
  }

  /** The unit step (xm, ym) of a direction; UP is towards row 0. */
  function Offset(d: Direction): (r: Pos)
    ensures (r.x == 0) != (r.y == 0)
    ensures -1 <= r.x <= 1 && -1 <= r.y <= 1
    ensures d == Up <==> r.y == -1
    ensures d == Down <==> r.y == 1
    ensures d == Left <==> r.x == -1
    ensures d == Right <==> r.x == 1
  {
    match d
    case Right => Pos(1, 0)
    case Left => Pos(-1, 0)
    case Up => Pos(0, -1)
    case Down => Pos(0, 1)
  }

  /** Whether `p` indexes the board and crate arrays without an exception. */
  predicate InGrid(g: Game, p: Pos) {
    0 <= p.y < g.height && 0 <= p.x < g.width
  }

  /** The board is `height` rows of `width` tiles. */
  predicate GridShaped(g: Game) {
    |g.board| == g.height && forall y :: 0 <= y < |g.board| ==> |g.board[y]| == g.width
  }

  function TileAt(g: Game, p: Pos): Tile
    requires GridShaped(g) && InGrid(g, p)
  {
    g.board[p.y][p.x]
  }
}
