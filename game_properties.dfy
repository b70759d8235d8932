/**
 * What GameController promises, proved about the functions of GameSpec:
 * the move gate, bounds and walls, pushing, the matched-crate count, the
 * one point per accepted move, the order of the win check and the pick-up,
 * and the lifecycle operations.
 */
module GameProperties {
  import opened Basics
  import opened GameTypes
  import opened GameSpec

  // ---------------------------------------------------------------------
  // Small facts about finite sets
  // ---------------------------------------------------------------------

  lemma CardRemove<T>(s: set<T>, a: T)
    requires a in s
    ensures |s - {a}| == |s| - 1
  {
    assert s == (s - {a}) + {a};
  }

  /** Replacing a member by a non-member keeps the size. */
  lemma CardSwap<T>(s: set<T>, a: T, b: T)
    requires a in s && b !in s
    ensures |(s - {a}) + {b}| == |s|
  {
    CardRemove(s, a);
  }

  lemma CardSubset<T>(a: set<T>, b: set<T>)
    requires a <= b
    ensures |a| <= |b|
    ensures |a| == |b| ==> a == b
  {
    if a != b {
      var x :| x in b && x !in a;
      CardSubset(a, b - {x});
      CardRemove(b, x);
    }
  }

  // ---------------------------------------------------------------------
  // Gating, bounds, walls and GHOST
  // ---------------------------------------------------------------------

  /** A move with no game running, or with input disabled, changes nothing
      and notifies nobody. */
  lemma MoveGated(pack: seq<Level>, g: Game, dir: Direction)
    requires Inv(pack, g)
    requires !Running(g) || !g.acceptsInput
    ensures Move(pack, g, dir) == Step(g, [], Ignored)
  {
  }

  /** After togglePause, input is accepted exactly when the game is not
      paused, and the matching notification is sent. */
  lemma TogglePauseGatesInput(g: Game)
    ensures var r := TogglePause(g);
      && r.game.paused == !g.paused && r.game.acceptsInput == !r.game.paused
      && r.events == [if r.game.paused then OnGamePaused else OnGameResumed]
      && r.game == g.(paused := r.game.paused, acceptsInput := r.game.acceptsInput)
  {
  }

  /** The preconditions of the rule checks of move: a game runs, input is
      accepted, and there is a level and a player position. */
  predicate Live(g: Game) {
    Running(g) && g.acceptsInput && g.player.Some? && g.level.Some?
  }

  /** A target with a negative coordinate or beyond the bound of the test
      at line 342, or a WALL without GHOST, leaves everything as it was. A
      target exactly one past the last column or row passes that test, and
      indexing the board with it at line 346 throws before anything
      changes. */
  lemma BoundsAndWallsReject(pack: seq<Level>, g: Game, dir: Direction)
    requires Inv(pack, g) && Live(g)
    ensures var t := Target(g, dir); var r := Move(pack, g, dir);
      && (OutOfBounds(g.level.value, t) ==> r == Step(g, [], Blocked))
      && (!OutOfBounds(g.level.value, t) && !InGrid(g, t) ==> r == Step(g, [], Fault))
      && (!OutOfBounds(g.level.value, t) && !InGrid(g, t) ==> t.x == g.width || t.y == g.height)
      && (!OutOfBounds(g.level.value, t) && InGrid(g, t) && !g.powerUpsCreated ==> r == Step(g, [], Fault))
      && (InGrid(g, t) && g.powerUpsCreated && TileAt(g, t) == Wall && Ghost !in g.powerUps ==> r == Step(g, [], Blocked))
  {
  }

  /** The target passes the bounds and wall checks of lines 342-348 (and
      the power-up set exists). */
  predicate PassesWallCheck(g: Game, dir: Direction)
    requires GridShaped(g) && Live(g)
  {
    var t := Target(g, dir);
    && !OutOfBounds(g.level.value, t) && InGrid(g, t) && g.powerUpsCreated
    && !(TileAt(g, t) == Wall && Ghost !in g.powerUps)
  }

  /** Past the wall check, move spends GHOST and hands over to the crate
      stages and the commit. */
  lemma MovePastWallCheck(pack: seq<Level>, g: Game, dir: Direction)
    requires Inv(pack, g) && Live(g) && PassesWallCheck(g, dir)
    ensures Move(pack, g, dir) == Resolve(pack, g.(powerUps := g.powerUps - {Ghost}), Target(g, dir), Offset(dir))
  {
  }

  /** A move stopped before the crate stages changes nothing and notifies
      nobody. */
  lemma MoveStoppedEarly(pack: seq<Level>, g: Game, dir: Direction)
    requires Inv(pack, g)
    requires !Live(g) || !PassesWallCheck(g, dir)
    ensures var r := Move(pack, g, dir); r.game == g && r.events == [] && r.outcome != Moved
  {
  }

  /** The crate stages never grant a power-up, and when they stop the move
      it is rejected or faulted. */
  lemma CrateStagesOnlySpend(g: Game, t: Pos, d: Pos)
    requires GridShaped(g) && CratesInGrid(g) && InGrid(g, t)
    ensures var r := CrateStages(g, t, d);
      && r.game.powerUps <= g.powerUps
      && (r.Stop? ==> r.outcome == Blocked || r.outcome == Fault)
  {
  }

  /** Level changes never touch the power-ups. */
  lemma CompleteLevelKeepsPowerUps(pack: seq<Level>, g: Game)
    requires Inv(pack, g)
    ensures CompleteLevel(pack, g).game.powerUps == g.powerUps
  {
  }

  // ---------------------------------------------------------------------
  // Committing a move: score, notifications, win check, pick-up
  // ---------------------------------------------------------------------
  /** How the level change after the last crate is matched is reported,
      seen from the level, index and scores at the win check: the next level is loaded
      (the level score banked into the total, the new score and a redraw
      announced, then the next-level notification with the level left and
      its score), or, with no level left, the game stops as completed with
      the full score. */
  predicate CompletionReported(level: Option<Level>, levelNumber: int, score: int, total: int,
                               after: Game, events: seq<Event>) {
    var sum := total + score;
    || (&& events == [OnScoreUpdated(0, sum), OnBoardUpdated(after.level, after.crates, after.player, None),
                      OnNextLevel(level, score, after.level, sum)]
        && after.levelNumber == levelNumber + 1 && after.score == 0 && after.total == sum)
    || (&& events == [OnGameStopped(sum, true)]
        && !Running(after) && after.score == 0 && after.total == 0 && after.lives == 0)
  }

  /** With a level left, lines 404-405 load it and report it. */
  lemma CompleteLevelAdvances(pack: seq<Level>, g: Game)
    requires Inv(pack, g) && Running(g) && g.levelNumber + 1 < |pack|
    ensures var w := CompleteLevel(pack, g);
      CompletionReported(g.level, g.levelNumber, g.score, g.total, w.game, w.events)
  {
    var n := NextLevelInternal(pack, g);
    assert CompleteLevel(pack, g) == Effect(n.game, n.events + [OnNextLevel(g.level, g.score, n.game.level, n.game.total)]);
  }

  /** With no level left, line 406 stops the game as completed. */
  lemma CompleteLevelStops(pack: seq<Level>, g: Game)
    requires Inv(pack, g) && Running(g) && g.levelNumber + 1 >= |pack|
    ensures var w := CompleteLevel(pack, g);
      CompletionReported(g.level, g.levelNumber, g.score, g.total, w.game, w.events)
  {
    assert CompleteLevel(pack, g).events == [OnGameStopped(g.total + g.score, true)];
  }

  /** Lines 404-407 report the level change as above and leave the
      power-ups alone. */
  lemma CompleteLevelReports(pack: seq<Level>, g: Game)
    requires Inv(pack, g) && Running(g)
    ensures var w := CompleteLevel(pack, g);
      CompletionReported(g.level, g.levelNumber, g.score, g.total, w.game, w.events) && w.game.powerUps == g.powerUps
  {
    CompleteLevelKeepsPowerUps(pack, g);
    if g.levelNumber + 1 < |pack| {
      CompleteLevelAdvances(pack, g);
    } else {
      CompleteLevelStops(pack, g);
    }
  }

  /** The commit of lines 398-403: one point, then the score and board
      notifications with the player on the target; without a win that is
      all, and the pick-up under the target is collected. */
  lemma ConcludeNotifies(pack: seq<Level>, g: Game, t: Pos, deltas: Option<set<Delta>>)
    requires Inv(pack, g) && InGrid(g, t) && Running(g)
    ensures var r := Conclude(pack, g, t, deltas);
      && |r.events| >= 2
      && r.events[0] == OnScoreUpdated(g.score + 1, g.total)
      && r.events[1] == OnBoardUpdated(g.level, g.crates, Some(t), deltas)
      && (g.numMatched != g.numCrates ==>
            && |r.events| == 2 && r.outcome == Moved
            && r.game == g.(player := Some(t), score := g.score + 1, powerUps := g.powerUps + Pickup(TileAt(g, t))))
  {
  }

  /** A commit ends accepted or, when the target is off the board in place
      after the win check, with an exception. The pick-up is read after the
      win check, so it is the one under the target on that board; nothing
      else is gained or spent. */
  lemma ConcludeOutcome(pack: seq<Level>, g: Game, t: Pos, deltas: Option<set<Delta>>)
    requires Inv(pack, g) && InGrid(g, t) && Running(g)
    ensures var r := Conclude(pack, g, t, deltas);
      && (r.outcome == Moved || r.outcome == Fault)
      && (r.outcome == Moved <==> InGrid(r.game, t))
      && (r.outcome == Moved ==>
            r.game.powerUps == g.powerUps + Pickup(TileAt(r.game, t)))
      && (r.outcome == Fault ==> r.game.powerUps == g.powerUps)
  {
    var g1 := g.(player := Some(t), score := g.score + 1);
    var w := if g1.numMatched == g1.numCrates then CompleteLevel(pack, g1) else Effect(g1, []);
    assert w.game.powerUps == g.powerUps by {
      if g1.numMatched == g1.numCrates {
        CompleteLevelKeepsPowerUps(pack, g1);
      }
    }
    var r := Conclude(pack, g, t, deltas);
    if InGrid(w.game, t) {
      assert r.game == w.game.(powerUps := w.game.powerUps + Pickup(TileAt(w.game, t))) && r.outcome == Moved;
    } else {
      assert r.game == w.game && r.outcome == Fault;
    }
  }

  /** A move's report of a win: after the score and board notifications,
      the level change of lines 404-407, seen from the fields before the
      move with its one point added. */
  predicate WinReported(g: Game, r: Step) {
    |r.events| >= 2 && CompletionReported(g.level, g.levelNumber, g.score + 1, g.total, r.game, r.events[2..])
  }

  /** A commit that matches the last crate reports the win. */
  lemma ConcludeWins(pack: seq<Level>, g: Game, t: Pos, deltas: Option<set<Delta>>)
    requires Inv(pack, g) && InGrid(g, t) && Running(g) && g.numMatched == g.numCrates
    ensures WinReported(g, Conclude(pack, g, t, deltas))
  {
    var g1 := g.(player := Some(t), score := g.score + 1);
    var w := CompleteLevel(pack, g1);
    CompleteLevelReports(pack, g1);
    ConcludeSplit(pack, g, t, deltas);
    var r := Conclude(pack, g, t, deltas);
    assert r.events[2..] == w.events;
    assert r.game.(powerUps := w.game.powerUps) == w.game;
  }

  /** The crate stages and the commit: a move stopped by the crate stages
      scores nothing and notifies nobody; one that gets through scores one
      point, announces it, and redraws the player on the target; without a
      win that is all. */
  lemma ResolveScoresOne(pack: seq<Level>, g: Game, t: Pos, d: Pos)
    requires Inv(pack, g) && InGrid(g, t) && Running(g)
    ensures var r := Resolve(pack, g, t, d);
      && (r.events == [] ==> r.outcome != Moved && r.game.score == g.score && r.game.total == g.total
                             && r.game.player == g.player && r.game.lives == g.lives && r.game.levelNumber == g.levelNumber)
      && (r.events != [] ==>
            && |r.events| >= 2
            && r.events[0] == OnScoreUpdated(g.score + 1, g.total)
            && r.events[1].OnBoardUpdated? && r.events[1].player == Some(t)
            && (|r.events| == 2 ==> r.game.score == g.score + 1 && r.game.total == g.total && r.game.player == Some(t)))
  {
    CrateStagesOnlySpend(g, t, d);
    match CrateStages(g, t, d)
    case Stop(g3, outcome) =>
      assert Resolve(pack, g, t, d) == Step(g3, [], outcome);
    case Continue(g3, deltas) =>
      assert Resolve(pack, g, t, d) == Conclude(pack, g3, t, deltas);
      ConcludeNotifies(pack, g3, t, deltas);
      if g3.numMatched == g3.numCrates {
        ConcludeWins(pack, g3, t, deltas);
      }
  }

  /** The crate stages and the commit report a win exactly as a commit
      does, seen from the fields before the crate stages. */
  lemma ResolveWins(pack: seq<Level>, g: Game, t: Pos, d: Pos)
    requires Inv(pack, g) && InGrid(g, t) && Running(g)
    ensures var r := Resolve(pack, g, t, d); |r.events| > 2 ==> WinReported(g, r)
  {
    match CrateStages(g, t, d)
    case Stop(g3, outcome) =>
      assert Resolve(pack, g, t, d) == Step(g3, [], outcome);
    case Continue(g3, deltas) =>
      var r := Conclude(pack, g3, t, deltas);
      assert Resolve(pack, g, t, d) == r;
      assert g3.level == g.level && g3.levelNumber == g.levelNumber && g3.score == g.score && g3.total == g.total;
      if g3.numMatched == g3.numCrates {
        ConcludeWins(pack, g3, t, deltas);
      } else {
        ConcludeNotifies(pack, g3, t, deltas);
      }
  }

  /** The crate stages and the commit end as the commit does, and gain only
      the pick-up under the target. */
  lemma ResolveCollectsPickup(pack: seq<Level>, g: Game, t: Pos, d: Pos)
    requires Inv(pack, g) && InGrid(g, t) && Running(g)
    ensures var r := Resolve(pack, g, t, d);
      && (r.outcome == Moved ==>
            && InGrid(r.game, t)
            && Pickup(TileAt(r.game, t)) <= r.game.powerUps
            && r.game.powerUps <= g.powerUps + Pickup(TileAt(r.game, t)))
      && (r.outcome != Moved ==> r.game.powerUps <= g.powerUps)
  {
    CrateStagesOnlySpend(g, t, d);
    match CrateStages(g, t, d)
    case Stop(_, _) =>
    case Continue(g3, deltas) =>
      ConcludeOutcome(pack, g3, t, deltas);
  }

  /** Once past the wall check, GHOST is spent, whether or not a wall was
      in the way and however the move then ends: it can only be held
      afterwards if the move was accepted onto a GHOST pick-up tile. */
  lemma GhostSpentPastWallCheck(pack: seq<Level>, g: Game, dir: Direction)
    requires Inv(pack, g) && Live(g) && PassesWallCheck(g, dir)
    ensures var t := Target(g, dir); var r := Move(pack, g, dir);
      Ghost in r.game.powerUps ==> r.outcome == Moved && InGrid(r.game, t) && TileAt(r.game, t) == GhostPickup
  {
    MovePastWallCheck(pack, g, dir);
    ResolveCollectsPickup(pack, g.(powerUps := g.powerUps - {Ghost}), Target(g, dir), Offset(dir));
  }

  /** A move that got past the wall check scores and notifies as its
      crate stages and commit do. */
  lemma ScoresPastWallCheck(pack: seq<Level>, g: Game, dir: Direction)
    requires Inv(pack, g) && Live(g) && PassesWallCheck(g, dir)
    ensures var r := Move(pack, g, dir);
      && (r.events == [] ==> r.outcome != Moved && r.game.score == g.score && r.game.total == g.total
                             && r.game.player == g.player && r.game.lives == g.lives && r.game.levelNumber == g.levelNumber)
      && (r.events != [] ==>
            && |r.events| >= 2
            && r.events[0] == OnScoreUpdated(g.score + 1, g.total)
            && r.events[1].OnBoardUpdated? && r.events[1].player == Some(Target(g, dir))
            && (|r.events| == 2 ==> r.game.score == g.score + 1 && r.game.total == g.total
                                    && r.game.player == Some(Target(g, dir))))
  {
    var g1 := g.(powerUps := g.powerUps - {Ghost});
    MovePastWallCheck(pack, g, dir);
    ResolveScoresOne(pack, g1, Target(g, dir), Offset(dir));
    assert g1.score == g.score && g1.total == g.total && g1.player == g.player;
    assert g1.lives == g.lives && g1.levelNumber == g.levelNumber;
  }

  /** A rejected or ignored move scores nothing and notifies nobody; an
      accepted one scores exactly one point, announces the new score and
      then redraws the moved crates and the player on the target. Without a
      win that is all, and the player stands on the target. */
  lemma AcceptedMoveScoresOne(pack: seq<Level>, g: Game, dir: Direction)
    requires Inv(pack, g)
    ensures var r := Move(pack, g, dir);
      && (r.events == [] ==> r.outcome != Moved && r.game.score == g.score && r.game.total == g.total
                             && r.game.player == g.player && r.game.lives == g.lives && r.game.levelNumber == g.levelNumber)
      && (r.events != [] ==>
            && g.player.Some? && |r.events| >= 2
            && r.events[0] == OnScoreUpdated(g.score + 1, g.total)
            && r.events[1].OnBoardUpdated? && r.events[1].player == Some(Target(g, dir))
            && (|r.events| == 2 ==> r.game.score == g.score + 1 && r.game.total == g.total
                                    && r.game.player == Some(Target(g, dir))))
  {
    if Live(g) && PassesWallCheck(g, dir) {
      ScoresPastWallCheck(pack, g, dir);
    } else {
      MoveStoppedEarly(pack, g, dir);
    }
  }


  /** A move that got past the wall check reports a win as its commit
      does. */
  lemma WinPastWallCheck(pack: seq<Level>, g: Game, dir: Direction)
    requires Inv(pack, g) && Live(g) && PassesWallCheck(g, dir)
    ensures var r := Move(pack, g, dir); |r.events| > 2 ==> WinReported(g, r)
  {
    var g1 := g.(powerUps := g.powerUps - {Ghost});
    MovePastWallCheck(pack, g, dir);
    ResolveWins(pack, g1, Target(g, dir), Offset(dir));
    assert g1.level == g.level && g1.levelNumber == g.levelNumber && g1.score == g.score && g1.total == g.total;
  }

  /** The win check runs before the pick-up: a move that notifies more
      than the score and the board has matched the last crate and reports
      the level change: the next level loaded, or the game stopped as
      completed. */
  lemma WinAdvancesBeforePickup(pack: seq<Level>, g: Game, dir: Direction)
    requires Inv(pack, g)
    ensures var r := Move(pack, g, dir); |r.events| > 2 ==> WinReported(g, r)
  {
    if Live(g) && PassesWallCheck(g, dir) {
      WinPastWallCheck(pack, g, dir);
    } else {
      MoveStoppedEarly(pack, g, dir);
    }
  }


  /** An accepted move collects the pick-up under the target on the board
      in place after the win check, and gains nothing else; a move that is
      not accepted gains nothing. */
  lemma MovedCollectsPickup(pack: seq<Level>, g: Game, dir: Direction)
    requires Inv(pack, g)
    ensures var r := Move(pack, g, dir);
      && (r.outcome == Moved ==>
            && g.player.Some? && InGrid(r.game, Target(g, dir))
            && Pickup(TileAt(r.game, Target(g, dir))) <= r.game.powerUps
            && r.game.powerUps <= g.powerUps + Pickup(TileAt(r.game, Target(g, dir))))
      && (r.outcome != Moved ==> r.game.powerUps <= g.powerUps)
  {
    if Live(g) && PassesWallCheck(g, dir) {
      MovePastWallCheck(pack, g, dir);
      ResolveCollectsPickup(pack, g.(powerUps := g.powerUps - {Ghost}), Target(g, dir), Offset(dir));
    } else {
      MoveStoppedEarly(pack, g, dir);
    }
  }

  // ---------------------------------------------------------------------
  // Pushing
  // ---------------------------------------------------------------------

  /** A crate on the target with a WALL behind it, or with another crate
      behind it and no STRENGTH, rejects the move: player, crates, score
      and level stay as they were, nobody is notified; only GHOST, checked
      before, is spent. */
  lemma PushRejected(pack: seq<Level>, g: Game, dir: Direction)
    requires Inv(pack, g) && Live(g) && PassesWallCheck(g, dir)
    requires var t := Target(g, dir); var b := Add(t, Offset(dir));
      t in g.crates && InGrid(g, b) && (TileAt(g, b) == Wall || (b in g.crates && Strength !in g.powerUps))
    ensures Move(pack, g, dir) == Step(g.(powerUps := g.powerUps - {Ghost}), [], Blocked)
  {
    MovePastWallCheck(pack, g, dir);
  }

  /** A successful push moves the crate on `t` one step along `d` and
      records that single delta. Without a crate behind, the crates are
      the same in number. With one behind, STRENGTH is spent and a crate
      flag is set one step further; if a crate was already there, one
      crate disappears. The matched count follows the static tiles of the
      pushed crate's two cells only. */
  lemma {:induction false} PushMovesCrate(g: Game, t: Pos, d: Pos)
    requires GridShaped(g) && CratesInGrid(g) && InGrid(g, t)
    requires t in g.crates && PushCrate(g, t, d).Continue? && d != Pos(0, 0)
    ensures var r := PushCrate(g, t, d); var b := Add(t, d);
      && r.deltas == Some({Delta(t, b)})
      && t !in r.game.crates && b in r.game.crates
      && r.game.numMatched == g.numMatched + MatchedChange(TileAt(g, t), TileAt(g, b))
      && (b !in g.crates ==>
            && r.game.crates == (g.crates - {t}) + {b}
            && |r.game.crates| == |g.crates|
            && r.game.powerUps == g.powerUps)
      && (b in g.crates ==>
            && Strength in g.powerUps && r.game.powerUps == g.powerUps - {Strength}
            && r.game.crates == (g.crates + {Add(b, d)}) - {t}
            && |r.game.crates| == if Add(b, d) in g.crates then |g.crates| - 1 else |g.crates|)
  {
    var b := Add(t, d);
    var r := PushCrate(g, t, d);
    assert b != t;
    if b !in g.crates {
      CardSwap(g.crates, t, b);
    } else {
      var f := Add(b, d);
      assert f != t;
      assert r.game.crates == (g.crates + {f}) - {t};
      if f in g.crates {
        assert g.crates + {f} == g.crates;
        CardRemove(g.crates, t);
      } else {
        CardSwap(g.crates, t, f);
        assert (g.crates + {f}) - {t} == (g.crates - {t}) + {f};
      }
    }
  }

  // ---------------------------------------------------------------------
  // The matched-crate count
  // ---------------------------------------------------------------------

  /** The crates standing on a TARGET_SPOT of the static board. */
  function OnTargets(board: seq<seq<Tile>>, crates: set<Pos>): (r: set<Pos>)
    ensures r <= crates
    ensures forall p :: p in r <==> p in crates && HasTile(board, p, TargetSpot)
  {
    set p | p in crates && HasTile(board, p, TargetSpot)
  }

  /** numCrates counts the crates and numMatched the crates on targets. */
  predicate Tracking(g: Game) {
    g.numCrates == |g.crates| && g.numMatched == |OnTargets(g.board, g.crates)|
  }

  /** While the counts track the crates, 0 <= numMatched <= numCrates, and
      the win test numMatched == numCrates holds exactly when every crate
      stands on a TARGET_SPOT. */
  lemma WinMeansAllCratesOnTargets(g: Game)
    requires GridShaped(g) && CratesInGrid(g) && Tracking(g)
    ensures 0 <= g.numMatched <= g.numCrates
    ensures g.numMatched == g.numCrates <==> forall p :: p in g.crates ==> TileAt(g, p) == TargetSpot
  {
    var on := OnTargets(g.board, g.crates);
    CardSubset(on, g.crates);
    if forall p :: p in g.crates ==> TileAt(g, p) == TargetSpot {
      assert on == g.crates;
    }
    if g.numMatched == g.numCrates {
      assert on == g.crates;
      forall p | p in g.crates ensures TileAt(g, p) == TargetSpot {
        assert p in on;
      }
    }
  }

  /** prepareLevel starts the counts right: a crate's spawn cell becomes
      FLOOR, so no crate starts on a target and numMatched = 0 is exact. */
  lemma PrepareLevelTracks(g: Game, l: Level)
    requires l.WellFormed()
    ensures Tracking(PrepareLevel(g, l))
  {
    PrepareLevelNormalizes(g, l);
    var r := PrepareLevel(g, l);
    assert OnTargets(r.board, r.crates) == {} by {
      forall p | p in r.crates ensures r.board[p.y][p.x] == Floor {
        assert HasTile(l.tiles, p, Crate);
      }
    }
  }

  /** Moving one crate from `a` to a free cell `b` changes the number of
      crates on targets by what the two cells' tiles say. */
  lemma OnTargetsSwap(board: seq<seq<Tile>>, s: set<Pos>, a: Pos, b: Pos)
    requires a in s && b !in s
    ensures |OnTargets(board, (s - {a}) + {b})| ==
            |OnTargets(board, s)| - (if HasTile(board, a, TargetSpot) then 1 else 0)
                                  + (if HasTile(board, b, TargetSpot) then 1 else 0)
  {
    var before := OnTargets(board, s);
    var kept := before - {a};
    var after := OnTargets(board, (s - {a}) + {b});
    assert |kept| == |before| - (if HasTile(board, a, TargetSpot) then 1 else 0) by {
      if HasTile(board, a, TargetSpot) {
        CardRemove(before, a);
      } else {
        assert kept == before;
      }
    }
    if HasTile(board, b, TargetSpot) {
      assert after == kept + {b};
      assert b !in kept;
    } else {
      assert after == kept;
    }
  }


  /** A push without a crate behind keeps the counts exact: the change of
      lines 374-377 is the change in crates on targets. */
  lemma PushKeepsTracking(g: Game, t: Pos, d: Pos)
    requires GridShaped(g) && CratesInGrid(g) && InGrid(g, t) && Tracking(g) && d != Pos(0, 0)
    requires PushCrate(g, t, d).Continue? && (t in g.crates ==> Add(t, d) !in g.crates)
    ensures Tracking(PushCrate(g, t, d).game)
  {
    if t in g.crates {
      PushMovesCrate(g, t, d);
      var b := Add(t, d);
      OnTargetsSwap(g.board, g.crates, t, b);
      assert HasTile(g.board, t, TargetSpot) <==> TileAt(g, t) == TargetSpot;
      assert HasTile(g.board, b, TargetSpot) <==> TileAt(g, b) == TargetSpot;
    }
  }

  // ---------------------------------------------------------------------
  // PULL as written
  // ---------------------------------------------------------------------

  /** No crate flag is set under the player. */
  predicate NoCrateUnderPlayer(g: Game) {
    g.player.Some? ==> g.player.value !in g.crates
  }

  /** PULL looks at the player's own cell: while no crate sits under the
      player, it finds nothing, changes nothing and is not spent. */
  lemma PullFindsNothing(g: Game, t: Pos, d: Pos, deltas: Option<set<Delta>>)
    requires GridShaped(g) && CratesInGrid(g) && InGrid(g, t)
    requires Sub(t, d) !in g.crates
    ensures PullCrate(g, t, d, deltas).game == g
    ensures InGrid(g, Sub(t, d)) ==> PullCrate(g, t, d, deltas) == Continue(g, deltas)
  {
  }

  /** Every level of the pack has a spawn point. */
  ghost predicate PackHasPlayers(pack: seq<Level>) {
    forall i :: 0 <= i < |pack| ==> HasPlayer(pack[i])
  }

  /** Loading a level with a spawn point puts no crate under the player. */
  lemma PrepareLevelClearsPlayerCell(g: Game, l: Level)
    requires l.WellFormed() && HasPlayer(l)
    ensures NoCrateUnderPlayer(PrepareLevel(g, l))
  {
    PrepareLevelNormalizes(g, l);
  }

  /** Loading the next level starts the counts and the player's cell
      right; running out of levels changes neither. */
  lemma NextLevelKeepsInvariants(pack: seq<Level>, g: Game)
    requires Inv(pack, g) && PackHasPlayers(pack)
    ensures var r := NextLevel(pack, g);
      && (Tracking(g) ==> Tracking(r.game))
      && (NoCrateUnderPlayer(g) ==> NoCrateUnderPlayer(r.game))
  {
    var n := g.levelNumber + 1;
    if n < |pack| {
      var h := g.(levelNumber := n, level := Some(pack[n]), total := g.total + g.score, score := 0, acceptsInput := true);
      assert NextLevel(pack, g).game == PrepareLevel(h, pack[n]);
      PrepareLevelTracks(h, pack[n]);
      PrepareLevelClearsPlayerCell(h, pack[n]);
    } else {
      assert NextLevel(pack, g).game == g.(levelNumber := n);
    }
  }

  /** A commit onto a cell without a crate leaves the player's cell free
      and keeps exact counts exact, across a level change too. */
  lemma ConcludeKeepsInvariants(pack: seq<Level>, g: Game, t: Pos, deltas: Option<set<Delta>>)
    requires Inv(pack, g) && InGrid(g, t) && PackHasPlayers(pack) && t !in g.crates
    ensures var r := Conclude(pack, g, t, deltas);
      && NoCrateUnderPlayer(r.game)
      && (Tracking(g) ==> Tracking(r.game))
  {
    var g1 := g.(player := Some(t), score := g.score + 1);
    var w := if g1.numMatched == g1.numCrates then CompleteLevel(pack, g1) else Effect(g1, []);
    assert (Tracking(g) ==> Tracking(w.game)) && NoCrateUnderPlayer(w.game) by {
      if g1.numMatched == g1.numCrates {
        NextLevelKeepsInvariants(pack, g1);
        var n := NextLevel(pack, g1);
        if !n.ok {
          assert w.game == StopGame(n.game, true).game;
        }
      }
    }
    if InGrid(w.game, t) {
      assert Conclude(pack, g, t, deltas).game == w.game.(powerUps := w.game.powerUps + Pickup(TileAt(w.game, t)));
    } else {
      assert Conclude(pack, g, t, deltas).game == w.game;
    }
  }

  /** A move in which STRENGTH pushes two crates at once. */
  predicate DoublePush(g: Game, dir: Direction)
    requires g.player.Some?
  {
    var t := Target(g, dir);
    t in g.crates && Add(t, Offset(dir)) in g.crates
  }

  /** With no crate under the player, the pull stage of a move finds
      nothing: the crate stages end where the push left the fields, the
      target is then free, and PULL is still held. */
  lemma CrateStagesSkipPull(g: Game, dir: Direction)
    requires GridShaped(g) && CratesInGrid(g) && g.player.Some? && InGrid(g, Target(g, dir))
    requires NoCrateUnderPlayer(g)
    ensures var r := CrateStages(g, Target(g, dir), Offset(dir));
      && r.game == PushCrate(g, Target(g, dir), Offset(dir)).game
      && (r.Continue? ==> Target(g, dir) !in r.game.crates)
      && (Pull in g.powerUps ==> Pull in r.game.powerUps)
  {
    var t, d := Target(g, dir), Offset(dir);
    assert Sub(t, d) == g.player.value;
    match PushCrate(g, t, d)
    case Stop(_, _) =>
    case Continue(g2, deltas) =>
      if t in g.crates {
        PushMovesCrate(g, t, d);
        assert g.player.value != Add(t, d);
      }
      PullFindsNothing(g2, t, d, deltas);
  }

  /** Without a double push, the crate stages keep the counts exact. */
  lemma CrateStagesKeepTracking(g: Game, dir: Direction)
    requires GridShaped(g) && CratesInGrid(g) && g.player.Some? && InGrid(g, Target(g, dir))
    requires Tracking(g) && NoCrateUnderPlayer(g) && !DoublePush(g, dir)
    ensures Tracking(CrateStages(g, Target(g, dir), Offset(dir)).game)
  {
    CrateStagesSkipPull(g, dir);
    if PushCrate(g, Target(g, dir), Offset(dir)).Continue? {
      PushKeepsTracking(g, Target(g, dir), Offset(dir));
    }
  }

  /** No move ever puts a crate under the player: the player steps onto
      the target, which the push has just cleared, and a pushed crate,
      even a second one moved by STRENGTH, lands ahead of it. Loading a
      level with a spawn point clears that cell too. */
  lemma MoveKeepsPlayerCellFree(pack: seq<Level>, g: Game, dir: Direction)
    requires Inv(pack, g) && PackHasPlayers(pack) && NoCrateUnderPlayer(g)
    ensures NoCrateUnderPlayer(Move(pack, g, dir).game)
  {
    if Live(g) && PassesWallCheck(g, dir) {
      var t, d := Target(g, dir), Offset(dir);
      var g1 := g.(powerUps := g.powerUps - {Ghost});
      MovePastWallCheck(pack, g, dir);
      CrateStagesSkipPull(g1, dir);
      match CrateStages(g1, t, d)
      case Stop(_, _) =>
      case Continue(g3, deltas) =>
        ConcludeKeepsInvariants(pack, g3, t, deltas);
    } else {
      MoveStoppedEarly(pack, g, dir);
    }
  }

  /** Every move except a STRENGTH double push keeps the counts exact,
      through level changes too. */
  lemma MoveKeepsTracking(pack: seq<Level>, g: Game, dir: Direction)
    requires Inv(pack, g) && PackHasPlayers(pack)
    requires Tracking(g) && NoCrateUnderPlayer(g)
    requires g.player.Some? ==> !DoublePush(g, dir)
    ensures Tracking(Move(pack, g, dir).game)
  {
    if Live(g) && PassesWallCheck(g, dir) {
      var t, d := Target(g, dir), Offset(dir);
      var g1 := g.(powerUps := g.powerUps - {Ghost});
      MovePastWallCheck(pack, g, dir);
      CrateStagesSkipPull(g1, dir);
      CrateStagesKeepTracking(g1, dir);
      match CrateStages(g1, t, d)
      case Stop(_, _) =>
      case Continue(g3, deltas) =>
        ConcludeKeepsInvariants(pack, g3, t, deltas);
    } else {
      MoveStoppedEarly(pack, g, dir);
    }
  }

  /** The STRENGTH double push as written breaks the counts. When a crate
      already stands two cells ahead it is lost while numCrates stays.
      Otherwise the crates really go from `t` to `t + 2d`, but numMatched
      follows a crate going from `t` to `t + d`: the counts stay exact
      exactly when the cells at `t + d` and `t + 2d` agree on TARGET_SPOT. */
  lemma DoublePushDrifts(g: Game, t: Pos, d: Pos)
    requires GridShaped(g) && CratesInGrid(g) && InGrid(g, t) && Tracking(g) && d != Pos(0, 0)
    requires t in g.crates && Add(t, d) in g.crates && PushCrate(g, t, d).Continue?
    ensures var r := PushCrate(g, t, d).game; var b := Add(t, d); var f := Add(b, d);
      && (f in g.crates ==> r.numCrates == |r.crates| + 1 && !Tracking(r))
      && (f !in g.crates ==>
            && r.numCrates == |r.crates|
            && r.numMatched == |OnTargets(r.board, r.crates)|
                 + (if TileAt(g, b) == TargetSpot then 1 else 0) - (if TileAt(g, f) == TargetSpot then 1 else 0)
            && (Tracking(r) <==> (TileAt(g, b) == TargetSpot <==> TileAt(g, f) == TargetSpot)))
  {
    var b := Add(t, d);
    var f := Add(b, d);
    PushMovesCrate(g, t, d);
    assert InGrid(g, b) && InGrid(g, f);
    if f !in g.crates {
      var r := PushCrate(g, t, d).game;
      assert r.crates == (g.crates - {t}) + {f};
      OnTargetsSwap(g.board, g.crates, t, f);
      assert HasTile(g.board, t, TargetSpot) <==> TileAt(g, t) == TargetSpot;
      assert HasTile(g.board, f, TargetSpot) <==> TileAt(g, f) == TargetSpot;
    }
  }

  /** The stages of such a push: PULL finds nothing behind the player,
      and a crate pushed off FLOOR-like ground onto a TARGET_SPOT, into a
      crate on that spot, is counted as matched. */
  lemma DoublePushMatchesAll(g: Game, t: Pos, d: Pos)
    requires GridShaped(g) && CratesInGrid(g) && InGrid(g, t) && Tracking(g) && d != Pos(0, 0)
    requires InGrid(g, Sub(t, d)) && Sub(t, d) !in g.crates
    requires t in g.crates && Add(t, d) in g.crates && Add(Add(t, d), d) !in g.crates
    requires PushCrate(g, t, d).Continue?
    requires TileAt(g, t) != TargetSpot && TileAt(g, Add(t, d)) == TargetSpot
    requires g.numMatched + 1 == g.numCrates
    ensures var s := CrateStages(g, t, d);
      && s.Continue? && s.game == PushCrate(g, t, d).game
      && Add(Add(t, d), d) in s.game.crates && s.game.numMatched == s.game.numCrates
  {
    var p := PushCrate(g, t, d);
    PushMovesCrate(g, t, d);
    DoublePushDrifts(g, t, d);
    PullFindsNothing(p.game, t, d, p.deltas);
  }

  /** The set-up of a false win: one crate is off its target, and the
      player, holding STRENGTH and standing on a cell free of crates,
      pushes it into a crate on a TARGET_SPOT, with the cell beyond free
      and no target. */
  predicate FalseWinSetUp(g: Game, dir: Direction)
    requires GridShaped(g) && CratesInGrid(g) && Live(g)
  {
    var t := Target(g, dir); var b := Add(t, Offset(dir)); var f := Add(b, Offset(dir));
    && InGrid(g, g.player.value) && g.player.value !in g.crates
    && t in g.crates && b in g.crates && f !in g.crates && InGrid(g, f) && Strength in g.powerUps
    && TileAt(g, t) != TargetSpot && TileAt(g, b) == TargetSpot && TileAt(g, f) != TargetSpot
    && g.numMatched + 1 == g.numCrates
  }

  /** The crate stages and the commit of such a push report a win. */
  lemma DoublePushResolves(pack: seq<Level>, g: Game, t: Pos, d: Pos)
    requires Inv(pack, g) && InGrid(g, t) && Running(g) && Tracking(g) && d != Pos(0, 0)
    requires InGrid(g, Sub(t, d)) && Sub(t, d) !in g.crates
    requires t in g.crates && Add(t, d) in g.crates && Add(Add(t, d), d) !in g.crates
    requires PushCrate(g, t, d).Continue?
    requires TileAt(g, t) != TargetSpot && TileAt(g, Add(t, d)) == TargetSpot
    requires g.numMatched + 1 == g.numCrates
    ensures var s := CrateStages(g, t, d);
      && Add(Add(t, d), d) in s.game.crates && s.game.numMatched == s.game.numCrates
      && WinReported(g, Resolve(pack, g, t, d))
  {
    DoublePushMatchesAll(g, t, d);
    var s := CrateStages(g, t, d);
    var r := Resolve(pack, g, t, d);
    assert r == Conclude(pack, s.game, t, s.deltas);
    ConcludeWins(pack, s.game, t, s.deltas);
    assert s.game.level == g.level && s.game.levelNumber == g.levelNumber;
    assert s.game.score == g.score && s.game.total == g.total;
  }

  /** The drift gives a false win: after that push numMatched counts the
      first crate as matched, so the win test of line 404 passes and the
      level is reported solved while the crate two cells ahead stands on a
      tile other than TARGET_SPOT. */
  lemma DoublePushFalseWin(pack: seq<Level>, g: Game, dir: Direction)
    requires Inv(pack, g) && Live(g) && PassesWallCheck(g, dir) && Tracking(g) && FalseWinSetUp(g, dir)
    ensures var t := Target(g, dir); var f := Add(Add(t, Offset(dir)), Offset(dir));
      var s := CrateStages(g.(powerUps := g.powerUps - {Ghost}), t, Offset(dir));
      && f in s.game.crates && TileAt(g, f) != TargetSpot && s.game.numMatched == s.game.numCrates
      && WinReported(g, Move(pack, g, dir))
  {
    var t, d := Target(g, dir), Offset(dir);
    var g1 := g.(powerUps := g.powerUps - {Ghost});
    MovePastWallCheck(pack, g, dir);
    assert Sub(t, d) == g.player.value;
    DoublePushResolves(pack, g1, t, d);
  }

  /** Because of the above, PULL once held is never spent by a move. */
  lemma PullNeverSpent(pack: seq<Level>, g: Game, dir: Direction)
    requires Inv(pack, g) && NoCrateUnderPlayer(g) && Pull in g.powerUps
    ensures Pull in Move(pack, g, dir).game.powerUps
  {
    if Live(g) && PassesWallCheck(g, dir) {
      var t, d := Target(g, dir), Offset(dir);
      var g1 := g.(powerUps := g.powerUps - {Ghost});
      MovePastWallCheck(pack, g, dir);
      CrateStagesSkipPull(g1, dir);
      match CrateStages(g1, t, d)
      case Stop(_, _) =>
      case Continue(g3, deltas) =>
        ConcludeOutcome(pack, g3, t, deltas);
    } else {
      MoveStoppedEarly(pack, g, dir);
    }
  }

  // ---------------------------------------------------------------------
  // Lifecycle
  // ---------------------------------------------------------------------

  /** nextLevelInternal always advances the index. Past the last level it
      reports false and changes nothing else. Otherwise the level score is
      banked into the total, the next level is loaded with input enabled,
      and the new score and a full redraw are announced; lives and
      power-ups are untouched. nextLevel adds the next-level notification
      with the level left and its score. */
  lemma NextLevelAdvances(pack: seq<Level>, g: Game)
    requires Inv(pack, g)
    ensures var r := NextLevelInternal(pack, g); var n := g.levelNumber + 1;
      && r.game.levelNumber == n
      && (r.ok <==> n < |pack|)
      && (!r.ok ==> r.game == g.(levelNumber := n) && r.events == [])
      && (r.ok ==>
            && r.game.level == Some(pack[n])
            && r.game.total == g.total + g.score && r.game.score == 0 && r.game.acceptsInput
            && r.game.lives == g.lives && r.game.powerUps == g.powerUps
            && r.game.crates == CrateCells(pack[n].tiles) && r.game.numMatched == 0
            && r.events == [OnScoreUpdated(0, r.game.total), OnBoardUpdated(r.game.level, r.game.crates, r.game.player, None)])
    ensures var r := NextLevel(pack, g); var i := NextLevelInternal(pack, g);
      && r.game == i.game && r.ok == i.ok
      && r.events == if i.ok then i.events + [OnNextLevel(g.level, g.score, i.game.level, i.game.total)] else []
  {
  }

  /** startGame throws when no level is left to load (on an empty pack
      always); otherwise lives are set to the starting lives, both scores
      and the power-ups are cleared, and game-started and lives-updated
      follow the new level's score and redraw notifications. */
  lemma StartGameResets(pack: seq<Level>, cfg: Config, g: Game)
    requires Inv(pack, g)
    ensures var r := StartGame(pack, cfg, g);
      && (r.ok <==> g.levelNumber + 1 < |pack|)
      && (|pack| == 0 ==> !r.ok)
      && (!r.ok ==> r.game == g.(levelNumber := g.levelNumber + 1) && r.events == [])
      && (r.ok ==>
            && Running(r.game) && r.game.level == Some(pack[g.levelNumber + 1])
            && r.game.lives == cfg.startingLives && r.game.score == 0 && r.game.total == 0
            && r.game.powerUps == {} && r.game.acceptsInput
            && |r.events| == 4
            && r.events[0] == OnScoreUpdated(0, g.total + g.score)
            && r.events[1].OnBoardUpdated? && r.events[1].deltas == None
            && r.events[2] == OnGameStarted(r.game.level, cfg.startingLives)
            && r.events[3] == OnLivesUpdated(cfg.startingLives, cfg.maxLives))
  {
  }

  /** stopGame does nothing when no game runs; otherwise it announces the
      total including the current level's score and then clears lives,
      scores and the level. */
  lemma StopGameClears(g: Game, completed: bool)
    ensures var r := StopGame(g, completed);
      && (!Running(g) ==> r == Effect(g, []))
      && (Running(g) ==>
            && r.events == [OnGameStopped(g.total + g.score, completed)]
            && r.game.lives == 0 && r.game.score == 0 && r.game.total == 0
            && r.game.levelNumber == -1 && r.game.level == None && !Running(r.game))
  {
  }

  /** resetLevel reloads the current level and, with a life left, spends
      exactly one and redraws everything; the game goes on even when that
      was the last life. With no life left it stops the game as not
      completed. Power-ups and the level score are kept, and input is
      enabled again even while paused. */
  lemma ResetLevelSpendsLife(pack: seq<Level>, cfg: Config, g: Game)
    requires Inv(pack, g) && g.level.Some?
    ensures var r := ResetLevel(pack, cfg, g);
      && r.ok && r.game.powerUps == g.powerUps && r.game.acceptsInput && r.game.paused == g.paused
      && r.game.crates == CrateCells(g.level.value.tiles) && r.game.numMatched == 0
      && (g.lives >= 1 ==>
            && r.game.lives == g.lives - 1 && r.game.score == g.score && r.game.total == g.total
            && r.game.levelNumber == g.levelNumber
            && r.events == [OnLivesUpdated(g.lives - 1, cfg.maxLives), OnBoardUpdated(g.level, r.game.crates, r.game.player, None)])
      && (g.lives < 1 ==>
            && r.events == (if Running(g) then [OnGameStopped(g.total + g.score, false)] else [])
            && !Running(r.game))
  {
  }
}
