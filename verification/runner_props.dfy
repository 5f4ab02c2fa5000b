/**
 * Invariants of the runner state and the properties that span several
 * operations: every command and frame keeps the invariant, pausing then
 * resuming is one frame, and a sequence of frames only raises score and level.
 */
module RunnerProps {
  import opened Runner

  /** The player is never below the ground, and a player not jumping stands still on it. */
  predicate PlayerOk(g: Game)
  {
    && g.player.y <= GroundLevel(g.groundY, g.player)
    && (!g.player.isJumping ==> g.player.y == GroundLevel(g.groundY, g.player) && g.player.velocityY == 0.0)
  }

  /** An obstacle as spawned at some level up to `level`, possibly moved left since. */
  predicate ObstacleOk(o: Obstacle, canvasWidth: real, groundY: real, level: nat)
  {
    && o.width == ObstacleWidth
    && o.y + o.height == groundY
    && ObstacleMinHeight <= o.height < MaxObstacleHeight(level)
    && o.x <= canvasWidth
  }

  predicate ObstaclesOk(obs: seq<Obstacle>, canvasWidth: real, groundY: real, level: nat)
  {
    forall o :: o in obs ==> ObstacleOk(o, canvasWidth, groundY, level)
  }

  /** Obstacles are ordered left to right and at least `gap` apart. */
  predicate Spaced(obs: seq<Obstacle>, gap: real)
  {
    forall i, j :: 0 <= i < j < |obs| ==> obs[i].x + gap <= obs[j].x
  }

  /** The invariant of every reachable state. */
  predicate Inv(g: Game)
  {
    && g.level == LevelFor(g.score)
    && PlayerOk(g)
    && ObstaclesOk(g.obstacles, g.canvasWidth, g.groundY, g.level)
    && Spaced(g.obstacles, ObstacleSpacingFor(g.level))
  }

  lemma InitialInv(canvasWidth: real, groundY: real, highScore: nat)
    ensures Inv(Initial(canvasWidth, groundY, highScore))
  {
  }

  // ------------------------------------------------------------ frame step

  lemma {:induction false} SurvivorsKeepSpaced(obs: seq<Obstacle>, speed: real, gap: real)
    requires Spaced(obs, gap)
    ensures Spaced(Survivors(obs, speed), gap)
    decreases |obs|
  {
    if obs != [] {
      var tail := obs[1..];
      assert Spaced(tail, gap) by {
        forall i, j | 0 <= i < j < |tail| ensures tail[i].x + gap <= tail[j].x {
          assert tail[i] == obs[i + 1] && tail[j] == obs[j + 1];
        }
      }
      SurvivorsKeepSpaced(tail, speed, gap);
      SurvivorsMembers(tail, speed);
      var m := Moved(obs[0], speed);
      var rest := Survivors(tail, speed);
      if OnScreen(m) {
        var r := [m] + rest;
        assert Survivors(obs, speed) == r;
        forall i, j | 0 <= i < j < |r| ensures r[i].x + gap <= r[j].x {
          if i == 0 {
            assert r[j] in rest;
            var k :| 0 <= k < |tail| && r[j] == Moved(tail[k], speed);
            assert tail[k] == obs[k + 1];
          } else {
            assert r[i] == rest[i - 1] && r[j] == rest[j - 1];
          }
        }
      }
    }
  }

  lemma SurvivorsKeepOk(obs: seq<Obstacle>, speed: real, canvasWidth: real, groundY: real, level: nat)
    requires speed >= 0.0
    requires ObstaclesOk(obs, canvasWidth, groundY, level)
    ensures ObstaclesOk(Survivors(obs, speed), canvasWidth, groundY, level)
  {
    SurvivorsMembers(obs, speed);
    forall o | o in Survivors(obs, speed) ensures ObstacleOk(o, canvasWidth, groundY, level) {
      var k :| 0 <= k < |obs| && o == Moved(obs[k], speed);
      assert obs[k] in obs;
    }
  }

  /** Move, drop and spawn keep the obstacles well formed and spaced at the current level. */
  lemma UpdateObstaclesKeepsInv(g: Game, rand: real)
    requires 0.0 <= rand < 1.0
    requires ObstaclesOk(g.obstacles, g.canvasWidth, g.groundY, g.level)
    requires Spaced(g.obstacles, ObstacleSpacingFor(g.level))
    ensures var r := UpdateObstacles(g, rand);
      && ObstaclesOk(r.obstacles, g.canvasWidth, g.groundY, g.level)
      && Spaced(r.obstacles, ObstacleSpacingFor(g.level))
  {
    var speed := GameSpeed(g.level);
    var gap := ObstacleSpacingFor(g.level);
    var s := Survivors(g.obstacles, speed);
    SurvivorsKeepOk(g.obstacles, speed, g.canvasWidth, g.groundY, g.level);
    SurvivorsKeepSpaced(g.obstacles, speed, gap);
    var r := UpdateObstacles(g, rand).obstacles;
    if |r| == |s| + 1 {
      assert r == s + [r[|s|]];
      forall i, j | 0 <= i < j < |r| ensures r[i].x + gap <= r[j].x {
        if j == |s| {
          assert s[|s| - 1].x + gap <= g.canvasWidth;
          if i < |s| - 1 {
            assert s[i].x + gap <= s[|s| - 1].x;
          }
        } else {
          assert r[i] == s[i] && r[j] == s[j];
        }
      }
      forall o | o in r ensures ObstacleOk(o, g.canvasWidth, g.groundY, g.level) {
        var k :| 0 <= k < |r| && r[k] == o;
        if k < |s| { assert r[k] == s[k]; assert s[k] in s; }
      }
    } else {
      assert r == s;
    }
  }

  lemma LevelForMonotone(a: nat, b: nat)
    requires a <= b
    ensures LevelFor(a) <= LevelFor(b)
  {
  }

  lemma MaxHeightMonotone(a: nat, b: nat)
    requires a <= b
    ensures MaxObstacleHeight(a) <= MaxObstacleHeight(b)
  {
  }

  /** A frame keeps the invariant; in particular level == score / 500 + 1 after every frame. */
  lemma UpdateKeepsInv(g: Game, rand: real)
    requires 0.0 <= rand < 1.0
    requires Inv(g)
    ensures Inv(Update(g, rand))
    ensures Update(g, rand).level == LevelFor(Update(g, rand).score)
  {
    var g1 := g.(player := UpdatePlayer(g.player, g.groundY));
    var g2 := UpdateObstacles(g1, rand);
    var g3 := UpdateScore(g2);
    var g4 := UpdateLevel(g3);
    UpdateObstaclesKeepsInv(g1, rand);
    assert ObstaclesOk(g3.obstacles, g.canvasWidth, g.groundY, g.level) by {
      forall o | o in g3.obstacles ensures ObstacleOk(o, g.canvasWidth, g.groundY, g.level) {
        var k :| 0 <= k < |g3.obstacles| && g3.obstacles[k] == o;
        assert g2.obstacles[k] in g2.obstacles;
      }
    }
    assert Spaced(g3.obstacles, ObstacleSpacingFor(g.level)) by {
      forall i, j | 0 <= i < j < |g3.obstacles|
        ensures g3.obstacles[i].x + ObstacleSpacingFor(g.level) <= g3.obstacles[j].x
      {
        assert g3.obstacles[i].x == g2.obstacles[i].x && g3.obstacles[j].x == g2.obstacles[j].x;
      }
    }
    LevelForMonotone(g.score, g3.score);
    assert g4.level == LevelFor(g3.score);
    MaxHeightMonotone(g.level, g4.level);
    SpacingAntitone(g.level, g4.level);
    assert ObstaclesOk(g4.obstacles, g.canvasWidth, g.groundY, g4.level) by {
      forall o | o in g4.obstacles ensures ObstacleOk(o, g.canvasWidth, g.groundY, g4.level) {
        assert ObstacleOk(o, g.canvasWidth, g.groundY, g.level);
      }
    }
    assert Spaced(g4.obstacles, ObstacleSpacingFor(g4.level)) by {
      forall i, j | 0 <= i < j < |g4.obstacles|
        ensures g4.obstacles[i].x + ObstacleSpacingFor(g4.level) <= g4.obstacles[j].x
      {
        assert g4.obstacles[i].x + ObstacleSpacingFor(g.level) <= g4.obstacles[j].x;
      }
    }
    assert Inv(g4);
  }

  // --------------------------------------------------------------- commands

  lemma GameLoopKeepsInv(g: Game, rand: real)
    requires 0.0 <= rand < 1.0
    requires Inv(g)
    ensures Inv(GameLoop(g, rand))
  {
    if g.phase == Playing { UpdateKeepsInv(g, rand); }
  }

  /** Start and restart always reach a state that satisfies the invariant, from any state. */
  lemma StartGameEstablishesInv(g: Game, rand: real)
    requires 0.0 <= rand < 1.0
    ensures Inv(StartGame(g, rand))
  {
    var r0 := ResetRun(g);
    assert Inv(r0);
    GameLoopKeepsInv(r0, rand);
  }

  lemma JumpKeepsInv(g: Game, rand: real)
    requires 0.0 <= rand < 1.0
    requires Inv(g)
    ensures Inv(Jump(g, rand))
  {
    if g.phase == Start { StartGameEstablishesInv(g, rand); }
  }

  lemma TogglePauseKeepsInv(g: Game, rand: real)
    requires 0.0 <= rand < 1.0
    requires Inv(g)
    ensures Inv(TogglePause(g, rand))
  {
    if g.phase == Paused { UpdateKeepsInv(g.(phase := Playing), rand); }
  }

  /**
   * Pausing and resuming with nothing in between is exactly one frame: the
   * resume branch runs gameLoop() at once (D1P91.js:256-259).
   */
  lemma PauseResumeIsOneFrame(g: Game, r1: real, r2: real)
    requires 0.0 <= r1 < 1.0 && 0.0 <= r2 < 1.0
    requires g.phase == Playing
    ensures TogglePause(TogglePause(g, r1), r2) == Update(g, r2)
  {
    assert g.(phase := Paused).(phase := Playing) == g;
  }

  /**
   * A second jump before landing does nothing: whatever phase the game is in
   * (other than the start screen, where the first press starts the run), two
   * presses in a row act like one.
   */
  lemma DoubleJumpIsOneJump(g: Game, r1: real, r2: real)
    requires 0.0 <= r1 < 1.0 && 0.0 <= r2 < 1.0
    requires g.phase != Start
    ensures Jump(Jump(g, r1), r2) == Jump(g, r1)
  {
  }

  // -------------------------------------------------------------- sequences

  /** The driver's inputs: one command or animation frame, with the random draw it may use. */
  datatype Command = Frame | JumpKey | StartButton | RestartButton | PauseButton | MenuButton

  predicate ValidRandom(rand: real) { 0.0 <= rand < 1.0 }

  function Step(g: Game, c: Command, rand: real): Game
    requires ValidRandom(rand)
  {
    match c
    case Frame => GameLoop(g, rand)
    case JumpKey => Jump(g, rand)
    case StartButton => StartGame(g, rand)
    case RestartButton => RestartGame(g, rand)
    case PauseButton => TogglePause(g, rand)
    case MenuButton => ShowStartScreen(g)
  }

  function Run(g: Game, cmds: seq<(Command, real)>): Game
    requires forall i :: 0 <= i < |cmds| ==> ValidRandom(cmds[i].1)
    decreases |cmds|
  {
    if cmds == [] then g else Run(Step(g, cmds[0].0, cmds[0].1), cmds[1..])
  }

  /** Any sequence of driver inputs from a state satisfying the invariant keeps it. */
  lemma {:induction false} RunKeepsInv(g: Game, cmds: seq<(Command, real)>)
    requires forall i :: 0 <= i < |cmds| ==> ValidRandom(cmds[i].1)
    requires Inv(g)
    ensures Inv(Run(g, cmds))
    decreases |cmds|
  {
    if cmds != [] {
      var c := cmds[0].0;
      var rand := cmds[0].1;
      match c {
        case Frame => GameLoopKeepsInv(g, rand);
        case JumpKey => JumpKeepsInv(g, rand);
        case StartButton => StartGameEstablishesInv(g, rand);
        case RestartButton => StartGameEstablishesInv(g, rand);
        case PauseButton => TogglePauseKeepsInv(g, rand);
        case MenuButton => assert Inv(ShowStartScreen(g));
      }
      RunKeepsInv(Step(g, c, rand), cmds[1..]);
    }
  }

  /** A run of animation frames. */
  function Frames(g: Game, rands: seq<real>): Game
    requires forall i :: 0 <= i < |rands| ==> 0.0 <= rands[i] < 1.0
    decreases |rands|
  {
    if rands == [] then g else Frames(GameLoop(g, rands[0]), rands[1..])
  }

  /**
   * Within a run, frames never lower the score or the level, and a running
   * game that is still running after n frames has gained at least n points.
   */
  lemma {:induction false} FramesMonotone(g: Game, rands: seq<real>)
    requires forall i :: 0 <= i < |rands| ==> 0.0 <= rands[i] < 1.0
    ensures Frames(g, rands).score >= g.score
    ensures Frames(g, rands).level >= g.level
    ensures g.phase == Playing && Frames(g, rands).phase == Playing ==>
      Frames(g, rands).score >= g.score + |rands|
    decreases |rands|
  {
    if rands != [] {
      var next := GameLoop(g, rands[0]);
      FramesMonotone(next, rands[1..]);
      if g.phase == Playing && Frames(g, rands).phase == Playing {
        if next.phase != Playing {
          FramesStayStopped(next, rands[1..]);
        }
      }
    }
  }

  /** Frames do nothing to a game that is not running. */
  lemma {:induction false} FramesStayStopped(g: Game, rands: seq<real>)
    requires forall i :: 0 <= i < |rands| ==> 0.0 <= rands[i] < 1.0
    requires g.phase != Playing
    ensures Frames(g, rands) == g
    decreases |rands|
  {
    if rands != [] {
      FramesStayStopped(GameLoop(g, rands[0]), rands[1..]);
    }
  }
}
