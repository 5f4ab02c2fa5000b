/**
 * The runner simulation of RunnerGame (D1P91.js): phases, commands and the
 * per-frame pipeline (player physics, obstacle move/drop/spawn, score,
 * level, collision). Positions and velocities are exact reals. The canvas
 * width (in device pixels: the CSS width times the pixel ratio) and the ground
 * line (in CSS pixels) are fixed by the canvas setup and are carried in the
 * state as they are. Math.random is the parameter `rand`, in [0, 1).
 */
module Runner {
  import opened Wrappers
  import opened Geometry

  // Configuration of the game (D1P91.js:36-48) and the player's fixed x.
  const Gravity: real := 0.6
  const JumpPower: real := -12.0
  const BaseGameSpeed: real := 4.0
  const PlayerX: real := 100.0
  const PlayerSize: real := 40.0
  const ObstacleWidth: real := 20.0
  const ObstacleMinHeight: real := 30.0
  const ObstacleMaxHeight: real := 80.0
  const BaseObstacleSpacing: real := 300.0
  const MaxSpacingReduction: real := 150.0
  const MinObstacleSpacing: real := 200.0
  const ScoreIncrement: nat := 1
  const PassBonus: nat := 10
  const LevelThreshold: nat := 500

  datatype Phase = Start | Playing | Paused | GameOver

  datatype Player = Player(x: real, y: real, width: real, height: real, velocityY: real, isJumping: bool)

  datatype Obstacle = Obstacle(x: real, y: real, width: real, height: real, scored: bool)

  datatype Game = Game(
    phase: Phase,
    player: Player,
    obstacles: seq<Obstacle>,
    score: nat,
    level: nat,
    highScore: nat,
    canvasWidth: real,
    groundY: real)

  /** The y the player rests at when standing on the ground. */
  function GroundLevel(groundY: real, p: Player): real { groundY - p.height }

  /** Level that a score earns: one level per LevelThreshold points, starting at 1. */
  function LevelFor(score: nat): (level: nat)
    ensures level >= 1
    ensures (level - 1) * LevelThreshold <= score < level * LevelThreshold
  {
    score / LevelThreshold + 1
  }

  /** The state right after construction and canvas setup, before any command. */
  function Initial(canvasWidth: real, groundY: real, highScore: nat): (g: Game)
    ensures g.phase == Start && g.score == 0 && g.level == 1 && g.obstacles == []
    ensures g.player.y + g.player.height == groundY && !g.player.isJumping
  {
    var p := Player(PlayerX, 0.0, PlayerSize, PlayerSize, 0.0, false);
    Game(Start, ResetPlayer(p, groundY), [], 0, 1, highScore, canvasWidth, groundY)
  }

  // ---------------------------------------------------------------- player

  /** Puts the player back on the ground at rest (D1P91.js:698-702). */
  function ResetPlayer(p: Player, groundY: real): (r: Player)
    ensures r.y == GroundLevel(groundY, p) && r.velocityY == 0.0 && !r.isJumping
    ensures r.x == p.x && r.width == p.width && r.height == p.height
  {
    p.(y := groundY - p.height, velocityY := 0.0, isJumping := false)
  }

  /**
   * One physics step (D1P91.js:340-352): gravity, then motion, then the ground
   * clamp. The player never ends below the ground; it lands exactly when the
   * unclamped move reaches the ground line, and landing stops it.
   */
  function UpdatePlayer(p: Player, groundY: real): (r: Player)
    ensures r.y <= GroundLevel(groundY, p)
    ensures r.y == GroundLevel(groundY, p) <==> p.y + p.velocityY + Gravity >= GroundLevel(groundY, p)
    ensures r.y == GroundLevel(groundY, p) ==> r.velocityY == 0.0 && !r.isJumping
    ensures r.y < GroundLevel(groundY, p) ==>
      r.velocityY == p.velocityY + Gravity && r.y == p.y + r.velocityY && r.isJumping == p.isJumping
    ensures r.x == p.x && r.width == p.width && r.height == p.height
  {
    var v := p.velocityY + Gravity;
    var y := p.y + v;
    var ground := groundY - p.height;
    if y >= ground then p.(y := ground, velocityY := 0.0, isJumping := false)
    else p.(y := y, velocityY := v)
  }

  // ------------------------------------------------------------- obstacles

  /** Horizontal speed for a level (D1P91.js:413-416): 4 plus 0.5 per two levels. */
  function GameSpeed(level: nat): (speed: real)
    ensures speed >= BaseGameSpeed
    ensures speed == BaseGameSpeed + 0.5 * (level / 2) as real
  {
    BaseGameSpeed + (level / 2) as real * 0.5
  }

  /** The speed never drops as the level grows. */
  lemma GameSpeedMonotone(a: nat, b: nat)
    requires a <= b
    ensures GameSpeed(a) <= GameSpeed(b)
  {
  }

  /** Minimum gap before the next spawn (D1P91.js:404-408). */
  function ObstacleSpacingFor(level: nat): (spacing: real)
    ensures MinObstacleSpacing <= spacing <= BaseObstacleSpacing
    ensures level >= 5 ==> spacing == MinObstacleSpacing
    ensures level <= 5 ==> spacing == BaseObstacleSpacing - (level * 20) as real
  {
    var reduction := MinReal((level * 20) as real, MaxSpacingReduction);
    MaxReal(BaseObstacleSpacing - reduction, MinObstacleSpacing)
  }

  /** The spacing only shrinks as the level grows. */
  lemma SpacingAntitone(a: nat, b: nat)
    requires a <= b
    ensures ObstacleSpacingFor(b) <= ObstacleSpacingFor(a)
  {
  }

  function MaxObstacleHeight(level: nat): real
  {
    ObstacleMaxHeight + (level * 10) as real
  }

  /** An obstacle moved left by `speed`. */
  function Moved(o: Obstacle, speed: real): Obstacle { o.(x := o.x - speed) }

  /** Still (partly) on screen: the source drops an obstacle when x + width < 0. */
  predicate OnScreen(o: Obstacle) { o.x + o.width >= 0.0 }

  /**
   * The obstacles after the move-and-drop loop (D1P91.js:361-369): each one is
   * moved left by `speed`; those whose right edge went past 0 are removed.
   */
  function Survivors(obs: seq<Obstacle>, speed: real): (r: seq<Obstacle>)
    ensures |r| <= |obs|
    decreases |obs|
  {
    if obs == [] then []
    else
      var m := Moved(obs[0], speed);
      var rest := Survivors(obs[1..], speed);
      if OnScreen(m) then [m] + rest else rest
  }

  /**
   * What survives: every survivor is on screen and is the moved copy of an
   * input obstacle, and every input obstacle still on screen after the move survives.
   */
  lemma {:induction false} SurvivorsMembers(obs: seq<Obstacle>, speed: real)
    ensures forall o :: o in Survivors(obs, speed) ==> OnScreen(o)
    ensures forall o :: o in Survivors(obs, speed) ==> exists k :: 0 <= k < |obs| && o == Moved(obs[k], speed)
    ensures forall k :: 0 <= k < |obs| && OnScreen(Moved(obs[k], speed)) ==> Moved(obs[k], speed) in Survivors(obs, speed)
    decreases |obs|
  {
    if obs != [] {
      SurvivorsMembers(obs[1..], speed);
      assert forall k :: 1 <= k < |obs| ==> obs[k] == obs[1..][k - 1];
    }
  }

  /** Move-and-drop keeps the order of the survivors: it distributes over concatenation. */
  lemma {:induction false} SurvivorsAppend(a: seq<Obstacle>, b: seq<Obstacle>, speed: real)
    ensures Survivors(a + b, speed) == Survivors(a, speed) + Survivors(b, speed)
    decreases |a|
  {
    if a == [] {
      assert a + b == b;
    } else {
      assert (a + b)[1..] == a[1..] + b;
      SurvivorsAppend(a[1..], b, speed);
    }
  }

  /** Survivors of a suffix: the moved head (if it stays on screen) before the survivors of the rest. */
  lemma SurvivorsStep(obs: seq<Obstacle>, i: nat, speed: real)
    requires i < |obs|
    ensures Survivors(obs[i..], speed) ==
      (if OnScreen(Moved(obs[i], speed)) then [Moved(obs[i], speed)] else []) + Survivors(obs[i + 1..], speed)
  {
    assert obs[i..][1..] == obs[i + 1..];
  }

  /** Replacing the element after `pre` by `y` (a splice). */
  lemma Splice(pre: seq<Obstacle>, x: Obstacle, post: seq<Obstacle>, y: seq<Obstacle>)
    ensures var c := pre + [x] + post; c[..|pre|] + y + c[|pre| + 1..] == pre + y + post
  {
    var c := pre + [x] + post;
    assert c[..|pre|] == pre;
    assert c[|pre| + 1..] == post;
  }

  /** The splice `y` the loop makes at index `i` of `cur`: nothing, or the moved obstacle. */
  function LoopSplice(cur: seq<Obstacle>, i: nat, speed: real): seq<Obstacle>
    requires i < |cur|
  {
    var o := cur[i].(x := cur[i].x - speed);
    if o.x + o.width < 0.0 then [] else [o]
  }

  /** One step of the loop turns the invariant at `i + 1` into the invariant at `i`. */
  lemma LoopStep(obs: seq<Obstacle>, i: nat, speed: real, cur: seq<Obstacle>)
    requires i < |obs|
    requires cur == obs[..i + 1] + Survivors(obs[i + 1..], speed)
    ensures cur[..i] + LoopSplice(cur, i, speed) + cur[i + 1..] == obs[..i] + Survivors(obs[i..], speed)
  {
    var post := Survivors(obs[i + 1..], speed);
    SurvivorsStep(obs, i, speed);
    assert obs[..i + 1] == obs[..i] + [obs[i]];
    assert cur == obs[..i] + [obs[i]] + post;
    Splice(obs[..i], obs[i], post, LoopSplice(cur, i, speed));
  }

  /**
   * The source's loop as written: walk the array from the back, move each
   * obstacle and splice it out when it left the screen. It computes Survivors.
   */
  method MoveAndDropInPlace(obs: seq<Obstacle>, speed: real) returns (cur: seq<Obstacle>)
    ensures cur == Survivors(obs, speed)
  {
    cur := obs;
    var i := |obs|;
    assert obs[|obs|..] == [];
    while i > 0
      invariant 0 <= i <= |obs|
      invariant cur == obs[..i] + Survivors(obs[i..], speed)
      decreases i
    {
      i := i - 1;
      LoopStep(obs, i, speed, cur);
      var o := cur[i].(x := cur[i].x - speed);
      if o.x + o.width < 0.0 {
        cur := cur[..i] + cur[i + 1..];
      } else {
        cur := cur[..i] + [o] + cur[i + 1..];
      }
    }
    assert obs[0..] == obs;
  }

  /** A fresh obstacle at the right edge, standing on the ground (D1P91.js:384-399). */
  function SpawnObstacle(g: Game, rand: real): (o: Obstacle)
    requires 0.0 <= rand < 1.0
    ensures ObstacleMinHeight <= o.height < MaxObstacleHeight(g.level)
    ensures o.x == g.canvasWidth && o.y + o.height == g.groundY
    ensures o.width == ObstacleWidth && !o.scored
  {
    var h := HeightFromRandom(rand, MaxObstacleHeight(g.level));
    Obstacle(g.canvasWidth, g.groundY - h, ObstacleWidth, h, false)
  }

  /** minHeight + random * (maxHeight - minHeight), as at D1P91.js:385-387. */
  function HeightFromRandom(rand: real, maxHeight: real): (h: real)
    requires 0.0 <= rand < 1.0 && maxHeight > ObstacleMinHeight
    ensures ObstacleMinHeight <= h < maxHeight
  {
    var span := maxHeight - ObstacleMinHeight;
    var offset := rand * span;
    ScaleBelow(rand, span, offset);
    ObstacleMinHeight + offset
  }

  /** A fraction in [0, 1) of a positive span stays in [0, span). */
  lemma ScaleBelow(u: real, d: real, p: real)
    requires 0.0 <= u < 1.0 && d > 0.0 && p == u * d
    ensures 0.0 <= p < d
  {
    assert d - p == (1.0 - u) * d;
  }

  /** Spawn rule (D1P91.js:372-374): nothing on screen, or the newest is far enough left. */
  predicate ShouldSpawn(obs: seq<Obstacle>, canvasWidth: real, level: nat)
  {
    obs == [] || canvasWidth - obs[|obs| - 1].x >= ObstacleSpacingFor(level)
  }

  /**
   * Obstacle update (D1P91.js:357-379): move and drop, then append at most one
   * new obstacle. Nothing but the obstacle list changes.
   */
  function UpdateObstacles(g: Game, rand: real): (r: Game)
    requires 0.0 <= rand < 1.0
    ensures r == g.(obstacles := r.obstacles)
    ensures var s := Survivors(g.obstacles, GameSpeed(g.level));
      && |s| <= |r.obstacles| <= |s| + 1
      && r.obstacles[..|s|] == s
      && (|r.obstacles| == |s| + 1 <==> ShouldSpawn(s, g.canvasWidth, g.level))
      && (s == [] ==> |r.obstacles| == 1)
    ensures forall i :: |Survivors(g.obstacles, GameSpeed(g.level))| <= i < |r.obstacles| ==>
      var o := r.obstacles[i];
      && o.x == g.canvasWidth && !o.scored && o.width == ObstacleWidth
      && o.y == g.groundY - o.height
      && ObstacleMinHeight <= o.height < MaxObstacleHeight(g.level)
  {
    var s := Survivors(g.obstacles, GameSpeed(g.level));
    var obs := if ShouldSpawn(s, g.canvasWidth, g.level) then s + [SpawnObstacle(g, rand)] else s;
    assert obs[..|s|] == s;
    g.(obstacles := obs)
  }

  // ------------------------------------------------------------------ score

  /** The obstacle's right edge is strictly left of the player's x. */
  predicate Passed(o: Obstacle, playerX: real) { o.x + o.width < playerX }

  /** Number of positions where `before` was unflagged and `after` is flagged. */
  function CountNewlyFlagged(before: seq<Obstacle>, after: seq<Obstacle>): nat
    requires |before| == |after|
    decreases |before|
  {
    if before == [] then 0
    else (if !before[0].scored && after[0].scored then 1 else 0)
         + CountNewlyFlagged(before[1..], after[1..])
  }

  /**
   * The bonus pass of updateScore (D1P91.js:443-449): every unflagged obstacle
   * the player has passed is flagged; the count of such obstacles is returned.
   */
  function MarkPassed(obs: seq<Obstacle>, playerX: real): (r: (seq<Obstacle>, nat))
    ensures |r.0| == |obs|
    ensures forall i :: 0 <= i < |obs| ==> r.0[i] == obs[i].(scored := r.0[i].scored)
    ensures forall i :: 0 <= i < |obs| ==> (r.0[i].scored <==> obs[i].scored || Passed(obs[i], playerX))
    ensures r.1 == CountNewlyFlagged(obs, r.0)
    decreases |obs|
  {
    if obs == [] then ([], 0)
    else
      var tail := MarkPassed(obs[1..], playerX);
      var o := obs[0];
      var head := if !o.scored && Passed(o, playerX) then o.(scored := true) else o;
      var marked := [head] + tail.0;
      assert marked[1..] == tail.0;
      (marked, (if head != o then 1 else 0) + tail.1)
  }

  /**
   * Score accrual (D1P91.js:439-452): one point per frame plus a bonus of 10
   * for every obstacle flagged in this frame; flags never go back to false.
   */
  function UpdateScore(g: Game): (r: Game)
    ensures |r.obstacles| == |g.obstacles|
    ensures r.score == g.score + ScoreIncrement + PassBonus * CountNewlyFlagged(g.obstacles, r.obstacles)
    ensures forall i :: 0 <= i < |g.obstacles| ==>
      (r.obstacles[i].scored <==> g.obstacles[i].scored || Passed(g.obstacles[i], g.player.x))
    ensures forall i :: 0 <= i < |g.obstacles| ==> (g.obstacles[i].scored ==> r.obstacles[i].scored)
    ensures forall i :: 0 <= i < |g.obstacles| ==> r.obstacles[i] == g.obstacles[i].(scored := r.obstacles[i].scored)
    ensures r == g.(score := r.score, obstacles := r.obstacles)
  {
    var m := MarkPassed(g.obstacles, g.player.x);
    g.(score := g.score + ScoreIncrement + PassBonus * m.1, obstacles := m.0)
  }

  /** Level recompute (D1P91.js:457-465): the level only ever goes up, to the level the score earns. */
  function UpdateLevel(g: Game): (r: Game)
    ensures r.level >= g.level && r.level >= LevelFor(g.score)
    ensures r.level == MaxInt(g.level, LevelFor(g.score))
    ensures r == g.(level := r.level)
  {
    var newLevel := g.score / LevelThreshold + 1;
    if newLevel > g.level then g.(level := newLevel) else g
  }

  // -------------------------------------------------------------- collision

  function PlayerRect(p: Player): Rect { Rect(p.x, p.y, p.width, p.height) }
  function ObstacleRect(o: Obstacle): Rect { Rect(o.x, o.y, o.width, o.height) }

  predicate Hits(p: Player, o: Obstacle) { IsColliding(PlayerRect(p), ObstacleRect(o)) }

  /** Index of the first obstacle the player overlaps, scanning from `from` (D1P91.js:478-491). */
  function FirstHit(p: Player, obs: seq<Obstacle>, from: nat): (r: Option<nat>)
    requires from <= |obs|
    ensures r.Some? ==> from <= r.value < |obs| && Hits(p, obs[r.value])
    ensures r.Some? ==> forall j :: from <= j < r.value ==> !Hits(p, obs[j])
    ensures r.None? ==> forall j :: from <= j < |obs| ==> !Hits(p, obs[j])
    decreases |obs| - from
  {
    if from == |obs| then None
    else if Hits(p, obs[from]) then Some(from)
    else FirstHit(p, obs, from + 1)
  }

  predicate AnyHit(g: Game)
  {
    exists i :: 0 <= i < |g.obstacles| && Hits(g.player, g.obstacles[i])
  }

  /** End of a run (D1P91.js:279-291): the phase ends and the high score keeps the best. */
  function EndRun(g: Game): (r: Game)
    ensures r.phase == GameOver
    ensures r.highScore >= g.highScore && r.highScore >= g.score
    ensures r.highScore == g.highScore || r.highScore == g.score
    ensures r == g.(phase := GameOver, highScore := r.highScore)
  {
    var best := if g.score > g.highScore then g.score else g.highScore;
    g.(phase := GameOver, highScore := best)
  }

  /** Collision check (D1P91.js:470-492): any overlap ends the game, else nothing changes. */
  function CheckCollisions(g: Game): (r: Game)
    ensures AnyHit(g) ==> r == EndRun(g)
    ensures !AnyHit(g) ==> r == g
  {
    match FirstHit(g.player, g.obstacles, 0)
    case Some(_) => EndRun(g)
    case None => g
  }

  // ------------------------------------------------------------ frame step

  /** Number of obstacles that earn their bonus in the frame starting at `g`. */
  function BonusesThisFrame(g: Game, rand: real): nat
    requires 0.0 <= rand < 1.0
  {
    var g2 := UpdateObstacles(g.(player := UpdatePlayer(g.player, g.groundY)), rand);
    CountNewlyFlagged(g2.obstacles, UpdateScore(g2).obstacles)
  }

  /**
   * One frame (D1P91.js:324-330) in the source's order: physics, obstacles,
   * score, level, collision.
   */
  function Update(g: Game, rand: real): (r: Game)
    requires 0.0 <= rand < 1.0
    ensures r.score == g.score + ScoreIncrement + PassBonus * BonusesThisFrame(g, rand)
    ensures r.level >= g.level && r.level >= LevelFor(r.score)
    ensures r.phase == g.phase || r.phase == GameOver
    ensures r.canvasWidth == g.canvasWidth && r.groundY == g.groundY
    ensures r.highScore >= g.highScore
  {
    var g1 := g.(player := UpdatePlayer(g.player, g.groundY));
    var g2 := UpdateObstacles(g1, rand);
    var g3 := UpdateScore(g2);
    var g4 := UpdateLevel(g3);
    CheckCollisions(g4)
  }

  /** The animation-frame callback (D1P91.js:309-318): frames only advance a running game. */
  function GameLoop(g: Game, rand: real): (r: Game)
    requires 0.0 <= rand < 1.0
    ensures g.phase != Playing ==> r == g
    ensures g.phase == Playing ==> r.score > g.score && r.level >= g.level
  {
    if g.phase != Playing then g else Update(g, rand)
  }

  // --------------------------------------------------------------- commands

  /** The reset part of startGame (D1P91.js:218-225). */
  function ResetRun(g: Game): (r: Game)
    ensures r.phase == Playing && r.score == 0 && r.level == 1 && r.obstacles == []
    ensures r.player.y == GroundLevel(g.groundY, g.player) && r.player.velocityY == 0.0 && !r.player.isJumping
    ensures r.highScore == g.highScore && r.canvasWidth == g.canvasWidth && r.groundY == g.groundY
  {
    g.(phase := Playing, score := 0, level := 1, obstacles := [], player := ResetPlayer(g.player, g.groundY))
  }

  /**
   * startGame (D1P91.js:217-237): reset, then the synchronous gameLoop() call
   * runs the first frame at once. So a fresh run shows score 1 and one obstacle
   * at the right edge, with the player standing on the ground.
   */
  function StartGame(g: Game, rand: real): (r: Game)
    requires 0.0 <= rand < 1.0
    ensures r.score >= 1 && r.level == 1
    ensures g.canvasWidth >= g.player.x ==> r.score == 1
    ensures |r.obstacles| == 1 && r.obstacles[0].x == g.canvasWidth
    ensures g.canvasWidth >= g.player.x ==> !r.obstacles[0].scored
    ensures r.player.y == GroundLevel(g.groundY, g.player) && r.player.velocityY == 0.0 && !r.player.isJumping
    ensures r.phase == Playing || r.phase == GameOver
    ensures g.canvasWidth >= g.player.x + g.player.width ==> r.phase == Playing
  {
    var r0 := ResetRun(g);
    var r := GameLoop(r0, rand);
    assert r.phase == GameOver ==> AnyHit(UpdateLevel(UpdateScore(UpdateObstacles(r0.(player := UpdatePlayer(r0.player, r0.groundY)), rand))));
    r
  }

  /**
   * restartGame (D1P91.js:242-244) is startGame: from the game-over screen a
   * new run starts on level 1 with one obstacle, and the best score is kept.
   */
  function RestartGame(g: Game, rand: real): (r: Game)
    requires 0.0 <= rand < 1.0
    ensures r.level == 1 && r.score >= 1 && |r.obstacles| == 1
    ensures r.highScore >= g.highScore
    ensures r.player.y == GroundLevel(g.groundY, g.player) && !r.player.isJumping
  {
    StartGame(g, rand)
  }

  /**
   * jump (D1P91.js:201-212): in Start it starts the game; in Playing on the
   * ground it gives the upward impulse; otherwise nothing happens.
   */
  function Jump(g: Game, rand: real): (r: Game)
    requires 0.0 <= rand < 1.0
    ensures g.phase == Start ==> r == StartGame(g, rand)
    ensures g.phase == Playing && !g.player.isJumping ==>
      r == g.(player := g.player.(velocityY := JumpPower, isJumping := true))
    ensures g.phase != Start && (g.phase != Playing || g.player.isJumping) ==> r == g
  {
    if g.phase == Start then StartGame(g, rand)
    else if g.phase == Playing && !g.player.isJumping then
      g.(player := g.player.(velocityY := JumpPower, isJumping := true))
    else g
  }

  /**
   * togglePause (D1P91.js:249-261): pausing only changes the phase; resuming
   * sets Playing and, through the synchronous gameLoop() call, runs one frame.
   * In Start and GameOver nothing happens.
   */
  function TogglePause(g: Game, rand: real): (r: Game)
    requires 0.0 <= rand < 1.0
    ensures g.phase == Playing ==> r == g.(phase := Paused)
    ensures g.phase == Paused ==> r == Update(g.(phase := Playing), rand)
    ensures g.phase == Start || g.phase == GameOver ==> r == g
  {
    match g.phase
    case Playing => g.(phase := Paused)
    case Paused => GameLoop(g.(phase := Playing), rand)
    case _ => g
  }

  /** showStartScreen (D1P91.js:266-274): back to the start phase, run data kept. */
  function ShowStartScreen(g: Game): (r: Game)
    ensures r.phase == Start && r == g.(phase := Start)
  {
    g.(phase := Start)
  }
}
