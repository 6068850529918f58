/** The game state of main.js as one object: the module-level variables
    become fields, and the frame callback, the two key handlers, the spawn
    timer callback and the collision pass become methods that update them. */
module GameState {
  import opened GameRules

  /** Key codes the handlers react to. */
  const KeyP: string := "KeyP"
  const KeyA: string := "KeyA"
  const KeyD: string := "KeyD"
  const Space: string := "Space"

  class Game {
    var score: int
    var playState: bool
    var movingRight: bool
    var movingLeft: bool
    var velocityY: real
    /** The cube's position (its depth never changes). */
    var cubeX: real
    var cubeY: real
    /** Live obstacles, oldest first. */
    var obstacles: seq<Obstacle>
    /** Identity given to the next obstacle created: stands for allocating a fresh mesh. */
    var nextId: nat

    /** What every handler keeps: the score is never negative, the cube never
        below the ground, at most MaxLive obstacles, each with its own identity. */
    ghost predicate Valid()
      reads this
    {
      0 <= score && 0.0 <= cubeY && |obstacles| <= MaxLive
      && DistinctIds(obstacles) && (forall o :: o in obstacles ==> o.id < nextId)
    }

    /** The state at page load: paused, cube at the origin, no obstacles. */
    constructor ()
      ensures Valid()
      ensures score == 0 && !playState && !movingRight && !movingLeft && velocityY == 0.0
      ensures cubeX == 0.0 && cubeY == 0.0 && obstacles == []
    {
      score := 0;
      playState := false;
      movingRight := false;
      movingLeft := false;
      velocityY := 0.0;
      cubeX := 0.0;
      cubeY := 0.0;
      obstacles := [];
      nextId := 0;
    }

    /** One callback of the frame clock. Paused, it changes nothing; playing,
        it moves the obstacles, runs the collision pass, applies gravity and
        the ground clamp, then moves the cube sideways. */
    method Animate()
      requires Valid()
      modifies this
      ensures Valid()
      ensures !old(playState) ==> unchanged(this)
      ensures old(playState) ==>
        var snap, x, y := Advanced(old(obstacles)), old(cubeX), old(cubeY);
        var v := (if AnyLanding(snap, x, y) then JumpStrength else old(velocityY)) + Gravity;
        && obstacles == Survivors(snap, x, y)
        && playState == !AnyHit(snap, x, y)
        && score == ScoreAfter(snap, x, y, old(score))
        && (y + v < 0.0 ==> cubeY == 0.0 && velocityY == 0.0)
        && (y + v >= 0.0 ==> cubeY == y + v && velocityY == v)
        && cubeX == x + (if movingRight then MoveStep else 0.0) - (if movingLeft then MoveStep else 0.0)
        && movingRight == old(movingRight) && movingLeft == old(movingLeft) && nextId == old(nextId)
    {
      if playState {
        AdvanceObstacles();
        CheckCollision();

        velocityY := velocityY + Gravity;
        cubeY := cubeY + velocityY;

        if cubeY < 0.0 {
          velocityY := 0.0;
          cubeY := 0.0;
        }

        if movingRight {
          cubeX := cubeX + MoveStep;
        }

        if movingLeft {
          cubeX := cubeX - MoveStep;
        }
      }
    }

    /** Moves every obstacle one step in the -x direction, in place. */
    method AdvanceObstacles()
      requires Valid()
      modifies this
      ensures Valid()
      ensures obstacles == Advanced(old(obstacles))
      ensures score == old(score) && playState == old(playState) && velocityY == old(velocityY)
      ensures cubeX == old(cubeX) && cubeY == old(cubeY) && nextId == old(nextId)
      ensures movingRight == old(movingRight) && movingLeft == old(movingLeft)
    {
      AdvancedKeepsIdentity(obstacles, nextId);
      var i := 0;
      while i < |obstacles|
        invariant 0 <= i <= |obstacles| == |old(obstacles)|
        invariant forall k :: 0 <= k < i ==> obstacles[k] == Advanced(old(obstacles))[k]
        invariant forall k :: i <= k < |obstacles| ==> obstacles[k] == old(obstacles)[k]
        invariant score == old(score) && playState == old(playState) && velocityY == old(velocityY)
        invariant cubeX == old(cubeX) && cubeY == old(cubeY) && nextId == old(nextId)
        invariant movingRight == old(movingRight) && movingLeft == old(movingLeft)
      {
        obstacles := obstacles[i := obstacles[i].(x := obstacles[i].x - ObstacleStep)];
        i := i + 1;
      }
    }

    /** The fields a collision pass reads and writes, as one value. */
    function PassView(): PassState
      reads this
    {
      PassState(obstacles, playState, velocityY, score)
    }

    /** The collision pass: walks the obstacle list as it stood when the pass
        began (later removals do not shorten the walk), resolving each obstacle
        in turn. The cube does not move during the pass. */
    method CheckCollision()
      requires Valid()
      modifies this
      ensures Valid()
      ensures obstacles == Survivors(old(obstacles), cubeX, cubeY)
      ensures playState == (old(playState) && !AnyHit(old(obstacles), cubeX, cubeY))
      ensures velocityY == if AnyLanding(old(obstacles), cubeX, cubeY) then JumpStrength else old(velocityY)
      ensures score == ScoreAfter(old(obstacles), cubeX, cubeY, old(score))
      ensures cubeX == old(cubeX) && cubeY == old(cubeY) && nextId == old(nextId)
      ensures movingRight == old(movingRight) && movingLeft == old(movingLeft)
    {
      var cubeLeft := cubeX - HalfSize;
      var cubeRight := cubeX + HalfSize;
      var cubeTop := cubeY + HalfSize;
      var cubeBottom := cubeY - HalfSize;
      ghost var x, y, start := cubeX, cubeY, PassView();

      var snapshot := obstacles;
      var i := 0;
      while i < |snapshot|
        invariant 0 <= i <= |snapshot|
        invariant PassView() == Pass(start, snapshot[..i], x, y)
        invariant cubeX == x && cubeY == y && nextId == old(nextId)
        invariant movingRight == old(movingRight) && movingLeft == old(movingLeft)
      {
        assert snapshot[..i + 1][..i] == snapshot[..i];
        Resolve(snapshot[i], cubeLeft, cubeRight, cubeTop, cubeBottom);
        i := i + 1;
      }
      assert PassView() == Pass(start, snapshot, x, y) by {
        assert snapshot[..i] == snapshot;
      }
      PassClosedForm(snapshot, start, x, y);
      PassKeepsInvariant(snapshot, x, y, start.score, nextId);
    }

    /** The body of the collision pass for one obstacle: a landing bounces the
        cube, scores a point and removes the obstacle; a hit pauses the game,
        removes the obstacle and resets the score. Both tests are made, in that
        order; StepByOutcome shows that at most one succeeds. */
    method Resolve(obstacle: Obstacle, cubeLeft: real, cubeRight: real, cubeTop: real, cubeBottom: real)
      requires cubeLeft == cubeX - HalfSize && cubeRight == cubeX + HalfSize
      requires cubeTop == cubeY + HalfSize && cubeBottom == cubeY - HalfSize
      modifies this
      ensures PassView() == Step(old(PassView()), obstacle, cubeX, cubeY)
      ensures cubeX == old(cubeX) && cubeY == old(cubeY) && nextId == old(nextId)
      ensures movingRight == old(movingRight) && movingLeft == old(movingLeft)
    {
      if obstacle.x > cubeLeft && obstacle.x < cubeRight {
        if obstacle.y + LandingReach >= cubeBottom && obstacle.y + LandingClearance <= cubeBottom {
          velocityY := JumpStrength;
          score := score + 1;
          obstacles := Without(obstacles, obstacle.id);
        }

        if obstacle.y > cubeBottom && obstacle.y < cubeTop {
          playState := false;
          obstacles := Without(obstacles, obstacle.id);
          score := 0;
        }
      }
    }

    /** Keydown handler: P toggles play, A and D start moving, Space jumps,
        even while paused. */
    method Play(code: string)
      requires Valid()
      modifies this
      ensures Valid()
      ensures playState == (if code == KeyP then !old(playState) else old(playState))
      ensures movingLeft == (code == KeyA || old(movingLeft))
      ensures movingRight == (code == KeyD || old(movingRight))
      ensures velocityY == if code == Space then JumpStrength else old(velocityY)
      ensures score == old(score) && cubeX == old(cubeX) && cubeY == old(cubeY)
      ensures obstacles == old(obstacles) && nextId == old(nextId)
      ensures code !in {KeyP, KeyA, KeyD, Space} ==> unchanged(this)
    {
      if code == KeyP {
        playState := !playState;
      }

      if code == KeyA {
        movingLeft := true;
      }

      if code == KeyD {
        movingRight := true;
      }

      if code == Space {
        velocityY := JumpStrength;
      }
    }

    /** Keyup handler: releasing A or D clears only its own flag. */
    method StopMoving(code: string)
      requires Valid()
      modifies this
      ensures Valid()
      ensures movingLeft == (old(movingLeft) && code != KeyA)
      ensures movingRight == (old(movingRight) && code != KeyD)
      ensures playState == old(playState) && velocityY == old(velocityY) && score == old(score)
      ensures cubeX == old(cubeX) && cubeY == old(cubeY)
      ensures obstacles == old(obstacles) && nextId == old(nextId)
      ensures code != KeyA && code != KeyD ==> unchanged(this)
    {
      if code == KeyA {
        movingLeft := false;
      }

      if code == KeyD {
        movingRight := false;
      }
    }

    /** Spawn timer callback, independent of the play state: a new obstacle at
        x = SpawnX and the given height (drawn from [0, 5) by the caller),
        evicting the oldest at EvictAt. */
    method CreateObstacle(randY: real)
      requires Valid()
      modifies this
      ensures Valid()
      ensures obstacles == Spawn(old(obstacles), Obstacle(old(nextId), SpawnX, randY))
      ensures nextId == old(nextId) + 1
      ensures score == old(score) && playState == old(playState) && velocityY == old(velocityY)
      ensures cubeX == old(cubeX) && cubeY == old(cubeY)
      ensures movingRight == old(movingRight) && movingLeft == old(movingLeft)
    {
      var obstacle := Obstacle(nextId, SpawnX, randY);
      nextId := nextId + 1;
      obstacles := obstacles + [obstacle];

      if |obstacles| >= EvictAt {
        obstacles := obstacles[1..];
      }
    }
  }

  /** Four spawns from page load: the first obstacle is gone, the other three
      remain oldest first, all at the spawn position. */
  method FourSpawnsScenario() returns (heights: seq<real>, xs: seq<real>)
    ensures heights == [2.0, 3.0, 4.0]
    ensures xs == [SpawnX, SpawnX, SpawnX]
  {
    var g := new Game();
    g.CreateObstacle(1.0);
    g.CreateObstacle(2.0);
    g.CreateObstacle(3.0);
    g.CreateObstacle(4.0);
    heights := [g.obstacles[0].y, g.obstacles[1].y, g.obstacles[2].y];
    xs := [g.obstacles[0].x, g.obstacles[1].x, g.obstacles[2].x];
  }

  /** While paused, frames change nothing, but obstacles still spawn and Space still jumps. */
  method PausedScenario() returns (count: nat, x: real, v: real, cubeX: real, cubeY: real)
    ensures count == 1 && x == SpawnX && v == JumpStrength
    ensures cubeX == 0.0 && cubeY == 0.0
  {
    var g := new Game();
    g.CreateObstacle(1.5);
    g.Play(Space);
    g.Animate();
    g.Animate();
    count, x, v, cubeX, cubeY := |g.obstacles|, g.obstacles[0].x, g.velocityY, g.cubeX, g.cubeY;
  }
}
