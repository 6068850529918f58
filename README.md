# Cube arcade game core, modelled in Dafny

The game is a small arcade game on a Three.js page. A green cube can move left and
right and jump. Red obstacle cubes appear at x = 10 at a random height and scroll
in the −x direction. If the cube lands on an obstacle, it bounces and scores a point. If an
obstacle hits the cube's body, the game pauses and the score resets. This project
models the game state and its rules in `main.js`:

- `GameRules` (`rules.dfy`) holds the rules as values:
  - the constants (gravity, jump strength, step sizes, spawn position, the eviction length);
  - the `Obstacle` datatype: an opaque identity standing for the mesh object, plus its x and y;
  - the three tests of the collision callback (`Overlaps`, `LandsOn`, `StrikesBody`) and `Classify`;
  - the pure specification of a collision pass. `Step` is the callback for one obstacle. `Pass` folds `Step` over the list. `Survivors`, `AnyHit`, `AnyLanding` and `ScoreAfter` give the closed form of a pass;
  - the pure specification of spawning (`Spawn`, `SpawnAll`, `Newest`).
- `GameState` (`game.dfy`) holds the class `Game`. Its fields are the module-level
  variables of `main.js`: `score`, `playState`, `movingRight`, `movingLeft`,
  `velocityY`, the cube position `cubeX`/`cubeY`, and `obstacles`. One extra field,
  `nextId`, hands out fresh obstacle identities, as allocating a new mesh does. Its
  methods are:
  - `Animate`: the playing branch of the frame callback;
  - `AdvanceObstacles`: the `forEach` that moves the obstacles;
  - `CheckCollision`: the pass, walking the list as it stood when the pass began;
  - `Resolve`: the pass's per-obstacle callback;
  - `Play` and `StopMoving`: the key handlers;
  - `CreateObstacle`: the spawn timer callback.

  `Valid()` is the invariant every handler keeps:
  - the score is never negative;
  - the cube is never below the ground;
  - there are at most three obstacles;
  - obstacle identities are distinct and already handed out.

Positions and velocities are mathematical `real`s. The random height
`Math.random() * 5` is a parameter of `CreateObstacle`. The source draws it from [0, 5);
the model accepts any height, since no rule depends on the range. The clocks
(`requestAnimationFrame`, `setInterval`) and the key listeners are callers of the
methods.

Three behaviours of the code that the model keeps:

- **At most three obstacles.** `createObstacle` pushes first and then shifts once the
  length is 4 (main.js:120-126). So at most 3 obstacles remain, and the fourth spawn
  evicts the first.
- **Landing band.** A landing needs `cubeBottom - 0.6 <= y <= cubeBottom - 0.3` (main.js:137).
  With the cube at the origin, an obstacle at y = -0.45 does not land. It is a hit,
  because -0.45 lies inside (-0.5, 0.5). An obstacle at y = -1.0 lands.
- **Both tests run.** The callback makes the landing test and then, separately, the
  hit test (main.js:137-149). Nothing skips the second test. The two tests can never
  both hold, so at most one outcome fires per obstacle (`LandingExcludesHit`,
  `StepByOutcome`).

## Model

| member | source | states |
|---|---|---|
| `GameState.Game.constructor` | main.js:41-49 | Initial state: paused, score 0, velocity 0, cube at the origin, no obstacles, invariant established |
| `GameState.Game.Animate` | main.js:54-79 | A paused frame changes nothing. A playing frame works in the source's order: obstacles advance, then the collision pass runs on the advanced list with the cube where it was, then gravity, then the ground clamp, then the horizontal moves. After the frame `cubeY >= 0`. If the clamp fired, `velocityY == 0` and `cubeY == 0`. Holding both keys cancels out. The invariant is kept |
| `GameState.Game.AdvanceObstacles` | main.js:58-60 | Every obstacle moves 0.1 in the −x direction, in place. Identities, heights and order are kept, and nothing else changes |
| `GameState.Game.CheckCollision` | main.js:129-154 | After the pass over the start-of-pass list: `obstacles` is exactly the unclassified obstacles in their original order; `playState` becomes false if some obstacle was a hit and is otherwise unchanged; `velocityY` becomes the jump strength if some obstacle landed and is otherwise unchanged; the score is folded over the outcomes; the cube has not moved; the invariant is kept |
| `GameState.Game.Resolve` | main.js:135-153 | The callback for one obstacle updates the pass fields exactly as `Step` does |
| `GameState.Game.Play` | main.js:84-100 | KeyP toggles `playState`. KeyA and KeyD set their own flag. Space sets `velocityY` to 0.2 whether or not the game is paused. Any other code changes nothing. The invariant is kept |
| `GameState.Game.StopMoving` | main.js:102-110 | Releasing KeyA or KeyD clears only its own flag. Any other code changes nothing. The invariant is kept |
| `GameState.Game.CreateObstacle` | main.js:112-127 | The list becomes `Spawn(old list, new obstacle at (10, randY))` with a fresh identity. Score, play state, velocity and cube are unchanged, whether or not the game is paused. The bound of three is kept |
| `GameRules.Classify` | main.js:136-149 | A landing happens exactly when the obstacle overlaps horizontally and passes the landing test. A hit happens exactly when it overlaps and passes the hit test. No horizontal overlap means no outcome |
| `GameRules.LandingExcludesHit` | main.js:137-144 | The landing test and the hit test are disjoint |
| `GameRules.StepByOutcome` | main.js:136-152 | The callback does nothing on a miss. A landing sets velocity 0.2, adds exactly 1 to the score and filters the obstacle out. A hit sets `playState` false, filters the obstacle out and resets the score to 0 |
| `GameRules.WithoutMembers` | main.js:140-146 | `filter(o => o != obstacle)` keeps exactly the obstacles with a different identity |
| `GameRules.PassPrefix` | main.js:135-153 | After the first i obstacles of the start-of-pass list are resolved, the state is: the classified ones among them filtered out, the rest untouched; play stopped if one was a hit, otherwise as before; velocity 0.2 if one landed, otherwise as before; the folded score |
| `GameRules.PassClosedForm` | main.js:135-153 | The whole pass ends with exactly the unclassified obstacles, in their original order, and the flags and score above |
| `GameRules.SurvivorsMembers` | main.js:140-147 | The obstacles left by a pass are exactly those classified as a miss. There are no more of them than before |
| `GameRules.OccursMeans` | main.js:137-149 | "Some obstacle of the pass is a hit / a landing" means there is such an obstacle in the list |
| `GameRules.UngatedIsNeutral` | main.js:136 | An obstacle outside the cube's horizontal extent changes neither the score, nor the play state, nor the velocity, and it stays in the list |
| `GameRules.ScoreAfterNonNegative` | main.js:139-148 | The score only gains 1 or is reset to 0, so a non-negative score stays non-negative |
| `GameRules.ScoreWithoutHit` | main.js:137-142 | In a pass without a hit, the score grows by exactly the number of landings |
| `GameRules.ScoreForgottenAfterHit` | main.js:144-149 | After a pass with a hit, the score does not depend on the score before the pass |
| `GameRules.PassKeepsInvariant` | main.js:135-153 | A pass keeps the list bounded and the identities distinct and already handed out. A non-negative score stays non-negative |
| `GameRules.SurvivorsDistinct` | main.js:140-146 | Filtering keeps identities distinct |
| `GameRules.PassStepList` | main.js:140-146 | Filtering obstacle i by identity out of the list during the pass removes it and nothing else |
| `GameRules.AdvancedKeepsIdentity` | main.js:58-60 | Moving the obstacles keeps their identities, heights, count and order |
| `GameRules.Spawn` | main.js:117-126 | The new obstacle is the newest. With fewer than three obstacles before, it is appended. With three, the oldest is dropped and the rest keep their order. At most three before means at most three after |
| `GameRules.SpawnAllKeepsNewest` | main.js:120-126 | After any sequence of spawns, the list is exactly the newest three obstacles ever spawned (all of them if fewer), oldest first |
| `GameRules.FourthSpawnEvictsFirst` | main.js:120-126 | From an empty list, the fourth spawn leaves the 2nd, 3rd and 4th obstacles, and the first is gone |
| `GameRules.ClassifyExamples` | main.js:130-149 | Cube at the origin: an obstacle at (0, -1.0) lands; obstacles at (0, -0.45) and (0, 0.2) are hits; one at (0.5, 0.2) is outside the horizontal extent |
| `GameRules.PassExamples` | main.js:135-153 | Cube at the origin: a landing at (0, -1.0) scores exactly one point and leaves the list. When a hit at (0, 0.2) follows it in the same pass, the score becomes 0 and both obstacles leave the list |
| `GameState.FourSpawnsScenario` | main.js:112-127 | Four spawns through the class leave obstacles at heights 2, 3 and 4, all at x = 10 |
| `GameState.PausedScenario` | main.js:54-127 | After page load, a spawn, a Space press and two paused frames: the obstacle is still at x = 10, the velocity is 0.2, and the cube is still at the origin |

## Left out

- Scene, camera, renderer, lights, geometry, materials and `renderer.render` (main.js:1-39, 81): calls into the 3D library with no game logic.
- Cube rotation (main.js:55-56): purely visual and never read.
- `scene.add` and `scene.remove` (main.js:121, 124, 141, 147): the rendering side of creating and removing obstacles. Only the obstacle list is modelled.
- The score text write `scoreH1.innerHTML` (main.js:151): DOM output.
- `requestAnimationFrame`, `setInterval` and `addEventListener` (main.js:52, 156, 158-159): scheduling by the host. Each callback is a method that its caller invokes, one at a time.
- `Math.random()` (main.js:113): the random height is a parameter of `CreateObstacle`.
- IEEE-754 doubles: positions, velocities and the constants 0.1, 0.01, 0.2 are exact reals, so rounding effects of the browser's arithmetic are not captured.
- `checkCollision` is declared `async` but never awaits, so it runs to completion at the call. It is modelled as an ordinary method.
- The depth (z) of the cube and the obstacles never changes, so it is not modelled.
