# Flappy-bird simulation core in Dafny

This project models the simulation step of a small Flappy-Bird clone
(`thing/script.js`): a bird that falls under gravity and jumps on the space
bar, a stream of pipe pairs with a gap that scroll to the left, a score
that goes up once per pipe passed, a sticky game-over state and a restart.
Drawing and browser plumbing are not modelled.

- `config.dfy` (module `Config`): the canvas size, the bird's fixed x,
  size, gravity and lift, pipe width, gap, floor height, scroll speed,
  spawn interval, and the range of the random top height.
- `bird.dfy` (module `Bird`): `updateBird` as the pure function `Fly`.
- `pipes.dfy` (module `Pipes`): the `Pipe` record, the spawn step, the
  scoring window and the overlap test, and the forEach pass of
  `updatePipes` twice: `ForEachFrom`/`Visit` follow the JavaScript loop
  index by index (the array length is fixed when the loop starts, an index
  past the end of the shrunk array is skipped, `splice` at the current index
  shifts the next pipe into it), and `SweepRef` describes the same pass over
  the original pipes one by one. `ForEachMatchesSweep` proves the two equal;
  the other lemmas state what the pass does in terms of `SweepRef`.
- `game.dfy` (module `FlappyGame`): class `Game` holding the mutable state
  (`birdY`, `velocity`, `pipes`, `score`, `frame`, `gameOver`,
  `spacePressed`), with `UpdateBird`, `UpdatePipes` (a `while` loop over the
  pipe sequence calling `VisitPipe`, the forEach callback), `Step` (the
  update branch of `gameLoop`), `Reset` (`resetGame`), `KeyDown` and
  `KeyUp` (the handler bodies). A ghost counter `spawned` of the pipes
  pushed since the last reset lets the class invariant bound the total:
  the score plus the pipes still unscored never exceeds it.

The model keeps these behaviours of the loop as written:
- the pipe right behind a spliced pipe is skipped for that frame (not
  moved, not scored, not collision-tested);
- the pipe being removed is still collision-tested on its last frame;
- the scoring window is open on both sides (`15 < x < 35`);
- a pipe leaves the field after its 186th visit, when `x + 50 < 0`;
- `updatePipes` and `frame++` still run on the frame where `updateBird`
  itself ended the game.

## Model

| member | source | states |
|---|---|---|
| `Bird.Fly` | thing/script.js:47-64 | after one frame the bird is within 0 and 400; falling past the floor rests it on the floor, rising past the ceiling pins it at 0, both with velocity 0 and a crash; otherwise velocity grows by gravity and y by the new velocity |
| `Bird.FirstFrameFromRest` | thing/script.js:8-16 | from y = 150 at rest one frame gives velocity 0.1 and y 150.1 with no crash |
| `Pipes.SpawnPipe` | thing/script.js:68-71 | a new pipe starts at x = 320, unscored, with the drawn top, a bottom in 21..200, and top + gap + bottom + floor = canvas height |
| `Pipes.Spawned` | thing/script.js:67-72 | the field gains exactly one pipe, at its end, exactly when frame % 90 = 0; the existing pipes are kept in order |
| `Pipes.InScoreWindow` | thing/script.js:77-81 | the gap centre is strictly within half a bird width of the bird's x exactly when 15 < x < 35 |
| `Pipes.Collides` | thing/script.js:91-96 | the bird overlaps a pipe exactly when 0 < x < 70 and the bird is above the gap top or its bottom edge is below the gap bottom |
| `Pipes.Advance` | thing/script.js:75-84 | a visited pipe moves left by exactly 2, keeps its segments, and is scored afterwards exactly when it was or its new x is in the window |
| `Pipes.Gain` | thing/script.js:80-84 | a visit adds one point exactly when it turns the pipe's scored flag from false to true, and never more than one |
| `Pipes.Visit` | thing/script.js:74-98 | one callback call replaces the pipe at index k by its moved and scored self, or splices it out (the others kept in place) exactly when it is now off screen; adds its gain to the score and sets game over exactly on an overlap of the moved pipe |
| `Pipes.ForEachFrom` | thing/script.js:74-99 | the forEach never adds pipes, never lowers the score, never clears game over, and does nothing once the index is past the array's end |
| `Pipes.SweepRef` | thing/script.js:74-99 | the pass never adds pipes and gains at most one point per pipe |
| `Pipes.ForEachIsSweep` | thing/script.js:74-99 | run from index i over an array whose first i pipes are done, the loop leaves them alone and does to the rest what the reference pass describes |
| `Pipes.ForEachMatchesSweep` | thing/script.js:74-99 | the whole forEach with its splices yields the reference pass's field, score plus its points, and game over or its hit |
| `Pipes.SpliceSkipsNext` | thing/script.js:86-89 | after a splice at index i the pipe from i+1 ends up at i unchanged, and the score and game-over flag do not depend on it |
| `Pipes.SweepEmbeds` | thing/script.js:74-89 | the pass keeps the pipes' relative order, removes only pipes that a visit moves off screen, keeps each pipe's segments, moves each by 2 or not at all, and never clears a scored flag |
| `Pipes.EmbedsKeepsWellFormed` | thing/script.js:70-75 | pipes that only move left, keep their segments or are removed stay well formed |
| `Pipes.SweepScoreConserved` | thing/script.js:80-84 | the points a frame adds plus the pipes left unscored never exceed the unscored pipes before it |
| `Pipes.SpawnedKeepsField` | thing/script.js:67-72 | the spawn step keeps all pipes well formed and adds one unscored pipe exactly when it pushes |
| `Pipes.UpdatePipesEffect` | thing/script.js:66-100 | spawn plus loop equals the reference pass over the spawned field, keeps pipes well formed and pays at most one point per unscored or new pipe |
| `Pipes.SweepHitOnlyByOverlap` | thing/script.js:91-98 | a frame's hit comes only from a pipe that overlaps the bird after moving, and an overlap of the first pipe is always a hit |
| `Pipes.SweepNoRemoval` | thing/script.js:74-98 | when no pipe leaves the screen, every pipe is moved left by exactly 2 and scored as it should, the points are those of all pipes, and the frame is a hit exactly when some moved pipe overlaps |
| `Pipes.AgedMoves` | thing/script.js:75 | after t visits a pipe is 2t further left with the same segments |
| `Pipes.SpawnedPipeLife` | thing/script.js:71-89 | a new pipe visited every frame scores on its 143rd visit only, stays scored from then on, and is off screen from its 186th visit |
| `Pipes.UnscoredAppend` | thing/script.js:71 | pushing a pipe adds one to the unscored count exactly when the pipe is unscored |
| `FlappyGame.Game.constructor` | thing/script.js:8-25 | a new game has the bird at y = 150 at rest, no pipes, score and frame 0, no game over, no latch |
| `FlappyGame.Game.UpdateBird` | thing/script.js:47-64 | y and velocity become those of `Fly`; game over is set exactly on a crash and never cleared; nothing else changes |
| `FlappyGame.Game.VisitPipe` | thing/script.js:74-99 | the callback body, run on the fields in place, gives exactly `Visit` of the old pipes, score and game-over flag |
| `FlappyGame.Game.UpdatePipes` | thing/script.js:66-100 | the new pipes, score and game over are the reference pass over the spawned field; the invariant (bird in range, pipes well formed, score + unscored pipes <= pipes pushed) is kept |
| `FlappyGame.Game.Step` | thing/script.js:121-128 | in game over nothing changes; otherwise bird, pipes, score, game over and frame + 1 follow `Fly` then the pass, game over comes only from a crash or an overlap, and the score never goes down |
| `FlappyGame.Game.Reset` | thing/script.js:108-116 | bird back at y = 150 at rest, pipes emptied, score and frame 0, game over and latch cleared |
| `FlappyGame.Game.KeyDown` | thing/script.js:145-154 | Space jumps (velocity := lift) and sets the latch only when unlatched and running; Space while latched and running does nothing; Space in game over resets; other keys do nothing |
| `FlappyGame.Game.KeyUp` | thing/script.js:156-160 | releasing Space clears the latch; other keys leave it |
| `FlappyGame.HeldSpaceJumpsOnce` | thing/script.js:145-160 | keydown, a frame, and a second keydown without keyup give a single jump (velocity lift + gravity, latch still set, frame advanced) when the frame neither crashed nor hit a pipe; only when it did does the second keydown restart the game |

## Left out

- Drawing (`drawBird`, `drawPipes`, `drawFloor`, `drawScore`, the
  game-over text, `clearRect`): rendering only, it changes no state.
- `requestAnimationFrame` and the `addEventListener` registration: the
  handler bodies are the methods `KeyDown` and `KeyUp`, and one frame is
  `Step`, which callers invoke in any order between frames.
- `Math.random()`: the drawn top height is the parameter `topHeight` of
  `Step`/`UpdatePipes`, required to be in 20..199, the range
  `floor(random * 180) + 20` produces.
- IEEE doubles: `birdY` and `velocity` are exact reals, so for instance
  150 + 0.1 is exactly 150.1 here; rounding at the clamp boundaries is not
  modelled. Pipe quantities are small integers and exact in both.
- `frame` and `score` are unbounded naturals; JavaScript numbers stop being
  exact integers beyond 2^53.
- Pipe objects are values in a sequence: no pipe object is ever shared, so
  updating the array element in place is the same as replacing it.
- The keyboard event is reduced to its `code` string.
