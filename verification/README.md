# Flappy Bird game core in Dafny

This project models the game logic of a browser Flappy Bird clone. The
bird falls under gravity and jumps on a click. Pipes with a gap spawn at
the right edge on a countdown and move left every frame. The score counts
the pipes the bird gets past. Touching a pipe or leaving the canvas ends
the game. A click or a restart control resets it.

All globals of the game become one `GameState` value, and each operation
is a function from state to state:

- `world.dfy` (`World`): the fixed constants and the canvas size.
- `pipeline.dfy` (`Pipeline`): pipes, collision and scoring tests, spawning
  with the random draw as a parameter, and the reference definition of one
  pass over the pipe list. That pass moves and scores each pipe (`Advance`),
  then keeps the on-screen ones (`Cull`).
- `scan.dfy` (`Scan`): the pass as the game writes it, a forward index scan
  that removes a pipe with `splice(i, 1); i--`. It is proved equal to the
  reference pass.
- `timer.dfy` (`SpawnTimer`): the spawn countdown and its period of 201
  ticks.
- `game.dfy` (`FlappyBird`): the state record, phases, `handleJump`, the
  per-frame phase gate, `update`, `resetGame`, `restartGame`'s assignments
  and `endGame`.
- `invariants.dfy` (`Invariants`): a validity invariant kept by every
  transition, and properties of runs of many events.

Number model: the bird's vertical position and velocity only take
half-integer values, so they are exact `real`s. Pipe coordinates, the
bird's column, the score and the countdown are integers. The canvas
dimensions are natural numbers. A spawn draws `Math.random()`; the model
takes that number as a parameter `rand` with `0 <= rand < 1`. The new
pipe's gap edge is then `floor(rand * (height - 330))`, exactly as in the
code. A new pipe object has no `passed` property, which reads as false, so
it is modelled as `passed == false`.

How the code behaves, which the model follows:

- A reset (through a click after game over, or the restart button) neither
  clears `isGameStarted` nor the spawn countdown. So the game goes straight
  back to running, not to the waiting screen (`Invariants.JumpAlwaysRuns`).
- Every click bubbles to the document's `handleJump`, including a press of
  the restart button and a click on the canvas after game over. So after
  a game over a button press resets and then jumps: the bird starts with
  velocity -10, not at rest (`Invariants.ButtonPress`).
- The countdown is reset to 200 and a spawn needs it at 0, so pipes appear
  every 201 running ticks, the first on the first running tick.
- A collision ends the game but the pass continues: later pipes are still
  moved, scored and culled in the same tick.
- When the bird leaves the canvas, the spawn step and the pipe pass are
  skipped for that tick.
- The collision gap spans `y` to `y + 330` (pipe height plus gap).
- A canvas shorter than 330 is not rejected. The spawn then draws a gap
  edge in `[height - 330, 0]`.

## Model

| member | source | states |
|---|---|---|
| `Pipeline.SpawnY` | flappybird.js:186 | the spawned gap edge lies in `[0, height - 330)` when the canvas is taller than 330, and in `[height - 330, 0]` otherwise |
| `Pipeline.SpawnPipe` | flappybird.js:185-191 | a spawn appends exactly one pipe at the right edge, not yet passed, and keeps the earlier pipes as they were |
| `Pipeline.OnScreen` | flappybird.js:127 | a pipe stays in the list while its right edge `x + 80` has not gone below 0; the removal test is the negation |
| `Pipeline.Collides` | flappybird.js:112-116 | the bird's 30-wide box overlaps the pipe's 80 columns, and its top is above the gap edge `y` or its bottom `y + 20` is below `y + 330` |
| `Pipeline.Passes` | flappybird.js:121 | a pipe is credited when the bird's column is past its right edge and it is not yet marked passed |
| `Pipeline.Visit` | flappybird.js:108-124 | visiting moves a pipe left by 2 and keeps its gap; afterwards the passed flag is true when the bird is past the moved pipe's right edge; it is never cleared, and it is newly set only for such a pipe |
| `Pipeline.Advance` | flappybird.js:107-124 | the move-and-score half of the pass: the list keeps its length and position `i` holds the visited pipe `i` |
| `Pipeline.Cull` | flappybird.js:126-130 | the removal half of the pass never lengthens the list; `CullMembers`, `CullAppend` and `CullSingleton` pin it down as the order-preserving filter on `OnScreen` |
| `Pipeline.Flipped` | flappybird.js:121-124 | the score increment of a pass: the number of positions whose flag goes from false to true, at most the list length |
| `Pipeline.FlippedNone` | flappybird.js:121-124 | when no flag changes, the pass adds nothing to the score |
| `Pipeline.CullMembers` | flappybird.js:126-130 | the culled list holds exactly the pipes whose right edge has not crossed 0: no on-screen pipe is skipped and no off-screen pipe survives |
| `Pipeline.CullAppend` | flappybird.js:126-130 | culling distributes over concatenation, so it is an order-preserving filter |
| `Pipeline.CullOrdered` | flappybird.js:126-130 | culling a left-to-right ordered list leaves it ordered |
| `Pipeline.AdvanceScoring` | flappybird.js:120-124 | over one pass a passed flag only goes from false to true, only for a pipe the bird is past; the flags set equal the pipes the bird passes after moving |
| `Scan.ScanPipes` | flappybird.js:107-131 | the splice scan yields exactly the moved and culled list in order, raises the score by exactly the flags it sets, and ends the game exactly when some moved pipe collides |
| `Scan.ScanOne` | flappybird.js:108-130 | one loop iteration handles the next original pipe: after it, the list is the reference pass over one more pipe followed by the untouched rest |
| `Scan.VisitPipe` | flappybird.js:108-124 | the per-pipe work produces the visited pipe, checks collision on the moved pipe, and credits exactly a flag that was false and is now true |
| `SpawnTimer.Next` | flappybird.js:100-105 | the countdown goes to 200 after a spawn at 0 and down by one otherwise, so it stays in `[0, 200]` |
| `SpawnTimer.SpawnsClosedForm` | flappybird.js:100-105 | from countdown `t`, `n` running ticks spawn `(n - t + 200) / 201` pipes |
| `SpawnTimer.SpawnPeriod` | flappybird.js:100-105 | from countdown 0 the first tick spawns and then one pipe every 201 ticks: `k * 201` ticks spawn exactly `k` pipes |
| `FlappyBird.Declared` | flappybird.js:6-23 | the declared globals describe a game waiting to start, with the bird at column 50 at rest at mid-height, no pipes, score 0 and countdown 0 |
| `FlappyBird.Init` | flappybird.js:240 | the game begins waiting to start, with the bird at column 50 at rest 10 above mid-height, no pipes, score 0 and countdown 0 |
| `FlappyBird.ResetGame` | flappybird.js:194-200 | a reset puts the bird at `height/2 - 10` at rest, clears the pipes, the score and the game over flag, and keeps the bird's column, the countdown and the started flag |
| `FlappyBird.RestartGame` | flappybird.js:227-233 | a restart puts the bird at column 50 and `height/2` at rest, clears pipes, score and game over, and keeps the countdown and started flag |
| `FlappyBird.EndGame` | flappybird.js:203-205 | ending the game moves to the game over phase and changes nothing but that flag |
| `FlappyBird.PhaseOf` | flappybird.js:62-81 | the phase as the game tests it: the game over flag first, then the started flag; running means started and not over |
| `FlappyBird.HandleJump` | flappybird.js:61-69 | after game over the action is a reset; before the start it only sets the started flag; while running it only sets the velocity to -10 |
| `FlappyBird.AfterSpawn` | flappybird.js:100-105 | at countdown 0 the list gains exactly one new pipe at the end, the one `spawnPipe` builds; otherwise it is unchanged |
| `FlappyBird.OutOfBounds` | flappybird.js:94 | the bird has left the canvas when its `y` is below the bottom edge or its bottom `y + 20` is above the top |
| `FlappyBird.Update` | flappybird.js:88-133 | a running tick adds 0.5 to the velocity and then the new velocity to the height, never moves the bird's column or starts the game, never lowers the score, and never revives a lost game |
| `FlappyBird.Tick` | flappybird.js:71-86 | a frame before the start or after game over leaves every part of the state unchanged; only a started game that is not over runs `update` |
| `FlappyBird.RunUpdate` | flappybird.js:88-133 | `update` run statement by statement, with the splice scan for its loop, computes exactly the functional running tick |
| `FlappyBird.JumpIgnoresVelocity` | flappybird.js:61-69 | a jump overrides the velocity rather than adding to it: states differing only in velocity jump to the same state |
| `FlappyBird.JumpThenTick` | flappybird.js:61-91 | the tick after a running jump leaves velocity -9.5 and raises the bird by 9.5 |
| `FlappyBird.UpdateOutOfBounds` | flappybird.js:93-99 | when the bird's new `y` is below the canvas bottom or its bottom edge `y + 20` is above the canvas top, the game is over and pipes, score and countdown are unchanged |
| `FlappyBird.UpdatePipes` | flappybird.js:98-131 | on the canvas, the tick steps the countdown; the pipes are the old ones moved and culled, then the new pipe (moved once) exactly when the countdown was 0; the count grows by at most that pipe |
| `FlappyBird.UpdateScore` | flappybird.js:120-124 | on the canvas, the score rises by exactly the number of flags the tick sets, each for a pipe the bird is past |
| `FlappyBird.UpdateGameOver` | flappybird.js:93-118 | a tick entered before game over ends in game over exactly when the bird left the canvas or some moved pipe collides with it |
| `FlappyBird.ResetForgetsRun` | flappybird.js:194-200 | a reset depends only on the bird's column, the countdown and the started flag, and resetting twice is resetting once |
| `FlappyBird.RestartForgetsRun` | flappybird.js:227-233 | a restart depends only on the countdown and the started flag, and differs from a reset only in the bird's position |
| `Invariants.InitValid` | flappybird.js:240 | the start state is valid: column 50, countdown in range, no pipes |
| `Invariants.PassYieldsLive` | flappybird.js:107-131 | moving and culling pipes that enter a tick in order gives live pipes in order: on screen, left of the edge, flag consistent with the bird |
| `Invariants.SpawnedIncoming` | flappybird.js:185-191 | the list a running tick scans, new pipe included, is ordered left to right with gap edges in the spawn range |
| `Invariants.UpdateValid` | flappybird.js:88-133 | a running tick keeps the state valid |
| `Invariants.TickValid` | flappybird.js:71-86 | every frame keeps the state valid |
| `Invariants.HandleJumpValid` | flappybird.js:61-69 | the input action keeps the state valid |
| `Invariants.ResetValid` | flappybird.js:194-233 | reset and restart keep the state valid |
| `Invariants.JumpAlwaysRuns` | flappybird.js:61-69 | from any valid state the input action leaves the game running; a reset never returns to the waiting screen |
| `Invariants.CreditedOnCrossing` | flappybird.js:120-124 | in a valid state a pipe is credited exactly on the tick whose move takes its right edge past the bird, so each pipe scores once |
| `Invariants.Step` | flappybird.js:58-69 | one event with its listeners in the order a click reaches them: a frame ticks; a plain click runs `handleJump`; the restart button runs `resetGame` and then the bubbled `handleJump`; a canvas click after game over runs `restartGame`, its immediate frame, then the bubbled `handleJump` |
| `Invariants.ButtonPress` | flappybird.js:58-69 | a restart button press always ends running with no pipes and score 0; after game over the bird leaves with the jump velocity -10, not at rest, and before the start it stays at rest |
| `Invariants.CanvasPress` | flappybird.js:218-236 | a canvas click after game over ends running, and unless the restart's own frame ends the game again the bird leaves with the jump velocity -10 |
| `Invariants.ReplayValid` | flappybird.js:58-86 | any sequence of frames, clicks and restarts from a valid state ends in a valid state |
| `Invariants.FramesWait` | flappybird.js:71-86 | before the start or after game over, any number of frames leaves the state unchanged |
| `Invariants.FramesKeepScore` | flappybird.js:88-133 | frames alone never lower the score |

## Left out

- Rendering (`draw`, `showGameOver`, flappybird.js:135-183 and 207-217): canvas drawing, image sizes and text measurement are output only and never change the state.
- The floor scroll offset (flappybird.js:179): it is computed for drawing and never stored.
- Image loading (flappybird.js:25-51): browser resources with no effect on the state.
- Listener wiring (flappybird.js:58-59, 220, 225): adding and removing listeners is browser plumbing. `Invariants.Event` lists the clicks the game reacts to as plain events, each running the listeners it reaches in order, including the document's `handleJump` that every click bubbles to. Which listeners are installed is not tracked: the model lets a canvas restart follow any state, while the game installs that listener only at game over.
- Frame scheduling (`requestAnimationFrame`, flappybird.js:79, 85): frames are explicit `Tick` calls, and the frame `restartGame` runs at once (flappybird.js:236) is part of the `CanvasRestart` event. Frames stop after game over because `gameLoop` returns without scheduling another (flappybird.js:72-75), and only `restartGame` calls `gameLoop` again; so a reset through the restart button or another click does not by itself bring frames back. The model lets any event follow any other, so these runs are covered but not singled out.
- `Math.random` (flappybird.js:186): it becomes the parameter `rand`, required to lie in `[0, 1)`.
- IEEE-754 doubles: positions and velocity are exact reals, and `int` is unbounded. Rounding and overflow after very long runs are not modelled.
