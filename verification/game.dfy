/** The game state machine: the run state, the input action, the per-frame
    phase gate and the running tick, with the reset and restart transitions.

    All state the game keeps in globals is one `GameState` value, and every
    operation returns the new value. The canvas is a fixed parameter; the
    random number a spawn draws is a parameter `rand` in [0, 1).
 */
module FlappyBird {
  import opened World
  import opened Pipeline
  import SpawnTimer
  import Scan

  datatype GameState = GameState(
    birdX: int,
    birdY: real,
    birdDY: real,
    score: nat,
    pipes: seq<Pipe>,
    pipeTimer: int,
    isGameOver: bool,
    isGameStarted: bool)

  /** The three phases, read off the two flags the way the game tests them:
      the game over flag first, then the started flag. */
  datatype Phase = Idle | Running | GameOver

  function PhaseOf(g: GameState): Phase {
    if g.isGameOver then GameOver
    else if !g.isGameStarted then Idle
    else Running
  }

  /** The values the globals are declared with. */
  function Declared(c: Canvas): (g: GameState)
    ensures PhaseOf(g) == Idle
    ensures g.birdX == BirdStartX && g.birdY == c.height as real / 2.0 && g.birdDY == 0.0
    ensures g.pipes == [] && g.score == 0 && g.pipeTimer == 0
  {
    GameState(BirdStartX, c.height as real / 2.0, 0.0, 0, [], 0, false, false)
  }

  /** Puts the bird back near mid-height at rest, removes every pipe, zeroes
      the score and clears the game over flag. The bird's column, the spawn
      countdown and the started flag are left as they are. */
  function ResetGame(c: Canvas, g: GameState): (r: GameState)
    ensures r.birdY == c.height as real / 2.0 - 10.0 && r.birdDY == 0.0
    ensures r.pipes == [] && r.score == 0 && !r.isGameOver
    ensures r.birdX == g.birdX && r.pipeTimer == g.pipeTimer && r.isGameStarted == g.isGameStarted
  {
    g.(birdY := c.height as real / 2.0 - 10.0, birdDY := 0.0, pipes := [], score := 0, isGameOver := false)
  }

  /** The state when the game first runs: the declared values, then a reset. */
  function Init(c: Canvas): (g: GameState)
    ensures PhaseOf(g) == Idle && g.pipes == [] && g.score == 0 && g.pipeTimer == 0
    ensures g.birdX == BirdStartX && g.birdY == c.height as real / 2.0 - 10.0 && g.birdDY == 0.0
  {
    ResetGame(c, Declared(c))
  }

  /** The state assignments of a restart: like a reset, but the bird goes
      back to its start column and to exactly mid-height. */
  function RestartGame(c: Canvas, g: GameState): (r: GameState)
    ensures r.birdX == BirdStartX && r.birdY == c.height as real / 2.0 && r.birdDY == 0.0
    ensures r.pipes == [] && r.score == 0 && !r.isGameOver
    ensures r.pipeTimer == g.pipeTimer && r.isGameStarted == g.isGameStarted
  {
    g.(birdX := BirdStartX, birdY := c.height as real / 2.0, birdDY := 0.0, score := 0, pipes := [], isGameOver := false)
  }

  /** Raises the game over flag and changes nothing else. */
  function EndGame(g: GameState): (r: GameState)
    ensures PhaseOf(r) == GameOver
    ensures r.(isGameOver := g.isGameOver) == g
  {
    g.(isGameOver := true)
  }

  /** The input action: after a game over it resets, before the start it
      starts the game, and while running it sets the vertical velocity to
      the jump value. Nothing else changes in any branch. */
  function HandleJump(c: Canvas, g: GameState): (r: GameState)
    ensures PhaseOf(g) == GameOver ==> r == ResetGame(c, g)
    ensures PhaseOf(g) == Idle ==> r.isGameStarted && r.(isGameStarted := false) == g
    ensures PhaseOf(g) == Running ==> r.birdDY == JumpHeight && r.(birdDY := g.birdDY) == g
  {
    if g.isGameOver then ResetGame(c, g)
    else if !g.isGameStarted then g.(isGameStarted := true)
    else g.(birdDY := JumpHeight)
  }

  /** The bird has fallen below the canvas or risen fully above it. */
  predicate OutOfBounds(c: Canvas, birdY: real) {
    birdY > c.height as real || birdY + BirdHeight as real < 0.0
  }

  /** The pipe list once the spawn step of a running tick has run: one new
      pipe at the end when the countdown is at zero, the same list otherwise. */
  function AfterSpawn(c: Canvas, g: GameState, rand: real): (ps: seq<Pipe>)
    requires 0.0 <= rand < 1.0
    ensures SpawnTimer.SpawnsNow(g.pipeTimer) ==> |ps| == |g.pipes| + 1 && ps[..|g.pipes|] == g.pipes
    ensures SpawnTimer.SpawnsNow(g.pipeTimer) ==> ps[|g.pipes|] == Pipe(c.width, SpawnY(c, rand), false)
    ensures !SpawnTimer.SpawnsNow(g.pipeTimer) ==> ps == g.pipes
  {
    if SpawnTimer.SpawnsNow(g.pipeTimer) then SpawnPipe(c, g.pipes, rand) else g.pipes
  }

  /** One running tick: gravity, the bounds test, and, unless the game is
      over by then, the spawn step and one pass over the pipes. */
  function Update(c: Canvas, g: GameState, rand: real): (r: GameState)
    requires 0.0 <= rand < 1.0
    ensures r.birdX == g.birdX && r.isGameStarted == g.isGameStarted
    ensures r.birdDY == g.birdDY + Gravity && r.birdY == g.birdY + r.birdDY
    ensures r.score >= g.score
    ensures g.isGameOver ==> r.isGameOver
  {
    var dy := g.birdDY + Gravity;
    var y := g.birdY + dy;
    if g.isGameOver || OutOfBounds(c, y) then
      g.(birdDY := dy, birdY := y, isGameOver := true)
    else
      var spawned := AfterSpawn(c, g, rand);
      var moved := Advance(g.birdX, spawned);
      g.(birdDY := dy, birdY := y,
         pipeTimer := SpawnTimer.Next(g.pipeTimer),
         pipes := Cull(moved),
         score := g.score + Flipped(spawned, moved),
         isGameOver := HitsAny(g.birdX, y, moved))
  }

  /** The phase gate run once per frame: only a started game that is not
      over is updated; in every other phase the state stays as it is. */
  function Tick(c: Canvas, g: GameState, rand: real): (r: GameState)
    requires 0.0 <= rand < 1.0
    ensures PhaseOf(g) != Running ==> r == g
    ensures PhaseOf(g) == Running ==> r == Update(c, g, rand)
  {
    if g.isGameOver then g
    else if !g.isGameStarted then g
    else Update(c, g, rand)
  }

  /** `update` written the way the game writes it, statement by statement,
      with the pipe loop run by the splice scan. It computes `Update`. */
  method RunUpdate(c: Canvas, g: GameState, rand: real) returns (r: GameState)
    requires 0.0 <= rand < 1.0
    ensures r == Update(c, g, rand)
  {
    r := g;
    r := r.(birdDY := r.birdDY + Gravity);
    r := r.(birdY := r.birdY + r.birdDY);

    if OutOfBounds(c, r.birdY) {
      r := EndGame(r);
    }

    if !r.isGameOver {
      if r.pipeTimer == 0 {
        r := r.(pipes := SpawnPipe(c, r.pipes, rand));
        r := r.(pipeTimer := SpawnRate);
      } else {
        r := r.(pipeTimer := r.pipeTimer - 1);
      }
      var pipes, score, over := Scan.ScanPipes(r.birdX, r.birdY, r.pipes, r.score, r.isGameOver);
      r := r.(pipes := pipes, score := score, isGameOver := over);
    }
  }

  // Properties of the input action

  /** A jump while running overrides the velocity, whatever it was: two
      running states that differ only in velocity jump to the same state.
      The same holds after a game over, where the action resets. */
  lemma JumpIgnoresVelocity(c: Canvas, g: GameState, a: real, b: real)
    requires PhaseOf(g) != Idle
    ensures HandleJump(c, g.(birdDY := a)) == HandleJump(c, g.(birdDY := b))
    ensures PhaseOf(g) == Running ==> HandleJump(c, g.(birdDY := a)).birdDY == JumpHeight
  {
  }

  /** The tick after a jump moves the bird up by the jump value plus one
      gravity step. */
  lemma JumpThenTick(c: Canvas, g: GameState, rand: real)
    requires 0.0 <= rand < 1.0
    requires PhaseOf(g) == Running
    ensures Tick(c, HandleJump(c, g), rand).birdDY == JumpHeight + Gravity
    ensures Tick(c, HandleJump(c, g), rand).birdY == g.birdY + JumpHeight + Gravity
  {
  }

  // Properties of one running tick

  /** When the bird leaves the canvas the game is over and the pipe phase is
      skipped: pipes, score and countdown keep their values. */
  lemma UpdateOutOfBounds(c: Canvas, g: GameState, rand: real)
    requires 0.0 <= rand < 1.0
    requires OutOfBounds(c, Update(c, g, rand).birdY)
    ensures Update(c, g, rand).isGameOver
    ensures Update(c, g, rand).pipes == g.pipes
    ensures Update(c, g, rand).score == g.score
    ensures Update(c, g, rand).pipeTimer == g.pipeTimer
  {
  }

  /** In a running tick that keeps the bird on the canvas, the countdown
      steps, and the pipes are the old ones, moved and culled, followed by
      the new pipe (already moved once) exactly when the countdown was zero.
      So the pipe count grows by at most the one spawned pipe. */
  lemma UpdatePipes(c: Canvas, g: GameState, rand: real)
    requires 0.0 <= rand < 1.0
    requires !g.isGameOver && !OutOfBounds(c, Update(c, g, rand).birdY)
    ensures Update(c, g, rand).pipeTimer == SpawnTimer.Next(g.pipeTimer)
    ensures SpawnTimer.SpawnsNow(g.pipeTimer) ==>
              Update(c, g, rand).pipes
              == Cull(Advance(g.birdX, g.pipes)) + [Visit(g.birdX, Pipe(c.width, SpawnY(c, rand), false))]
    ensures !SpawnTimer.SpawnsNow(g.pipeTimer) ==> Update(c, g, rand).pipes == Cull(Advance(g.birdX, g.pipes))
    ensures |Update(c, g, rand).pipes| <= |g.pipes| + if SpawnTimer.SpawnsNow(g.pipeTimer) then 1 else 0
  {
    var spawned := AfterSpawn(c, g, rand);
    if SpawnTimer.SpawnsNow(g.pipeTimer) {
      var p := Pipe(c.width, SpawnY(c, rand), false);
      assert spawned == g.pipes + [p];
      AdvanceAppend(g.birdX, g.pipes, [p]);
      CullAppend(Advance(g.birdX, g.pipes), Advance(g.birdX, [p]));
      CullSingleton(Visit(g.birdX, p));
      assert Advance(g.birdX, [p]) == [Visit(g.birdX, p)];
    }
  }

  /** In a running tick that keeps the bird on the canvas, the score rises
      by exactly the number of `passed` flags the tick sets, which is the
      number of pipes the bird gets past in this tick; a flag is only ever
      set, never cleared, and only for a pipe the bird is past. */
  lemma UpdateScore(c: Canvas, g: GameState, rand: real)
    requires 0.0 <= rand < 1.0
    requires !g.isGameOver && !OutOfBounds(c, Update(c, g, rand).birdY)
    ensures Update(c, g, rand).score
            == g.score + Flipped(AfterSpawn(c, g, rand), Advance(g.birdX, AfterSpawn(c, g, rand)))
    ensures Update(c, g, rand).score == g.score + PassCount(g.birdX, AfterSpawn(c, g, rand))
    ensures forall i :: 0 <= i < |AfterSpawn(c, g, rand)| && !AfterSpawn(c, g, rand)[i].passed
                          && Advance(g.birdX, AfterSpawn(c, g, rand))[i].passed ==>
              g.birdX > Advance(g.birdX, AfterSpawn(c, g, rand))[i].x + PipeWidth
  {
    AdvanceScoring(g.birdX, AfterSpawn(c, g, rand));
  }

  /** A tick that starts before game over ends in game over exactly when the
      bird left the canvas or some moved pipe collides with it; a collision
      does not stop the pass, so the other pipes are still moved and scored. */
  lemma UpdateGameOver(c: Canvas, g: GameState, rand: real)
    requires 0.0 <= rand < 1.0
    requires !g.isGameOver
    ensures Update(c, g, rand).isGameOver
            <==> OutOfBounds(c, Update(c, g, rand).birdY)
                 || HitsAny(g.birdX, Update(c, g, rand).birdY, Advance(g.birdX, AfterSpawn(c, g, rand)))
  {
  }

  // Properties of the transitions

  /** A reset forgets the run: two states that agree on the bird's column,
      the countdown and the started flag reset to the same state, and
      resetting twice is resetting once. */
  lemma ResetForgetsRun(c: Canvas, g: GameState, h: GameState)
    requires g.birdX == h.birdX && g.pipeTimer == h.pipeTimer && g.isGameStarted == h.isGameStarted
    ensures ResetGame(c, g) == ResetGame(c, h)
    ensures ResetGame(c, ResetGame(c, g)) == ResetGame(c, g)
  {
  }

  /** A restart forgets even more: only the countdown and the started flag
      survive it. It differs from a reset only in the bird's position. */
  lemma RestartForgetsRun(c: Canvas, g: GameState, h: GameState)
    requires g.pipeTimer == h.pipeTimer && g.isGameStarted == h.isGameStarted
    ensures RestartGame(c, g) == RestartGame(c, h)
    ensures RestartGame(c, g) == ResetGame(c, g).(birdX := BirdStartX, birdY := c.height as real / 2.0)
  {
  }
}
