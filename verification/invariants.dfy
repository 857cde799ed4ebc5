/** Facts that hold in every state the game can reach from its start, and
    what they say about runs of many frames and inputs.
 */
module Invariants {
  import opened World
  import opened Pipeline
  import SpawnTimer
  import opened FlappyBird

  /** The range of the spawned gap edge: [0, span) for a canvas tall enough
      to hold a pipe body and the gap, [span, 0] for a shorter one. */
  predicate InSpawnRange(c: Canvas, y: int) {
    var span := c.height - PipeHeight - PipeGap;
    (span > 0 ==> 0 <= y < span) && (span <= 0 ==> span <= y <= 0)
  }

  /** A live pipe has moved at least once since it appeared at the right
      edge, has not yet left the screen, got its gap edge from the spawn
      range, and is marked passed exactly when the bird is past it. */
  predicate LivePipe(c: Canvas, birdX: int, p: Pipe) {
    && OnScreen(p)
    && p.x <= c.width - PipeSpeed
    && InSpawnRange(c, p.y)
    && (p.passed <==> birdX > p.x + PipeWidth)
  }

  /** Holds in every reachable state; it is inductive, so it also admits
      some states no run reaches. */
  predicate Valid(c: Canvas, g: GameState) {
    && g.birdX == BirdStartX
    && 0 <= g.pipeTimer <= SpawnRate
    && (g.isGameOver ==> g.isGameStarted)
    && (forall i :: 0 <= i < |g.pipes| ==> LivePipe(c, g.birdX, g.pipes[i]))
    && Ordered(g.pipes)
  }

  /** A pipe as it enters a running tick's pass: at most at the right edge,
      with its gap edge from the spawn range, and marked passed only when
      the bird is past it. */
  predicate Incoming(c: Canvas, birdX: int, p: Pipe) {
    && p.x <= c.width
    && InSpawnRange(c, p.y)
    && (p.passed ==> birdX > p.x + PipeWidth)
  }

  /** Moving and culling incoming pipes yields live pipes, in order. */
  lemma PassYieldsLive(c: Canvas, birdX: int, ps: seq<Pipe>)
    requires forall i :: 0 <= i < |ps| ==> Incoming(c, birdX, ps[i])
    requires Ordered(ps)
    ensures forall i :: 0 <= i < |Cull(Advance(birdX, ps))| ==> LivePipe(c, birdX, Cull(Advance(birdX, ps))[i])
    ensures Ordered(Cull(Advance(birdX, ps)))
  {
    var moved := Advance(birdX, ps);
    assert forall i :: 0 <= i < |moved| ==> moved[i].x <= c.width - PipeSpeed && InSpawnRange(c, moved[i].y)
                                            && (moved[i].passed <==> birdX > moved[i].x + PipeWidth);
    CullMembers(moved);
    AdvanceOrdered(birdX, ps);
    CullOrdered(moved);
    forall i | 0 <= i < |Cull(moved)|
      ensures LivePipe(c, birdX, Cull(moved)[i])
    {
      assert Cull(moved)[i] in Cull(moved);
    }
  }

  /** The list a running tick passes over is made of incoming pipes, in order. */
  lemma SpawnedIncoming(c: Canvas, g: GameState, rand: real)
    requires 0.0 <= rand < 1.0
    requires Valid(c, g)
    ensures forall i :: 0 <= i < |AfterSpawn(c, g, rand)| ==> Incoming(c, g.birdX, AfterSpawn(c, g, rand)[i])
    ensures Ordered(AfterSpawn(c, g, rand))
  {
    var ps := AfterSpawn(c, g, rand);
    if SpawnTimer.SpawnsNow(g.pipeTimer) {
      assert ps == g.pipes + [ps[|g.pipes|]];
      assert forall i :: 0 <= i < |g.pipes| ==> ps[i] == g.pipes[i];
    }
  }

  /** The start state is valid. */
  lemma InitValid(c: Canvas)
    ensures Valid(c, Init(c))
  {
  }

  /** A running tick keeps the state valid. */
  lemma UpdateValid(c: Canvas, g: GameState, rand: real)
    requires 0.0 <= rand < 1.0
    requires Valid(c, g) && g.isGameStarted
    ensures Valid(c, Update(c, g, rand))
  {
    var r := Update(c, g, rand);
    if !g.isGameOver && !OutOfBounds(c, r.birdY) {
      SpawnedIncoming(c, g, rand);
      PassYieldsLive(c, g.birdX, AfterSpawn(c, g, rand));
    }
  }

  /** Every transition keeps the state valid. */
  lemma TickValid(c: Canvas, g: GameState, rand: real)
    requires 0.0 <= rand < 1.0
    requires Valid(c, g)
    ensures Valid(c, Tick(c, g, rand))
  {
    if PhaseOf(g) == Running {
      UpdateValid(c, g, rand);
    }
  }

  lemma HandleJumpValid(c: Canvas, g: GameState)
    requires Valid(c, g)
    ensures Valid(c, HandleJump(c, g))
  {
  }

  lemma ResetValid(c: Canvas, g: GameState)
    requires Valid(c, g)
    ensures Valid(c, ResetGame(c, g))
    ensures Valid(c, RestartGame(c, g))
  {
  }

  /** In a valid state the input action always leaves the game running: a
      reset after game over keeps the started flag, so the game does not go
      back to the waiting screen. */
  lemma JumpAlwaysRuns(c: Canvas, g: GameState)
    requires Valid(c, g)
    ensures PhaseOf(HandleJump(c, g)) == Running
  {
  }

  /** In a valid state a tick credits a pipe exactly when this tick's move
      takes the pipe's right edge past the bird, so each pipe is credited
      once, on the first tick the bird is past it. */
  lemma CreditedOnCrossing(c: Canvas, g: GameState, rand: real, i: int)
    requires 0.0 <= rand < 1.0
    requires Valid(c, g)
    requires 0 <= i < |AfterSpawn(c, g, rand)|
    ensures var p := AfterSpawn(c, g, rand)[i];
            (!p.passed && Advance(g.birdX, AfterSpawn(c, g, rand))[i].passed)
            <==> p.x + PipeWidth - PipeSpeed < g.birdX <= p.x + PipeWidth
  {
    SpawnedIncoming(c, g, rand);
    var p := AfterSpawn(c, g, rand)[i];
    if SpawnTimer.SpawnsNow(g.pipeTimer) && i == |g.pipes| {
      assert !p.passed && p.x == c.width;
    } else {
      assert p == g.pipes[i];
    }
  }

  // Runs of many events

  /** What the game reacts to. `Frame` is a display frame, with the random
      number its spawn would draw. `Click` is a click that reaches only the
      document's listener. The restart button sits inside the document, so
      `RestartButton` runs its own listener, a reset, and then the bubbled
      input action. `CanvasRestart` is a click on the canvas while the
      listener installed at game over is present: the restart assignments,
      the frame that `restartGame` runs at once (drawing `rand` if it
      spawns), and then the bubbled input action. */
  datatype Event = Frame(rand: real) | Click | RestartButton | CanvasRestart(rand: real)

  predicate WellFormed(e: Event) {
    (e.Frame? || e.CanvasRestart?) ==> 0.0 <= e.rand < 1.0
  }

  /** The state after one event, the listeners run in the order the click
      reaches them. */
  function Step(c: Canvas, g: GameState, e: Event): GameState
    requires WellFormed(e)
  {
    match e
    case Frame(rand) => Tick(c, g, rand)
    case Click => HandleJump(c, g)
    case RestartButton => HandleJump(c, ResetGame(c, g))
    case CanvasRestart(rand) => HandleJump(c, Tick(c, RestartGame(c, g), rand))
  }

  /** A press of the restart button always leaves the game running with no
      pipes and no score. After a game over the bubbled input action then
      finds a running game and sets the jump velocity, so the bird does not
      start at rest; before the start it only starts the game. */
  lemma ButtonPress(c: Canvas, g: GameState)
    requires Valid(c, g)
    ensures PhaseOf(Step(c, g, RestartButton)) == Running
    ensures Step(c, g, RestartButton).pipes == [] && Step(c, g, RestartButton).score == 0
    ensures Step(c, g, RestartButton).birdY == c.height as real / 2.0 - 10.0
    ensures g.isGameStarted ==> Step(c, g, RestartButton).birdDY == JumpHeight
    ensures !g.isGameStarted ==> Step(c, g, RestartButton).birdDY == 0.0
  {
  }

  /** A canvas click after a game over also ends in a running game. Unless
      the frame run by the restart ends the game again, the bubbled input
      action then sets the jump velocity. */
  lemma CanvasPress(c: Canvas, g: GameState, rand: real)
    requires 0.0 <= rand < 1.0
    requires Valid(c, g) && PhaseOf(g) == GameOver
    ensures PhaseOf(Step(c, g, CanvasRestart(rand))) == Running
    ensures !Tick(c, RestartGame(c, g), rand).isGameOver ==> Step(c, g, CanvasRestart(rand)).birdDY == JumpHeight
  {
  }

  function Replay(c: Canvas, g: GameState, es: seq<Event>): GameState
    requires forall i :: 0 <= i < |es| ==> WellFormed(es[i])
    decreases |es|
  {
    if |es| == 0 then g else Replay(c, Step(c, g, es[0]), es[1..])
  }

  /** Every state reachable from the start by any events is valid. */
  lemma {:induction false} ReplayValid(c: Canvas, g: GameState, es: seq<Event>)
    requires forall i :: 0 <= i < |es| ==> WellFormed(es[i])
    requires Valid(c, g)
    ensures Valid(c, Replay(c, g, es))
    decreases |es|
  {
    if |es| > 0 {
      match es[0] {
        case Frame(rand) => TickValid(c, g, rand);
        case Click => HandleJumpValid(c, g);
        case RestartButton =>
          ResetValid(c, g);
          HandleJumpValid(c, ResetGame(c, g));
        case CanvasRestart(rand) =>
          ResetValid(c, g);
          TickValid(c, RestartGame(c, g), rand);
          HandleJumpValid(c, Tick(c, RestartGame(c, g), rand));
      }
      ReplayValid(c, Step(c, g, es[0]), es[1..]);
    }
  }

  /** Frames alone change nothing before the start and nothing after a
      game over: those phases wait for input. */
  lemma {:induction false} FramesWait(c: Canvas, g: GameState, es: seq<Event>)
    requires forall i :: 0 <= i < |es| ==> WellFormed(es[i]) && es[i].Frame?
    requires PhaseOf(g) != Running
    ensures Replay(c, g, es) == g
    decreases |es|
  {
    if |es| > 0 {
      FramesWait(c, g, es[1..]);
    }
  }

  /** Frames alone never lower the score. */
  lemma {:induction false} FramesKeepScore(c: Canvas, g: GameState, es: seq<Event>)
    requires forall i :: 0 <= i < |es| ==> WellFormed(es[i]) && es[i].Frame?
    ensures Replay(c, g, es).score >= g.score
    decreases |es|
  {
    if |es| > 0 {
      FramesKeepScore(c, Step(c, g, es[0]), es[1..]);
    }
  }
}
