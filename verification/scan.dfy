/** The pipe loop of one running tick, written the way the game writes it: a
    forward index scan that moves, collision-checks and scores each pipe in
    place and removes an off-screen pipe by splicing it out and stepping the
    index back by one.
 */
module Scan {
  import opened World
  import opened Pipeline

  /** The state of the scan after `k` pipes of `pipes0` have been handled:
      the `done` part of the list is the reference pass over the first `k`
      moved pipes, the rest of the list is still untouched, and score and
      game over flag account for exactly those `k` pipes. */
  ghost predicate Scanned(birdX: int, birdY: real, pipes0: seq<Pipe>, moved: seq<Pipe>, k: nat,
                          done: seq<Pipe>, pipes: seq<Pipe>, score0: nat, score: nat, over0: bool, over: bool)
  {
    && |moved| == |pipes0|
    && k <= |pipes0|
    && done == Cull(moved[..k])
    && pipes == done + pipes0[k..]
    && score == score0 + Flipped(pipes0[..k], moved[..k])
    && over == (over0 || HitsAny(birdX, birdY, moved[..k]))
  }

  /** Runs the scan over `pipes0` with the bird at (`birdX`, `birdY`).
      The result is the reference pass: the visited pipes filtered by
      `Cull`, the score raised by the flags flipped, and the game over flag
      raised when some moved pipe collides (it is never lowered). */
  method ScanPipes(birdX: int, birdY: real, pipes0: seq<Pipe>, score0: nat, over0: bool)
    returns (pipes: seq<Pipe>, score: nat, over: bool)
    ensures pipes == Cull(Advance(birdX, pipes0))
    ensures score == score0 + Flipped(pipes0, Advance(birdX, pipes0))
    ensures over == (over0 || HitsAny(birdX, birdY, Advance(birdX, pipes0)))
  {
    ghost var moved := Advance(birdX, pipes0);
    ghost var k: nat := 0;
    ghost var done: seq<Pipe> := [];
    pipes, score, over := pipes0, score0, over0;
    var i: int := 0;
    while i < |pipes|
      invariant Scanned(birdX, birdY, pipes0, moved, k, done, pipes, score0, score, over0, over)
      invariant i == |done|
      decreases |pipes| - i
    {
      pipes, i, score, over, done := ScanOne(birdX, birdY, pipes0, moved, k, done, pipes, i, score0, score, over0, over);
      i := i + 1;
      k := k + 1;
    }
    assert moved[..k] == moved && pipes0[..k] == pipes0;
  }

  /** One iteration of the scan: visit the pipe at index `i` in place, and
      splice it out and step `i` back when it has left the screen. */
  method ScanOne(birdX: int, birdY: real, pipes0: seq<Pipe>, ghost moved: seq<Pipe>, ghost k: nat,
                 ghost done: seq<Pipe>, pipes: seq<Pipe>, i: int, score0: nat, score: nat, over0: bool, over: bool)
    returns (pipes': seq<Pipe>, i': int, score': nat, over': bool, ghost done': seq<Pipe>)
    requires moved == Advance(birdX, pipes0)
    requires Scanned(birdX, birdY, pipes0, moved, k, done, pipes, score0, score, over0, over)
    requires i == |done| < |pipes|
    ensures k < |pipes0|
    ensures Scanned(birdX, birdY, pipes0, moved, k + 1, done', pipes', score0, score', over0, over')
    ensures i' + 1 == |done'|
    ensures |pipes'| - (i' + 1) < |pipes| - i
  {
    ghost var rest := pipes0[k + 1..];
    assert pipes0[k..] == [pipes0[k]] + rest;
    SplitAt(done, pipes0[k], rest);
    var pipe, hit, credited := VisitPipe(birdX, birdY, pipes[i]);
    over' := over;
    if hit {
      over' := true;
    }
    score' := score;
    if credited {
      score' := score + 1;
    }
    pipes' := pipes[i := pipe];
    ReplaceAt(done, pipes0[k], pipe, rest);
    StepFacts(birdX, birdY, pipes0, moved, k);

    i' := i;
    done' := done;
    if pipe.x + PipeWidth < 0 {
      pipes' := pipes'[..i] + pipes'[i + 1..];
      SpliceAt(done, pipe, rest);
      i' := i - 1;
    } else {
      done' := done + [pipe];
    }
  }

  /** The work the scan does on one pipe, in the game's order: move it
      left, test it against the bird, and credit it if the bird is now past
      it. `hit` is the collision test on the moved pipe and `credited` says
      that its `passed` flag was set here. */
  method VisitPipe(birdX: int, birdY: real, p: Pipe) returns (q: Pipe, hit: bool, credited: bool)
    ensures q == Visit(birdX, p)
    ensures hit == Collides(birdX, birdY, q)
    ensures credited == (!p.passed && q.passed)
  {
    q := p.(x := p.x - PipeSpeed);
    hit := Collides(birdX, birdY, q);
    credited := false;
    if birdX > q.x + PipeWidth && !q.passed {
      q := q.(passed := true);
      credited := true;
    }
  }

  /** The element after a prefix `a` of `a + [x] + b` is `x`. */
  lemma SplitAt<T>(a: seq<T>, x: T, b: seq<T>)
    ensures a + ([x] + b) == a + [x] + b
    ensures |a| < |a + [x] + b| && (a + [x] + b)[|a|] == x
  {
  }

  /** Overwriting the element after `a` replaces `x` by `y`. */
  lemma ReplaceAt<T>(a: seq<T>, x: T, y: T, b: seq<T>)
    ensures (a + [x] + b)[|a| := y] == a + [y] + b
  {
  }

  /** Splicing out the element after `a` leaves `a + b`. */
  lemma SpliceAt<T>(a: seq<T>, y: T, b: seq<T>)
    ensures (a + [y] + b)[..|a|] + (a + [y] + b)[|a| + 1..] == a + b
  {
    assert (a + [y] + b)[..|a|] == a;
    assert (a + [y] + b)[|a| + 1..] == b;
  }

  /** How the reference pass over a prefix grows by one pipe. */
  lemma StepFacts(birdX: int, birdY: real, pipes0: seq<Pipe>, moved: seq<Pipe>, k: nat)
    requires |moved| == |pipes0| && k < |pipes0|
    ensures Cull(moved[..k + 1]) == Cull(moved[..k]) + if OnScreen(moved[k]) then [moved[k]] else []
    ensures Flipped(pipes0[..k + 1], moved[..k + 1])
         == Flipped(pipes0[..k], moved[..k]) + if !pipes0[k].passed && moved[k].passed then 1 else 0
    ensures HitsAny(birdX, birdY, moved[..k + 1]) <==> HitsAny(birdX, birdY, moved[..k]) || Collides(birdX, birdY, moved[k])
  {
    assert moved[..k + 1] == moved[..k] + [moved[k]];
    assert pipes0[..k + 1] == pipes0[..k] + [pipes0[k]];
    CullAppend(moved[..k], [moved[k]]);
    CullSingleton(moved[k]);
    FlippedAppend(pipes0[..k], moved[..k], [pipes0[k]], [moved[k]]);
    assert [pipes0[k]][1..] == [] && [moved[k]][1..] == [];
    HitsAnySnoc(birdX, birdY, moved[..k], moved[k]);
  }
}
