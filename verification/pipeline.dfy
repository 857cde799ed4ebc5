/** The obstacle pipeline: pipes, how one tick moves, scores and culls them,
    and how a new pipe is spawned.

    The functions here are the reference definition of one pass over the
    pipe list: every pipe is first `Visit`ed (moved left and possibly marked
    passed), and the visited list is then filtered by `Cull`. The imperative
    scan in module `Scan` is proved to compute exactly this.
 */
module Pipeline {
  import opened World

  /** One obstacle. `y` is the lower edge of the upper body; `passed` records
      that the bird has been credited for this pipe. */
  datatype Pipe = Pipe(x: int, y: int, passed: bool)

  /** A pipe stays in the list while its right edge has not crossed x = 0. */
  predicate OnScreen(p: Pipe) {
    p.x + PipeWidth >= 0
  }

  /** The bird's box overlaps the pipe horizontally and is not inside the gap. */
  predicate Collides(birdX: int, birdY: real, p: Pipe) {
    && birdX + BirdWidth > p.x
    && birdX < p.x + PipeWidth
    && (birdY < p.y as real || birdY + BirdHeight as real > (p.y + PipeHeight + PipeGap) as real)
  }

  /** The bird is past the pipe's right edge and has not been credited yet. */
  predicate Passes(birdX: int, p: Pipe) {
    birdX > p.x + PipeWidth && !p.passed
  }

  /** What one tick does to one pipe: move it left, then mark it passed if
      the bird is now past it. */
  function Visit(birdX: int, p: Pipe): (q: Pipe)
    ensures q.x == p.x - PipeSpeed && q.y == p.y
    ensures p.passed ==> q.passed
    ensures q.passed && !p.passed ==> birdX > q.x + PipeWidth
    ensures birdX > q.x + PipeWidth ==> q.passed
  {
    var moved := p.(x := p.x - PipeSpeed);
    if Passes(birdX, moved) then moved.(passed := true) else moved
  }

  /** Every pipe visited, in order. */
  function Advance(birdX: int, ps: seq<Pipe>): (qs: seq<Pipe>)
    ensures |qs| == |ps|
    ensures forall i :: 0 <= i < |ps| ==> qs[i] == Visit(birdX, ps[i])
  {
    seq(|ps|, i requires 0 <= i < |ps| => Visit(birdX, ps[i]))
  }

  /** The pipes that are still on screen, in their original order. */
  function Cull(ps: seq<Pipe>): (qs: seq<Pipe>)
    ensures |qs| <= |ps|
  {
    if |ps| == 0 then []
    else (if OnScreen(ps[0]) then [ps[0]] else []) + Cull(ps[1..])
  }

  /** Number of positions whose `passed` flag goes from false to true. */
  function Flipped(before: seq<Pipe>, after: seq<Pipe>): (n: nat)
    requires |before| == |after|
    ensures n <= |before|
  {
    if |before| == 0 then 0
    else (if !before[0].passed && after[0].passed then 1 else 0) + Flipped(before[1..], after[1..])
  }

  /** Nothing is counted when no flag changes. */
  lemma {:induction false} FlippedNone(before: seq<Pipe>, after: seq<Pipe>)
    requires |before| == |after|
    requires forall i :: 0 <= i < |before| ==> before[i].passed == after[i].passed
    ensures Flipped(before, after) == 0
    decreases |before|
  {
    if |before| > 0 {
      assert before[0].passed == after[0].passed;
      FlippedNone(before[1..], after[1..]);
    }
  }

  /** Some pipe of the list collides with the bird. */
  predicate HitsAny(birdX: int, birdY: real, ps: seq<Pipe>) {
    exists i :: 0 <= i < |ps| && Collides(birdX, birdY, ps[i])
  }

  /** A list extended by one pipe hits the bird when the list did or the new
      pipe does. */
  lemma HitsAnySnoc(birdX: int, birdY: real, ps: seq<Pipe>, p: Pipe)
    ensures HitsAny(birdX, birdY, ps + [p]) <==> HitsAny(birdX, birdY, ps) || Collides(birdX, birdY, p)
  {
    var qs := ps + [p];
    if Collides(birdX, birdY, p) {
      assert qs[|ps|] == p;
    }
    if HitsAny(birdX, birdY, qs) {
      var j :| 0 <= j < |qs| && Collides(birdX, birdY, qs[j]);
      if j < |ps| {
        assert qs[j] == ps[j];
      }
    }
    if HitsAny(birdX, birdY, ps) {
      var j :| 0 <= j < |ps| && Collides(birdX, birdY, ps[j]);
      assert qs[j] == ps[j];
    }
  }

  /** Pipes ordered strictly left to right. */
  predicate Ordered(ps: seq<Pipe>) {
    forall i, j :: 0 <= i < j < |ps| ==> ps[i].x < ps[j].x
  }

  /** The random upper-gap edge of a new pipe: the floor of `rand` times the
      room left once a pipe body and the gap are taken from the height.
      `rand` stands for the value of the random generator, in [0, 1). */
  function SpawnY(c: Canvas, rand: real): (y: int)
    requires 0.0 <= rand < 1.0
    ensures c.height - PipeHeight - PipeGap > 0 ==> 0 <= y < c.height - PipeHeight - PipeGap
    ensures c.height - PipeHeight - PipeGap <= 0 ==> c.height - PipeHeight - PipeGap <= y <= 0
  {
    var span := c.height - PipeHeight - PipeGap;
    ScaleBounds(rand, span);
    (rand * span as real).Floor
  }

  /** The floor of a fraction in [0, 1) of `s` lies in [0, s) when `s` is
      positive and in [s, 0] otherwise. */
  lemma ScaleBounds(r: real, s: int)
    requires 0.0 <= r < 1.0
    ensures s > 0 ==> 0 <= (r * s as real).Floor < s
    ensures s <= 0 ==> s <= (r * s as real).Floor <= 0
  {
    var v := r * s as real;
    var y := v.Floor;
    assert y as real <= v < y as real + 1.0;
    if s > 0 {
      MulSign(r, s as real);
      MulSign(1.0 - r, s as real);
      assert s as real - v == (1.0 - r) * s as real;
    } else {
      var t := -(s as real);
      MulSign(r, t);
      MulSign(1.0 - r, t);
      assert v == -(r * t);
      assert v - s as real == (1.0 - r) * t;
    }
  }

  lemma MulSign(a: real, b: real)
    requires 0.0 <= a && 0.0 <= b
    ensures 0.0 <= a * b
    ensures 0.0 < a && 0.0 < b ==> 0.0 < a * b
  {
  }

  /** The pipe list with one new, not yet passed pipe at the right edge
      appended. */
  function SpawnPipe(c: Canvas, ps: seq<Pipe>, rand: real): (qs: seq<Pipe>)
    requires 0.0 <= rand < 1.0
    ensures |qs| == |ps| + 1 && qs[..|ps|] == ps
    ensures qs[|ps|].x == c.width && !qs[|ps|].passed
  {
    ps + [Pipe(c.width, SpawnY(c, rand), false)]
  }

  /** Culling distributes over concatenation: with `CullSingleton` this
      characterises `Cull` as an order-preserving filter. */
  lemma {:induction false} CullAppend(a: seq<Pipe>, b: seq<Pipe>)
    ensures Cull(a + b) == Cull(a) + Cull(b)
    decreases |a|
  {
    if |a| == 0 {
      assert a + b == b;
    } else {
      var head := if OnScreen(a[0]) then [a[0]] else [];
      assert (a + b)[0] == a[0];
      assert (a + b)[1..] == a[1..] + b;
      CullAppend(a[1..], b);
      calc {
        Cull(a + b);
        head + Cull(a[1..] + b);
        head + (Cull(a[1..]) + Cull(b));
        (head + Cull(a[1..])) + Cull(b);
        Cull(a) + Cull(b);
      }
    }
  }

  /** Culling keeps exactly the on-screen pipes: nothing on screen is
      skipped and nothing off screen survives. */
  lemma {:induction false} CullMembers(ps: seq<Pipe>)
    ensures forall p :: p in Cull(ps) <==> p in ps && OnScreen(p)
    decreases |ps|
  {
    if |ps| > 0 {
      CullMembers(ps[1..]);
      assert ps == [ps[0]] + ps[1..];
    }
  }

  lemma CullSingleton(p: Pipe)
    ensures Cull([p]) == if OnScreen(p) then [p] else []
  {
    assert [p][1..] == [];
  }

  /** Culling an ordered list leaves it ordered. */
  lemma {:induction false} CullOrdered(ps: seq<Pipe>)
    requires Ordered(ps)
    ensures Ordered(Cull(ps))
    decreases |ps|
  {
    if |ps| > 0 {
      var rest := Cull(ps[1..]);
      CullOrdered(ps[1..]);
      CullMembers(ps[1..]);
      forall q | q in rest
        ensures ps[0].x < q.x
      {
        var k :| 0 <= k < |ps[1..]| && ps[1..][k] == q;
        assert ps[k + 1] == q;
      }
    }
  }

  /** Advancing distributes over concatenation. */
  lemma AdvanceAppend(birdX: int, a: seq<Pipe>, b: seq<Pipe>)
    ensures Advance(birdX, a + b) == Advance(birdX, a) + Advance(birdX, b)
  {
  }

  /** Advancing moves every pipe by the same amount, so order is kept. */
  lemma AdvanceOrdered(birdX: int, ps: seq<Pipe>)
    requires Ordered(ps)
    ensures Ordered(Advance(birdX, ps))
  {
  }

  /** Flags flipped in a concatenation add up. */
  lemma {:induction false} FlippedAppend(a: seq<Pipe>, a': seq<Pipe>, b: seq<Pipe>, b': seq<Pipe>)
    requires |a| == |a'| && |b| == |b'|
    ensures Flipped(a + b, a' + b') == Flipped(a, a') + Flipped(b, b')
    decreases |a|
  {
    if |a| == 0 {
      assert a + b == b && a' + b' == b';
    } else {
      assert (a + b)[1..] == a[1..] + b;
      assert (a' + b')[1..] == a'[1..] + b';
      FlippedAppend(a[1..], a'[1..], b, b');
    }
  }

  /** Along one pass, a `passed` flag only goes from false to true, and only
      for a pipe the bird is now past; every flag set in the pass is counted
      by `Flipped`, which is therefore the number of pipes that `Passes`
      after moving. */
  lemma {:induction false} AdvanceScoring(birdX: int, ps: seq<Pipe>)
    ensures forall i :: 0 <= i < |ps| && ps[i].passed ==> Advance(birdX, ps)[i].passed
    ensures forall i :: 0 <= i < |ps| && !ps[i].passed && Advance(birdX, ps)[i].passed ==>
              birdX > Advance(birdX, ps)[i].x + PipeWidth
    ensures Flipped(ps, Advance(birdX, ps)) == PassCount(birdX, ps)
    decreases |ps|
  {
    if |ps| > 0 {
      assert Advance(birdX, ps)[1..] == Advance(birdX, ps[1..]);
      AdvanceScoring(birdX, ps[1..]);
    }
  }

  /** Number of pipes that the bird passes once they are moved. */
  function PassCount(birdX: int, ps: seq<Pipe>): nat
  {
    if |ps| == 0 then 0
    else (if Passes(birdX, ps[0].(x := ps[0].x - PipeSpeed)) then 1 else 0) + PassCount(birdX, ps[1..])
  }
}
