/** The spawn countdown. A running tick that finds it at zero spawns a pipe
    and sets it back to `SpawnRate`; any other running tick lowers it by one.
    A full cycle therefore lasts `SpawnRate + 1` ticks.
 */
module SpawnTimer {
  import opened World

  /** True when a running tick with this countdown value spawns a pipe. */
  predicate SpawnsNow(t: int) {
    t == 0
  }

  /** The countdown after one running tick. */
  function Next(t: int): (t': int)
    ensures 0 <= t <= SpawnRate ==> 0 <= t' <= SpawnRate
    ensures SpawnsNow(t) ==> t' == SpawnRate
    ensures !SpawnsNow(t) ==> t' == t - 1
  {
    if t == 0 then SpawnRate else t - 1
  }

  /** Number of spawns during `n` running ticks that start with countdown `t`. */
  function Spawns(t: int, n: nat): nat
    decreases n
  {
    if n == 0 then 0
    else (if SpawnsNow(t) then 1 else 0) + Spawns(Next(t), n - 1)
  }

  /** Closed form of the spawn count: from countdown `t`, the first spawn
      comes on tick `t + 1` and then one every `SpawnRate + 1` ticks. */
  lemma {:induction false} SpawnsClosedForm(t: int, n: nat)
    requires 0 <= t <= SpawnRate
    ensures Spawns(t, n) == (n - t + SpawnRate) / (SpawnRate + 1)
    decreases n
  {
    if n > 0 {
      SpawnsClosedForm(Next(t), n - 1);
      if t == 0 {
        var a := n - 1;
        assert (a + SpawnRate + 1) / (SpawnRate + 1) == a / (SpawnRate + 1) + 1;
      }
    }
  }

  /** From a fresh countdown of zero the game spawns on ticks 1, 202, 403, ...:
      after `n` ticks it has spawned ceil(n / 201) pipes. */
  lemma SpawnPeriod(n: nat)
    ensures Spawns(0, n) == (n + SpawnRate) / (SpawnRate + 1)
    ensures n > 0 ==> Spawns(0, n) >= 1
    ensures Spawns(0, n * (SpawnRate + 1)) == n
  {
    SpawnsClosedForm(0, n);
    SpawnsClosedForm(0, n * (SpawnRate + 1));
    assert (n * (SpawnRate + 1) + SpawnRate) / (SpawnRate + 1) == n;
  }
}
