/** Fixed constants of the game world and the dimensions of the play area.

    Positions are in canvas pixels, with y growing downwards. The bird's
    vertical position and velocity take half-pixel values (gravity is 0.5),
    so they are `real`; every other quantity is an integer.
 */
module World {

  /** Horizontal position of the bird's left edge; only a restart assigns it. */
  const BirdStartX: int := 50
  /** Size of the bird's bounding box. */
  const BirdWidth: int := 30
  const BirdHeight: int := 20

  /** Added to the vertical velocity on every running tick. */
  const Gravity: real := 0.5
  /** The vertical velocity a jump sets (upwards, so negative). */
  const JumpHeight: real := -10.0

  /** A pipe is two bodies around a gap: the upper body ends at the pipe's
      `y`, the lower one starts at `y + PipeHeight + PipeGap`. */
  const PipeGap: int := 30
  const PipeWidth: int := 80
  const PipeHeight: int := 300
  /** Leftward movement of every pipe per tick. */
  const PipeSpeed: int := 2
  /** Value the spawn countdown is reset to after a spawn. */
  const SpawnRate: int := 200

  /** The canvas the game is played on (its dimensions are fixed). */
  datatype Canvas = Canvas(width: nat, height: nat)
}
