/** Fixed geometry and physics of the game: the canvas, the bird and the pipes.
    None of these is ever reassigned, so they are constants here. */
module Config {

  // The canvas
  const CanvasWidth: int := 320
  const CanvasHeight: int := 480

  // The bird. Only its y position and its velocity change; x, size,
  // gravity and lift are fixed, so bird.x can never move.
  const BirdX: int := 50
  const BirdWidth: int := 20
  const BirdHeight: int := 20
  const StartY: real := 150.0
  const Gravity: real := 0.1
  const Lift: real := -4.0

  // The pipes and the floor
  const PipeWidth: int := 50
  const PipeGap: int := 200
  const FloorHeight: int := 60
  const ScrollSpeed: int := 2
  const SpawnInterval: int := 90

  /** Margin kept above the top segment and below the bottom one. */
  const PipeMargin: int := 20

  /** Largest top height plus one: the random draw is
      floor(random * (MaxPipeHeight - PipeMargin)) + PipeMargin. */
  const MaxPipeHeight: int := CanvasHeight - PipeGap - FloorHeight - PipeMargin

  /** The lowest y the bird may have: it then rests on the floor. */
  const FloorY: real := (CanvasHeight - FloorHeight - BirdHeight) as real

  /** The range of top heights the random draw can produce. */
  predicate ValidTop(top: int)
  {
    PipeMargin <= top < MaxPipeHeight
  }
}
