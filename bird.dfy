/** The bird's vertical motion for one frame (updateBird). */
module Bird {
  import opened Config

  /** The bird after one frame of physics: its y, its velocity, and whether
      it hit the floor or the ceiling (which ends the game). */
  datatype Flight = Flight(y: real, velocity: real, crashed: bool)

  /** updateBird: gravity is added to the velocity, the velocity to y, then
      the floor clamp and the ceiling clamp are tried in that order.
      The result is characterised case by case: free flight inside the
      playfield, resting on the floor, or pinned at the ceiling. */
  function Fly(y: real, velocity: real): (f: Flight)
    ensures 0.0 <= f.y <= FloorY
    ensures f.crashed ==> f.velocity == 0.0
    ensures y + velocity + Gravity > FloorY ==> f == Flight(FloorY, 0.0, true)
    ensures y + velocity + Gravity < 0.0 ==> f == Flight(0.0, 0.0, true)
    ensures 0.0 <= y + velocity + Gravity <= FloorY ==>
              f == Flight(y + f.velocity, velocity + Gravity, false)
  {
    var v := velocity + Gravity;
    var y1 := y + v;
    var f1 := if y1 + BirdHeight as real > (CanvasHeight - FloorHeight) as real
              then Flight(FloorY, 0.0, true)
              else Flight(y1, v, false);
    if f1.y < 0.0 then Flight(0.0, 0.0, true) else f1
  }

  /** From the start position at rest, one frame falls by exactly one
      gravity step: velocity 0.1 and y 150.1. */
  lemma FirstFrameFromRest()
    ensures Fly(StartY, 0.0) == Flight(150.1, 0.1, false)
  {
  }
}
