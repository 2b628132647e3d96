/** The game object: the bird's mutable state, the pipe array, score,
    frame counter, game-over flag and space-bar latch, with the frame
    driver (gameLoop's update branch), the key handlers and resetGame. */
module FlappyGame {
  import opened Config
  import opened Bird
  import opened Pipes

  class Game {
    var birdY: real
    var velocity: real
    var pipes: seq<Pipe>
    var score: nat
    var frame: nat
    var gameOver: bool
    var spacePressed: bool

    /** The pipes pushed since the last reset; the game never reads it. It
        bounds the total of the score and the pipes still unscored. */
    ghost var spawned: nat

    /** The bird is between ceiling and floor, every pipe is well formed,
        and the score plus the number of pipes still unscored is at most
        the number of pipes pushed since the reset (a bound on the total). */
    ghost predicate Valid()
      reads this
    {
      0.0 <= birdY <= FloorY
      && (forall i :: 0 <= i < |pipes| ==> WellFormed(pipes[i]))
      && score + Unscored(pipes) <= spawned
    }

    /** The state of a new game, and of a game just reset. */
    ghost predicate AtStart()
      reads this
    {
      birdY == StartY && velocity == 0.0 && pipes == [] && score == 0 && frame == 0
      && !gameOver && !spacePressed && spawned == 0
    }

    constructor ()
      ensures Valid() && AtStart()
    {
      birdY, velocity := StartY, 0.0;
      pipes := [];
      score, frame := 0, 0;
      gameOver, spacePressed := false, false;
      spawned := 0;
    }

    /** updateBird: one frame of gravity, then the floor and ceiling clamps,
        either of which ends the game. */
    method UpdateBird()
      requires Valid()
      modifies this`birdY, this`velocity, this`gameOver
      ensures Valid()
      ensures var f := Fly(old(birdY), old(velocity));
              birdY == f.y && velocity == f.velocity && gameOver == (old(gameOver) || f.crashed)
    {
      velocity := velocity + Gravity;
      birdY := birdY + velocity;

      if birdY + BirdHeight as real > (CanvasHeight - FloorHeight) as real {
        birdY := (CanvasHeight - FloorHeight - BirdHeight) as real;
        velocity := 0.0;
        gameOver := true;
      }

      if birdY < 0.0 {
        birdY := 0.0;
        velocity := 0.0;
        gameOver := true;
      }
    }

    /** updatePipes: push a pipe every SpawnInterval frames, then run the
        forEach over the array as it stands, moving, scoring, splicing and
        collision-testing pipe by pipe. The result is the reference pass
        over the field after the spawn. */
    method UpdatePipes(topHeight: int)
      requires Valid() && ValidTop(topHeight)
      modifies this`pipes, this`score, this`gameOver, this`spawned
      ensures Valid()
      ensures var r := SweepRef(Spawned(old(pipes), frame, topHeight), birdY);
              pipes == r.pipes && score == old(score) + r.gained && gameOver == (old(gameOver) || r.hit)
      ensures spawned == old(spawned) + (if frame % SpawnInterval == 0 then 1 else 0)
    {
      if frame % SpawnInterval == 0 {
        var bottomHeight := CanvasHeight - topHeight - PipeGap - FloorHeight;
        pipes := pipes + [Pipe(CanvasWidth, topHeight, bottomHeight, false)];
        spawned := spawned + 1;
      }
      assert pipes == Spawned(old(pipes), frame, topHeight);

      ghost var start := Pass(pipes, score, gameOver);
      ghost var pushed := spawned;
      var n := |pipes|;
      var index := 0;
      while index < n
        invariant index <= n && spawned == pushed
        invariant ForEachFrom(Pass(pipes, score, gameOver), index, n, birdY) == ForEachFrom(start, 0, n, birdY)
      {
        if index < |pipes| {
          ghost var before := Pass(pipes, score, gameOver);
          VisitPipe(index);
          assert ForEachFrom(before, index, n, birdY) == ForEachFrom(Visit(before, index, birdY), index + 1, n, birdY);
        }
        index := index + 1;
      }

      UpdatePipesEffect(old(pipes), old(score), old(gameOver), frame, topHeight, birdY);
    }

    /** The forEach callback of updatePipes for the pipe at `index`: move it,
        score it once, splice it out if it has left the screen, and test the
        same pipe for an overlap with the bird even when it was spliced. */
    method VisitPipe(index: nat)
      requires index < |pipes|
      modifies this`pipes, this`score, this`gameOver
      ensures Pass(pipes, score, gameOver) == Visit(old(Pass(pipes, score, gameOver)), index, birdY)
    {
      var pipe := pipes[index];
      pipe := pipe.(x := pipe.x - ScrollSpeed);

      if !pipe.scored && InScoreWindow(pipe.x) {
        score := score + 1;
        pipe := pipe.(scored := true);
      }
      pipes := pipes[index := pipe];

      if pipe.x + PipeWidth < 0 {
        pipes := pipes[..index] + pipes[index + 1..];
      }

      if Collides(birdY, pipe) {
        gameOver := true;
      }
    }

    /** One frame of gameLoop: while the game runs, the bird moves, the
        pipes are updated (also on the frame where the bird itself crashed)
        and the frame counter advances; once the game is over nothing
        changes. The game ends only through a clamp or a pipe overlap. */
    method Step(topHeight: int)
      requires Valid() && ValidTop(topHeight)
      modifies this`birdY, this`velocity, this`pipes, this`score, this`frame, this`gameOver, this`spawned
      ensures Valid()
      ensures old(gameOver) ==> unchanged(this)
      ensures !old(gameOver) ==>
                var f := Fly(old(birdY), old(velocity));
                var field := Spawned(old(pipes), old(frame), topHeight);
                var r := SweepRef(field, f.y);
                birdY == f.y && velocity == f.velocity
                && pipes == r.pipes && score == old(score) + r.gained
                && gameOver == (f.crashed || r.hit)
                && frame == old(frame) + 1
                && spawned == old(spawned) + (if old(frame) % SpawnInterval == 0 then 1 else 0)
                && (gameOver ==> f.crashed || exists i :: 0 <= i < |field| && Collides(f.y, Advance(field[i])))
      ensures score >= old(score) && (old(gameOver) ==> gameOver)
    {
      if !gameOver {
        UpdateBird();
        UpdatePipes(topHeight);
        SweepHitOnlyByOverlap(Spawned(old(pipes), old(frame), topHeight), birdY);
        frame := frame + 1;
      }
    }

    /** resetGame: back to the start position with an empty field. */
    method Reset()
      modifies this
      ensures Valid() && AtStart()
    {
      birdY := StartY;
      velocity := 0.0;
      pipes := [];
      score := 0;
      frame := 0;
      gameOver := false;
      spacePressed := false;
      spawned := 0;
    }

    /** The keydown handler. Space jumps only when the latch is clear and
        the game runs, and then sets the latch; Space during game over
        restarts; every other key does nothing. */
    method KeyDown(code: string)
      requires Valid()
      modifies this
      ensures Valid()
      ensures code != "Space" ==> unchanged(this)
      ensures code == "Space" && !old(gameOver) && !old(spacePressed) ==>
                velocity == Lift && spacePressed
                && birdY == old(birdY) && pipes == old(pipes) && score == old(score)
                && frame == old(frame) && !gameOver && spawned == old(spawned)
      ensures code == "Space" && !old(gameOver) && old(spacePressed) ==> unchanged(this)
      ensures code == "Space" && old(gameOver) ==> AtStart()
    {
      if code == "Space" {
        if !spacePressed && !gameOver {
          velocity := Lift;
          spacePressed := true;
        } else if gameOver {
          Reset();
        }
      }
    }

    /** The keyup handler: releasing Space clears the latch. */
    method KeyUp(code: string)
      modifies this`spacePressed
      ensures spacePressed == (old(spacePressed) && code != "Space")
    {
      if code == "Space" {
        spacePressed := false;
      }
    }
  }

  /** Holding Space gives one jump: a keydown, a frame, and a second keydown
      without keyup leave the bird falling from the first jump. Only when
      that frame ended the game (a crash or a pipe overlap) does the second
      keydown restart it instead. */
  method HeldSpaceJumpsOnce(g: Game, topHeight: int)
    requires g.Valid() && !g.gameOver && !g.spacePressed && ValidTop(topHeight)
    modifies g
    ensures g.Valid()
    ensures var f := Fly(old(g.birdY), Lift);
            var r := SweepRef(Spawned(old(g.pipes), old(g.frame), topHeight), f.y);
            !f.crashed && !r.hit ==>
              g.velocity == Lift + Gravity && g.spacePressed && g.frame == old(g.frame) + 1 && !g.AtStart()
    ensures var f := Fly(old(g.birdY), Lift);
            var r := SweepRef(Spawned(old(g.pipes), old(g.frame), topHeight), f.y);
            f.crashed || r.hit ==> g.AtStart()
  {
    g.KeyDown("Space");
    g.Step(topHeight);
    g.KeyDown("Space");
  }
}
