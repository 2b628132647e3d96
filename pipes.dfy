/** The pipe field: spawning, the per-frame pass over the pipes (updatePipes),
    scoring and the bird-versus-pipe overlap test. */
module Pipes {
  import opened Config

  /** One pipe pair: its left edge, the height of the top segment, the
      height of the bottom segment (above the floor), and whether passing
      it has already been scored. */
  datatype Pipe = Pipe(x: int, top: int, bottom: int, scored: bool)

  /** What holds of every pipe in the field: a top the random draw can
      give, segments and gap that fill the playfield above the floor, and
      a left edge no further right than where pipes enter. */
  predicate WellFormed(p: Pipe)
  {
    ValidTop(p.top) && p.top + PipeGap + p.bottom + FloorHeight == CanvasHeight && p.x <= CanvasWidth
  }

  /** The pipe pushed by updatePipes, given the random top height. */
  function SpawnPipe(top: int): (p: Pipe)
    requires ValidTop(top)
    ensures p.x == CanvasWidth && p.top == top && !p.scored
    ensures p.top + PipeGap + p.bottom + FloorHeight == CanvasHeight
    ensures PipeMargin < p.bottom <= MaxPipeHeight
    ensures WellFormed(p)
  {
    Pipe(CanvasWidth, top, CanvasHeight - top - PipeGap - FloorHeight, false)
  }

  /** The field after the spawn step of frame `frame`: one new pipe at the
      end exactly when the frame is a multiple of the spawn interval. */
  function Spawned(pipes: seq<Pipe>, frame: nat, top: int): (r: seq<Pipe>)
    requires ValidTop(top)
    ensures |r| == |pipes| + 1 <==> frame % SpawnInterval == 0
    ensures |r| == |pipes| || |r| == |pipes| + 1
    ensures r[..|pipes|] == pipes
    ensures |r| > |pipes| ==> r[|pipes|] == SpawnPipe(top)
  {
    if frame % SpawnInterval == 0 then pipes + [SpawnPipe(top)] else pipes
  }

  /** The scoring test: the bird's x lies strictly within half a bird
      width of the centre of the pipe's gap. */
  predicate InScoreWindow(x: int)
    ensures InScoreWindow(x) <==> 15 < x < 35
  {
    BirdX > x + PipeWidth / 2 - BirdWidth / 2 && BirdX < x + PipeWidth / 2 + BirdWidth / 2
  }

  /** The overlap test between the bird (top edge at y) and a pipe: the
      horizontal spans intersect and the bird is above the gap's top or
      below the gap's bottom. */
  predicate Collides(y: real, p: Pipe)
    ensures Collides(y, p) <==>
              0 < p.x < 70 && (y < p.top as real || y > FloorY - p.bottom as real)
  {
    BirdX < p.x + PipeWidth && BirdX + BirdWidth > p.x &&
    (y < p.top as real || y + BirdHeight as real > (CanvasHeight - p.bottom - FloorHeight) as real)
  }

  /** A pipe is gone once its right edge is left of the canvas. */
  predicate OffScreen(p: Pipe)
  {
    p.x + PipeWidth < 0
  }

  /** A visited pipe: moved left by the scroll speed, then marked scored
      if it was not yet and its gap centre is now at the bird. */
  function Advance(p: Pipe): (q: Pipe)
    ensures q.x == p.x - ScrollSpeed && q.top == p.top && q.bottom == p.bottom
    ensures q.scored <==> p.scored || 15 < q.x < 35
  {
    var moved := p.(x := p.x - ScrollSpeed);
    if !moved.scored && InScoreWindow(moved.x) then moved.(scored := true) else moved
  }

  /** The points a visit of `p` adds to the score: one exactly when the
      visit turns its scored flag from false to true. */
  function Gain(p: Pipe): (g: nat)
    ensures g <= 1
    ensures g == 1 <==> !p.scored && Advance(p).scored
  {
    if !p.scored && InScoreWindow(p.x - ScrollSpeed) then 1 else 0
  }

  /** The number of pipes not yet scored. */
  function Unscored(ps: seq<Pipe>): nat
  {
    if ps == [] then 0 else (if ps[0].scored then 0 else 1) + Unscored(ps[1..])
  }

  lemma {:induction false} UnscoredAppend(ps: seq<Pipe>, p: Pipe)
    ensures Unscored(ps + [p]) == Unscored(ps) + (if p.scored then 0 else 1)
  {
    if ps != [] {
      assert (ps + [p])[1..] == ps[1..] + [p];
      UnscoredAppend(ps[1..], p);
    }
  }

  // ---------------------------------------------------------------------
  // The pass over the pipes exactly as the forEach loop runs it
  // ---------------------------------------------------------------------

  /** The state the forEach callback reads and writes. */
  datatype Pass = Pass(pipes: seq<Pipe>, score: nat, over: bool)

  /** One call of the forEach callback at index k: move the pipe and score
      it (Advance, Gain), splice it out at index k if it is now off screen,
      then test the overlap with that same pipe, removed or not. */
  function Visit(s: Pass, k: nat, y: real): (r: Pass)
    requires k < |s.pipes|
    ensures |r.pipes| == |s.pipes| - (if OffScreen(Advance(s.pipes[k])) then 1 else 0)
    ensures r.pipes == if OffScreen(Advance(s.pipes[k])) then s.pipes[..k] + s.pipes[k + 1..]
                       else s.pipes[k := Advance(s.pipes[k])]
    ensures r.score == s.score + Gain(s.pipes[k])
    ensures r.over <==> s.over || Collides(y, Advance(s.pipes[k]))
  {
    var pipe := Advance(s.pipes[k]);
    var updated := s.pipes[k := pipe];
    var pipes := if OffScreen(pipe) then updated[..k] + updated[k + 1..] else updated;
    Pass(pipes, s.score + Gain(s.pipes[k]), s.over || Collides(y, pipe))
  }

  /** forEach from index k: the length n is fixed when the loop starts,
      and an index that is no longer inside the (shrunk) array is skipped. */
  function ForEachFrom(s: Pass, k: nat, n: nat, y: real): (r: Pass)
    ensures |r.pipes| <= |s.pipes| && r.score >= s.score && (s.over ==> r.over)
    ensures k >= |s.pipes| ==> r == s
    decreases n - k
  {
    if k >= n then s
    else if k < |s.pipes| then ForEachFrom(Visit(s, k, y), k + 1, n, y)
    else ForEachFrom(s, k + 1, n, y)
  }

  // ---------------------------------------------------------------------
  // The same pass described over the original pipes, one by one
  // ---------------------------------------------------------------------

  /** What one frame does to a field `ps`: the new field, the points
      gained and whether any visited pipe overlaps the bird. */
  datatype Sweep = Sweep(pipes: seq<Pipe>, gained: nat, hit: bool)

  /** Reference description of the pass: each pipe is advanced and tested;
      when one leaves the screen, the pipe right behind it is kept
      untouched (neither moved, nor scored, nor tested) and the pass
      resumes with the pipe after that. */
  function SweepRef(ps: seq<Pipe>, y: real): (r: Sweep)
    ensures |r.pipes| <= |ps| && r.gained <= |ps|
    decreases |ps|
  {
    if ps == [] then Sweep([], 0, false)
    else
      var q := Advance(ps[0]);
      if !OffScreen(q) then
        var r := SweepRef(ps[1..], y);
        Sweep([q] + r.pipes, Gain(ps[0]) + r.gained, Collides(y, q) || r.hit)
      else if |ps| == 1 then Sweep([], Gain(ps[0]), Collides(y, q))
      else
        var r := SweepRef(ps[2..], y);
        Sweep([ps[1]] + r.pipes, Gain(ps[0]) + r.gained, Collides(y, q) || r.hit)
  }

  /** The callback at index |done| of done + rest visits rest[0]: it leaves
      done alone, replaces rest[0] by its advanced self or splices it
      out, and adds its gain and its overlap. */
  lemma VisitFirstOfRest(done: seq<Pipe>, rest: seq<Pipe>, score: nat, over: bool, y: real)
    requires rest != []
    ensures var q := Advance(rest[0]);
            Visit(Pass(done + rest, score, over), |done|, y)
            == Pass(if OffScreen(q) then done + rest[1..] else done + [q] + rest[1..],
                    score + Gain(rest[0]), over || Collides(y, q))
    ensures OffScreen(Advance(rest[0])) && |rest| >= 2 ==>
              Visit(Pass(done + rest, score, over), |done|, y).pipes == done + [rest[1]] + rest[2..]
  {
    var k := |done|;
    var q := Advance(rest[0]);
    assert (done + rest)[k] == rest[0];
    var updated := (done + rest)[k := q];
    assert updated == done + [q] + rest[1..];
    assert updated[..k] == done;
    assert updated[k + 1..] == rest[1..];
    if |rest| >= 2 {
      assert rest[1..] == [rest[1]] + rest[2..];
    }
  }

  /** The loop, started at index |done| over done + rest, leaves done alone
      and does to rest what the reference pass describes. */
  lemma {:induction false} ForEachIsSweep(s: Pass, done: seq<Pipe>, rest: seq<Pipe>, n: nat, y: real)
    requires s.pipes == done + rest && |done| + |rest| <= n
    ensures var r := SweepRef(rest, y);
            ForEachFrom(s, |done|, n, y) == Pass(done + r.pipes, s.score + r.gained, s.over || r.hit)
    decreases |rest|, 1
  {
    if rest == [] {
      assert s.pipes == done;
    } else {
      VisitFirstOfRest(done, rest, s.score, s.over, y);
      assert s == Pass(done + rest, s.score, s.over);
      var v := Visit(s, |done|, y);
      assert ForEachFrom(s, |done|, n, y) == ForEachFrom(v, |done| + 1, n, y);
      var q := Advance(rest[0]);
      if !OffScreen(q) {
        ForEachKeeps(done, rest, v, n, y);
      } else if |rest| == 1 {
        assert v == Pass(done, s.score + Gain(rest[0]), s.over || Collides(y, q));
        assert ForEachFrom(v, |done| + 1, n, y) == v;
        assert SweepRef(rest, y) == Sweep([], Gain(rest[0]), Collides(y, q));
        assert done + [] == done;
      } else {
        ForEachSkips(done, rest, v, n, y);
      }
    }
  }

  /** The case of ForEachIsSweep where the visited pipe stays on screen. */
  lemma {:induction false} ForEachKeeps(done: seq<Pipe>, rest: seq<Pipe>, v: Pass, n: nat, y: real)
    requires |done| + |rest| <= n && rest != [] && !OffScreen(Advance(rest[0]))
    requires v.pipes == done + [Advance(rest[0])] + rest[1..]
    ensures var r := SweepRef(rest[1..], y);
            ForEachFrom(v, |done| + 1, n, y)
            == Pass(done + ([Advance(rest[0])] + r.pipes), v.score + r.gained, v.over || r.hit)
    decreases |rest|, 0
  {
    var q := Advance(rest[0]);
    var r := SweepRef(rest[1..], y);
    var done' := done + [q];
    assert |done'| == |done| + 1;
    ForEachIsSweep(v, done', rest[1..], n, y);
    assert done' + r.pipes == done + ([q] + r.pipes);
  }

  /** The case of ForEachIsSweep where the visited pipe is spliced out and
      another pipe follows it. */
  lemma {:induction false} ForEachSkips(done: seq<Pipe>, rest: seq<Pipe>, v: Pass, n: nat, y: real)
    requires |done| + |rest| <= n && |rest| >= 2
    requires v.pipes == done + [rest[1]] + rest[2..]
    ensures var r := SweepRef(rest[2..], y);
            ForEachFrom(v, |done| + 1, n, y)
            == Pass(done + ([rest[1]] + r.pipes), v.score + r.gained, v.over || r.hit)
    decreases |rest|, 0
  {
    var r := SweepRef(rest[2..], y);
    var done' := done + [rest[1]];
    ForEachIsSweep(v, done', rest[2..], n, y);
    assert done' + r.pipes == done + ([rest[1]] + r.pipes);
  }

  /** The whole updatePipes loop over a field ps agrees with the reference
      pass: new field, score plus the points gained, game over or a hit. */
  lemma ForEachMatchesSweep(ps: seq<Pipe>, score: nat, over: bool, y: real)
    ensures var r := SweepRef(ps, y);
            ForEachFrom(Pass(ps, score, over), 0, |ps|, y)
            == Pass(r.pipes, score + r.gained, over || r.hit)
  {
    assert Pass(ps, score, over).pipes == [] + ps;
    ForEachIsSweep(Pass(ps, score, over), [], ps, |ps|, y);
    assert [] + SweepRef(ps, y).pipes == SweepRef(ps, y).pipes;
  }

  /** Splicing out the pipe at index |done| makes the loop skip the pipe
      that was right behind it: that pipe ends up at the removed pipe's
      index unchanged, and the score and the game-over flag are what the
      removed pipe and the pipes after the skipped one make them. */
  lemma SpliceSkipsNext(done: seq<Pipe>, rest: seq<Pipe>, score: nat, over: bool, y: real)
    requires |rest| >= 2 && OffScreen(Advance(rest[0]))
    ensures var r := ForEachFrom(Pass(done + rest, score, over), |done|, |done| + |rest|, y);
            var tail := SweepRef(rest[2..], y);
            |r.pipes| > |done| && r.pipes[..|done| + 1] == done + [rest[1]]
            && r.score == score + Gain(rest[0]) + tail.gained
            && r.over == (over || Collides(y, Advance(rest[0])) || tail.hit)
  {
    ForEachIsSweep(Pass(done + rest, score, over), done, rest, |done| + |rest|, y);
    var tail := SweepRef(rest[2..], y);
    assert SweepRef(rest, y).pipes == [rest[1]] + tail.pipes;
    assert (done + ([rest[1]] + tail.pipes))[..|done| + 1] == done + [rest[1]];
  }

  // ---------------------------------------------------------------------
  // Properties of the pass
  // ---------------------------------------------------------------------

  /** q is what a pass can make of p: same segments, moved left by the
      scroll speed or not at all, and a scored flag that stays set. */
  predicate Descends(p: Pipe, q: Pipe)
  {
    q.top == p.top && q.bottom == p.bottom && (q.x == p.x - ScrollSpeed || q.x == p.x) &&
    (p.scored ==> q.scored)
  }

  /** qs keeps the order of ps: each pipe of ps either descends into the
      next pipe of qs or is dropped, and only a pipe that a visit moves
      off screen can be dropped. */
  predicate Embeds(ps: seq<Pipe>, qs: seq<Pipe>)
    decreases |ps|
  {
    if ps == [] then qs == []
    else
      || (qs != [] && Descends(ps[0], qs[0]) && Embeds(ps[1..], qs[1..]))
      || (OffScreen(Advance(ps[0])) && Embeds(ps[1..], qs))
  }

  /** The pass only moves, scores and removes pipes, in order. */
  lemma {:induction false} SweepEmbeds(ps: seq<Pipe>, y: real)
    ensures Embeds(ps, SweepRef(ps, y).pipes)
    decreases |ps|
  {
    if ps != [] {
      var q := Advance(ps[0]);
      var r := SweepRef(ps, y);
      if !OffScreen(q) {
        SweepEmbeds(ps[1..], y);
        assert r.pipes[1..] == SweepRef(ps[1..], y).pipes;
      } else if |ps| == 1 {
        assert Embeds(ps[1..], []);
      } else {
        SweepEmbeds(ps[2..], y);
        assert ps[1..][1..] == ps[2..];
        assert r.pipes[1..] == SweepRef(ps[2..], y).pipes;
        assert Embeds(ps[1..], r.pipes);
      }
    }
  }

  /** Embedding keeps every pipe well formed and never adds pipes. */
  lemma {:induction false} EmbedsKeepsWellFormed(ps: seq<Pipe>, qs: seq<Pipe>)
    requires Embeds(ps, qs)
    requires forall i :: 0 <= i < |ps| ==> WellFormed(ps[i])
    ensures forall j :: 0 <= j < |qs| ==> WellFormed(qs[j])
    ensures |qs| <= |ps|
    decreases |ps|
  {
    if ps != [] {
      if qs != [] && Descends(ps[0], qs[0]) && Embeds(ps[1..], qs[1..]) {
        EmbedsKeepsWellFormed(ps[1..], qs[1..]);
        assert forall j :: 1 <= j < |qs| ==> qs[j] == qs[1..][j - 1];
      } else {
        EmbedsKeepsWellFormed(ps[1..], qs);
      }
    }
  }

  /** Scoring only spends unscored pipes: the points gained plus the
      unscored pipes left never exceed the unscored pipes before. */
  lemma {:induction false} SweepScoreConserved(ps: seq<Pipe>, y: real)
    ensures SweepRef(ps, y).gained + Unscored(SweepRef(ps, y).pipes) <= Unscored(ps)
    decreases |ps|
  {
    if ps != [] {
      var q := Advance(ps[0]);
      var r := SweepRef(ps, y);
      if !OffScreen(q) {
        SweepScoreConserved(ps[1..], y);
        assert r.pipes[1..] == SweepRef(ps[1..], y).pipes;
      } else if |ps| == 1 {
      } else {
        SweepScoreConserved(ps[2..], y);
        assert ps[1..][1..] == ps[2..];
        assert r.pipes[1..] == SweepRef(ps[2..], y).pipes;
      }
    }
  }

  /** The spawn step keeps every pipe well formed and adds one unscored
      pipe exactly when it pushes one. */
  lemma SpawnedKeepsField(pipes: seq<Pipe>, frame: nat, top: int)
    requires ValidTop(top)
    requires forall i :: 0 <= i < |pipes| ==> WellFormed(pipes[i])
    ensures var ps := Spawned(pipes, frame, top);
            (forall i :: 0 <= i < |ps| ==> WellFormed(ps[i]))
            && Unscored(ps) == Unscored(pipes) + (if frame % SpawnInterval == 0 then 1 else 0)
  {
    if frame % SpawnInterval == 0 {
      UnscoredAppend(pipes, SpawnPipe(top));
    }
  }

  /** updatePipes as a whole: the loop over the field after the spawn step
      is the reference pass, keeps every pipe well formed, and pays points
      only out of unscored pipes, the new one included. */
  lemma UpdatePipesEffect(pipes: seq<Pipe>, score: nat, over: bool, frame: nat, top: int, y: real)
    requires ValidTop(top)
    requires forall i :: 0 <= i < |pipes| ==> WellFormed(pipes[i])
    ensures var ps := Spawned(pipes, frame, top);
            var r := SweepRef(ps, y);
            ForEachFrom(Pass(ps, score, over), 0, |ps|, y) == Pass(r.pipes, score + r.gained, over || r.hit)
            && (forall j :: 0 <= j < |r.pipes| ==> WellFormed(r.pipes[j]))
            && r.gained + Unscored(r.pipes) <= Unscored(pipes) + (if frame % SpawnInterval == 0 then 1 else 0)
  {
    var ps := Spawned(pipes, frame, top);
    SpawnedKeepsField(pipes, frame, top);
    ForEachMatchesSweep(ps, score, over, y);
    SweepEmbeds(ps, y);
    EmbedsKeepsWellFormed(ps, SweepRef(ps, y).pipes);
    SweepScoreConserved(ps, y);
  }

  /** A hit can only come from a pipe that overlaps the bird after being
      moved; the first pipe is always visited, so its overlap is a hit. */
  lemma {:induction false} SweepHitOnlyByOverlap(ps: seq<Pipe>, y: real)
    ensures SweepRef(ps, y).hit ==> exists i :: 0 <= i < |ps| && Collides(y, Advance(ps[i]))
    ensures |ps| > 0 && Collides(y, Advance(ps[0])) ==> SweepRef(ps, y).hit
    decreases |ps|
  {
    if ps != [] && SweepRef(ps, y).hit && !Collides(y, Advance(ps[0])) {
      if !OffScreen(Advance(ps[0])) {
        SweepHitOnlyByOverlap(ps[1..], y);
        var i :| 0 <= i < |ps[1..]| && Collides(y, Advance(ps[1..][i]));
        assert ps[i + 1] == ps[1..][i];
      } else {
        SweepHitOnlyByOverlap(ps[2..], y);
        var i :| 0 <= i < |ps[2..]| && Collides(y, Advance(ps[2..][i]));
        assert ps[i + 2] == ps[2..][i];
      }
    }
  }

  /** The points all of ps would gain if every pipe were visited. */
  function TotalGain(ps: seq<Pipe>): nat
  {
    if ps == [] then 0 else Gain(ps[0]) + TotalGain(ps[1..])
  }

  /** When no pipe leaves the screen, every pipe is visited: each moves
      left by exactly the scroll speed and is scored if it reaches the
      bird, the points are those of all the pipes, and the frame is a hit
      exactly when some moved pipe overlaps the bird. */
  lemma {:induction false} SweepNoRemoval(ps: seq<Pipe>, y: real)
    requires forall i :: 0 <= i < |ps| ==> !OffScreen(Advance(ps[i]))
    ensures var r := SweepRef(ps, y);
            |r.pipes| == |ps| && (forall i :: 0 <= i < |ps| ==> r.pipes[i] == Advance(ps[i]))
            && r.gained == TotalGain(ps)
            && (r.hit <==> exists i :: 0 <= i < |ps| && Collides(y, Advance(ps[i])))
    decreases |ps|
  {
    if ps != [] {
      var r := SweepRef(ps, y);
      var t := ps[1..];
      assert forall i :: 0 <= i < |t| ==> t[i] == ps[i + 1];
      SweepNoRemoval(t, y);
      var rt := SweepRef(t, y);
      assert r.pipes == [Advance(ps[0])] + rt.pipes;
      forall i | 1 <= i < |ps|
        ensures r.pipes[i] == Advance(ps[i])
      {
        assert r.pipes[i] == rt.pipes[i - 1];
      }
      if r.hit && !Collides(y, Advance(ps[0])) {
        var i :| 0 <= i < |t| && Collides(y, Advance(t[i]));
        assert Collides(y, Advance(ps[i + 1]));
      }
      if (exists i :: 0 <= i < |ps| && Collides(y, Advance(ps[i]))) && !Collides(y, Advance(ps[0])) {
        var i :| 0 <= i < |ps| && Collides(y, Advance(ps[i]));
        assert i > 0 && Collides(y, Advance(t[i - 1]));
      }
    }
  }

  // ---------------------------------------------------------------------
  // The life of one pipe
  // ---------------------------------------------------------------------

  /** A pipe after t visits. */
  function Aged(p: Pipe, t: nat): Pipe
  {
    if t == 0 then p else Advance(Aged(p, t - 1))
  }

  /** Each visit moves the pipe by the scroll speed and keeps its segments. */
  lemma {:induction false} AgedMoves(p: Pipe, t: nat)
    ensures Aged(p, t).x == p.x - ScrollSpeed * t
    ensures Aged(p, t).top == p.top && Aged(p, t).bottom == p.bottom
  {
    if t > 0 {
      AgedMoves(p, t - 1);
    }
  }

  /** A freshly spawned pipe visited every frame scores on exactly one
      visit, its 143rd (when its left edge reaches 34), stays scored from
      then on, and is first off screen after its 186th visit. */
  lemma {:induction false} SpawnedPipeLife(top: int, t: nat)
    requires ValidTop(top)
    ensures Aged(SpawnPipe(top), t).scored <==> t >= 143
    ensures Gain(Aged(SpawnPipe(top), t)) == (if t == 142 then 1 else 0)
    ensures OffScreen(Aged(SpawnPipe(top), t)) <==> t >= 186
  {
    AgedMoves(SpawnPipe(top), t);
    if t > 0 {
      SpawnedPipeLife(top, t - 1);
      AgedMoves(SpawnPipe(top), t - 1);
    }
  }
}
