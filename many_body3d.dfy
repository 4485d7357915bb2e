/** The three-dimensional N-body simulation: the same physics as the
    two-dimensional one on three axes, in a box of size boxX, boxY, boxZ.
    The projection of the bodies onto the view plane is drawing only and
    is not modelled.

    A body's position and velocity are arrays of three reals changed in
    place, as the script's numpy arrays are; `dv`, `dist` and `force` are
    the scratch fields the pair update writes.  The radius, a cube root of
    the mass in the script, is given to the constructor, and the Euclidean
    norm is the parameter `norm`. */
module ManyBody3D {
  import Gravity

  class Body3D {
    const mass: real
    const position: array<real>
    const positionX: real
    const positionY: real
    const positionZ: real
    const velocity: array<real>
    const radius: real
    const boxX: real
    const boxY: real
    const boxZ: real
    var dv: Gravity.Vec
    var dist: real
    var force: Gravity.Vec

    ghost predicate Valid() {
      position.Length == 3 && velocity.Length == 3 && position != velocity && mass != 0.0
    }

    /** The parts set once by the constructor. */
    function Fixed(): (f: Gravity.Fixed)
      ensures f.mass == mass && f.radius == radius && f.box == [boxX, boxY, boxZ]
    {
      Gravity.Fixed(mass, radius, [boxX, boxY, boxZ])
    }

    /** The parts every tick changes. */
    ghost function Motion(): Gravity.Motion
      reads position, velocity
    {
      Gravity.Motion(position[..], velocity[..])
    }

    constructor (mass: real, position: seq<real>, velocity: seq<real>, radius: real,
                 boxX: real := 700.0, boxY: real := 700.0, boxZ: real := 700.0)
      requires mass != 0.0 && |position| == 3 && |velocity| == 3
      ensures Valid() && fresh(this.position) && fresh(this.velocity)
      ensures Motion() == Gravity.Motion(position, velocity)
      ensures Fixed() == Gravity.Fixed(mass, radius, [boxX, boxY, boxZ])
      ensures positionX == position[0] && positionY == position[1] && positionZ == position[2]
    {
      this.mass := mass;
      this.position := new real[3](i requires 0 <= i < 3 => position[i]);
      this.positionX := position[0];
      this.positionY := position[1];
      this.positionZ := position[2];
      this.velocity := new real[3](i requires 0 <= i < 3 => velocity[i]);
      this.radius := radius;
      this.boxX := boxX;
      this.boxY := boxY;
      this.boxZ := boxZ;
      new;
      assert this.position[..] == position;
      assert this.velocity[..] == velocity;
    }

    /** One axis of the wall test: the lower wall first, then the upper
        wall against the coordinate the first test may have moved. */
    method BounceAxis(k: nat, box: real)
      requires Valid() && k < 3
      modifies position, velocity
      ensures (position[k], velocity[k]) == Gravity.WallAxis(old(position[k]), old(velocity[k]), box)
      ensures forall m :: 0 <= m < 3 && m != k ==>
                position[m] == old(position[m]) && velocity[m] == old(velocity[m])
    {
      if position[k] < 5.0 {
        velocity[k] := velocity[k] * -0.9;
        position[k] := position[k] + 1.0;
      }
      if position[k] > box - 5.0 {
        velocity[k] := velocity[k] * -0.9;
        position[k] := position[k] - 1.0;
      }
    }

    /** `check_colision`: against itself nothing happens; otherwise `dv`
        is reversed and halved when the two bodies are closer than
        r1 + r2 + 5, and then the three axes are checked against the walls. */
    method CheckColision(other: Body3D)
      requires Valid()
      modifies this, position, velocity
      ensures dist == old(dist) && force == old(force)
      ensures other == this ==> dv == old(dv) && Motion() == old(Motion())
      ensures other != this ==>
                dv == (if dist < radius + other.radius + 5.0 then Gravity.Scale(-0.5, old(dv)) else old(dv)) &&
                (position[..], velocity[..]) ==
                Gravity.Walls(old(position[..]), old(velocity[..]), [boxX, boxY, boxZ])
    {
      if this == other {
        return;
      }
      if dist < radius + other.radius + 5.0 {
        dv := Gravity.Scale(-0.5, dv);
      }
      ghost var p, v := position[..], velocity[..];
      BounceAxis(0, boxX);
      BounceAxis(1, boxY);
      BounceAxis(2, boxZ);
      ghost var walls := Gravity.Walls(p, v, [boxX, boxY, boxZ]);
      assert position[..] == walls.0;
      assert velocity[..] == walls.1;
    }

    /** `self.velocity += self.dv`. */
    method AddDv()
      requires Valid() && |dv| == 3
      modifies velocity
      ensures velocity[..] == Gravity.Add(old(velocity[..]), dv)
    {
      velocity[0] := velocity[0] + dv[0];
      velocity[1] := velocity[1] + dv[1];
      velocity[2] := velocity[2] + dv[2];
    }

    /** `update_force_g_acceleration_velocity`: one pair update, as
        Gravity.PairStep describes it, with `norm` giving the distance of
        the two positions as they were on entry. */
    method UpdateForceGAccelerationVelocity(other: Body3D, norm: Gravity.Vec -> real)
      requires Valid() && other.Valid()
      modifies this, position, velocity
      ensures Motion() ==
              Gravity.PairStep(old(Motion()), Fixed(), other == this, old(other.position[..]),
                               other.Fixed(), old(norm(Gravity.Sub(position[..], other.position[..]))))
    {
      ghost var before := Motion();
      ghost var otherPos := other.position[..];
      var diff := Gravity.Sub(position[..], other.position[..]);
      ghost var d := norm(diff);
      if this == other {
        dv := [0.0, 0.0, 0.0];
        AddDv();
        assert velocity[..] == before.vel;
      } else {
        dist := norm(diff);
        dv := [0.0, 0.0, 0.0];
        if dist == 0.0 {
          // The script stores the scalar 0 here; adding it changes nothing.
          dv := [0.0, 0.0, 0.0];
          AddDv();
          assert velocity[..] == before.vel;
        } else {
          force := Gravity.Force(mass, other.mass, diff, dist);
          dv := Gravity.Accel(force, mass);
          CheckColision(other);
          assert dv == Gravity.PairDv(before, Fixed(), otherPos, other.Fixed(), d);
          ghost var walls := Gravity.Walls(before.pos, before.vel, Fixed().box);
          AddDv();
          assert Motion() == Gravity.Motion(walls.0, Gravity.Add(walls.1, dv));
        }
      }
    }

    /** `body1.position += body1.velocity`. */
    method Advance()
      requires Valid()
      modifies position
      ensures Motion() == Gravity.Advance(old(Motion()))
    {
      position[0] := position[0] + velocity[0];
      position[1] := position[1] + velocity[1];
      position[2] := position[2] + velocity[2];
    }
  }

  /** Every body is valid, and distinct list entries are distinct bodies
      whose arrays are not shared. */
  ghost predicate Separate(bodies: seq<Body3D>) {
    (forall k :: 0 <= k < |bodies| ==> bodies[k].Valid()) &&
    forall k, l :: 0 <= k < |bodies| && 0 <= l < |bodies| && k != l ==>
      bodies[k] != bodies[l] && bodies[k].position != bodies[l].position &&
      bodies[k].velocity != bodies[l].velocity && bodies[k].position != bodies[l].velocity
  }

  ghost function Motions(bodies: seq<Body3D>): (ms: seq<Gravity.Motion>)
    reads set b | b in bodies :: b.position
    reads set b | b in bodies :: b.velocity
    ensures |ms| == |bodies|
    ensures forall k :: 0 <= k < |bodies| ==> ms[k] == bodies[k].Motion()
    decreases |bodies|
  {
    if bodies == [] then []
    else Motions(bodies[..|bodies| - 1]) + [bodies[|bodies| - 1].Motion()]
  }

  function Fixeds(bodies: seq<Body3D>): (fs: seq<Gravity.Fixed>)
    ensures |fs| == |bodies|
    ensures forall k :: 0 <= k < |bodies| ==> fs[k] == bodies[k].Fixed()
  {
    seq(|bodies|, k requires 0 <= k < |bodies| => bodies[k].Fixed())
  }

  lemma SeparateWellFormed(bodies: seq<Body3D>, ms: seq<Gravity.Motion>)
    requires Separate(bodies) && |ms| == |bodies|
    requires forall k :: 0 <= k < |bodies| ==> |ms[k].pos| == 3 && |ms[k].vel| == 3
    ensures Gravity.WellFormed(ms, Fixeds(bodies))
  {
  }

  /** The inner loop of a tick: body i is updated against every body of
      the list in list order, the others standing as in `seen`. */
  method UpdateAgainstAll(bodies: seq<Body3D>, i: nat, norm: Gravity.Vec -> real,
                          ghost seen: seq<Gravity.Motion>)
    requires Separate(bodies) && i < |bodies| && Gravity.WellFormed(seen, Fixeds(bodies))
    requires forall k :: 0 <= k < |bodies| ==> bodies[k].Motion() == seen[k]
    modifies bodies[i], bodies[i].position, bodies[i].velocity
    ensures bodies[i].Motion() == Gravity.Inner(seen, Fixeds(bodies), i, |bodies|, norm)
  {
    var fs := Fixeds(bodies);
    var body1 := bodies[i];
    for j := 0 to |bodies|
      invariant body1.Motion() == Gravity.Inner(seen, fs, i, j, norm)
    {
      ghost var cur := body1.Motion();
      var body2 := bodies[j];
      if j != i {
        // Only body i's arrays change, so partner j still stands where it stood.
        assert body2 != body1;
        assert body2.position != body1.position && body2.position != body1.velocity;
        assert body2.position[..] == seen[j].pos;
      }
      assert (body2 == body1) == (i == j);
      Gravity.InnerStep(seen, fs, i, j, norm, cur, body2.position[..]);
      body1.UpdateForceGAccelerationVelocity(body2, norm);
    }
  }

  /** The body of the tick's outer loop for body i: its updates against
      every body of the list, then its move.  On entry the bodies stand as
      the first i turns of the tick from `start` left them; on exit as the
      first i + 1 turns leave them. */
  method Turn(bodies: seq<Body3D>, i: nat, norm: Gravity.Vec -> real, ghost start: seq<Gravity.Motion>)
    requires Separate(bodies) && i < |bodies| && Gravity.WellFormed(start, Fixeds(bodies))
    requires forall k :: 0 <= k < |bodies| ==> bodies[k].Motion() == Gravity.Outer(start, Fixeds(bodies), i, norm)[k]
    modifies bodies[i], bodies[i].position, bodies[i].velocity
    ensures forall k :: 0 <= k < |bodies| ==> bodies[k].Motion() == Gravity.Outer(start, Fixeds(bodies), i + 1, norm)[k]
  {
    var fs := Fixeds(bodies);
    ghost var seen := Gravity.Outer(start, fs, i, norm);
    var body1 := bodies[i];
    UpdateAgainstAll(bodies, i, norm, seen);
    body1.Advance();
    ghost var next := seen[i := Gravity.Advance(Gravity.Inner(seen, fs, i, |bodies|, norm))];
    assert Gravity.Outer(start, fs, i + 1, norm) == next;
    forall k | 0 <= k < |bodies| && k != i ensures bodies[k].Motion() == next[k] {
      assert bodies[k].position != body1.position && bodies[k].position != body1.velocity;
      assert bodies[k].velocity != body1.position && bodies[k].velocity != body1.velocity;
    }
  }

  /** One pass of the main loop without the drawing: each body in list
      order takes its turn. */
  method Tick(bodies: seq<Body3D>, norm: Gravity.Vec -> real)
    requires Separate(bodies)
    modifies set b | b in bodies
    modifies set b | b in bodies :: b.position
    modifies set b | b in bodies :: b.velocity
    ensures Gravity.WellFormed(old(Motions(bodies)), Fixeds(bodies))
    ensures Motions(bodies) == Gravity.Tick(old(Motions(bodies)), Fixeds(bodies), norm)
  {
    var n := |bodies|;
    ghost var start := Motions(bodies);
    SeparateWellFormed(bodies, start);
    for i := 0 to n
      invariant forall k :: 0 <= k < n ==> bodies[k].Motion() == Gravity.Outer(start, Fixeds(bodies), i, norm)[k]
    {
      Turn(bodies, i, norm, start);
    }
    ghost var now := Motions(bodies);
    assert now == Gravity.Outer(start, Fixeds(bodies), n, norm);
  }

  /** The main loop: ticks until T reaches 100_000. */
  method Run(bodies: seq<Body3D>, norm: Gravity.Vec -> real) returns (t: int)
    requires Separate(bodies)
    modifies set b | b in bodies
    modifies set b | b in bodies :: b.position
    modifies set b | b in bodies :: b.velocity
    ensures t == 100000
    ensures Gravity.WellFormed(old(Motions(bodies)), Fixeds(bodies))
    ensures Motions(bodies) == Gravity.Ticks(old(Motions(bodies)), Fixeds(bodies), norm, 100000)
  {
    var fs := Fixeds(bodies);
    ghost var start := Motions(bodies);
    SeparateWellFormed(bodies, start);
    t := 0;
    var flag := true;
    while flag
      invariant 0 <= t <= 100000 && flag == (t < 100000)
      invariant Motions(bodies) == Gravity.Ticks(start, fs, norm, t)
      decreases 100000 - t
    {
      ghost var before := Motions(bodies);
      t := t + 1;
      Tick(bodies, norm);
      assert Motions(bodies) == Gravity.Tick(before, fs, norm);
      assert Gravity.Ticks(start, fs, norm, t) == Gravity.Tick(before, fs, norm);
      if t == 100000 {
        flag := false;
      }
    }
  }
}
