/** The physics shared by the 2D and the 3D N-body simulations, on values:
    one body's reaction to one other body (gravity, the collision damping
    and the wall bounce) and the order in which a tick applies these
    reactions and moves the bodies.

    Vectors are sequences of reals, one entry per axis.  The Euclidean
    norm `np.linalg.norm` is a parameter: `norm` in a tick, the distance
    `d` the script obtained from it in one pair update. */
module Gravity {

  type Vec = seq<real>

  /** GRAVITATIONAL_CONSTANT */
  const G: real := 0.01

  function Sub(a: Vec, b: Vec): (r: Vec)
    requires |a| == |b|
    ensures |r| == |a|
  {
    seq(|a|, i requires 0 <= i < |a| => a[i] - b[i])
  }

  function Add(a: Vec, b: Vec): (r: Vec)
    requires |a| == |b|
    ensures |r| == |a|
  {
    seq(|a|, i requires 0 <= i < |a| => a[i] + b[i])
  }

  function Scale(k: real, a: Vec): (r: Vec)
    ensures |r| == |a|
  {
    seq(|a|, i requires 0 <= i < |a| => a[i] * k)
  }

  // ---------------------------------------------------------------- bodies

  /** What changes every tick. */
  datatype Motion = Motion(pos: Vec, vel: Vec)

  /** What is set once at construction: mass, radius and the box size per axis. */
  datatype Fixed = Fixed(mass: real, radius: real, box: Vec)

  predicate Fits(m: Motion, f: Fixed) {
    |m.pos| == |f.box| && |m.vel| == |f.box| && f.mass != 0.0
  }

  /** `self.F`: (-G * m1 * m2) * (p1 - p2) / d**3. */
  function Force(m1: real, m2: real, diff: Vec, d: real): (r: Vec)
    requires d != 0.0
    ensures |r| == |diff|
  {
    seq(|diff|, i requires 0 <= i < |diff| => (-G * m1 * m2) * diff[i] / (d * d * d))
  }

  /** `self.F / self.mass`. */
  function Accel(force: Vec, m: real): (r: Vec)
    requires m != 0.0
    ensures |r| == |force|
  {
    seq(|force|, i requires 0 <= i < |force| => force[i] / m)
  }

  /** The body's own mass cancels: the change of velocity is
      -G * m2 * (p1 - p2) / d**3. */
  lemma MassCancels(m1: real, m2: real, diff: Vec, d: real)
    requires m1 != 0.0 && d != 0.0
    ensures forall i :: 0 <= i < |diff| ==>
              Accel(Force(m1, m2, diff, d), m1)[i] == -G * m2 * diff[i] / (d * d * d)
  {
    forall i | 0 <= i < |diff|
      ensures Accel(Force(m1, m2, diff, d), m1)[i] == -G * m2 * diff[i] / (d * d * d)
    {
      var cube := d * d * d;
      assert cube != 0.0 by {
        assert d * d != 0.0;
      }
      var a := -G * m2 * diff[i] / cube;
      assert a * cube == -G * m2 * diff[i];
      var f := (-G * m1 * m2) * diff[i] / cube;
      assert f * cube == m1 * (a * cube);
      assert f == m1 * a by {
        assert (f - m1 * a) * cube == 0.0;
      }
      assert f / m1 == a;
      assert Force(m1, m2, diff, d)[i] == f;
      assert Accel(Force(m1, m2, diff, d), m1)[i] == f / m1;
    }
  }

  /** Action and reaction: for the same two positions and distance,
      m1 * dv12 == -(m2 * dv21) on every axis. */
  lemma ActionReaction(m1: real, m2: real, p: Vec, q: Vec, d: real)
    requires m1 != 0.0 && m2 != 0.0 && d != 0.0 && |p| == |q|
    ensures forall i :: 0 <= i < |p| ==>
              m1 * Accel(Force(m1, m2, Sub(p, q), d), m1)[i] ==
              -(m2 * Accel(Force(m2, m1, Sub(q, p), d), m2)[i])
  {
    MassCancels(m1, m2, Sub(p, q), d);
    MassCancels(m2, m1, Sub(q, p), d);
    forall i | 0 <= i < |p|
      ensures m1 * Accel(Force(m1, m2, Sub(p, q), d), m1)[i] ==
              -(m2 * Accel(Force(m2, m1, Sub(q, p), d), m2)[i])
    {
      var x := p[i] - q[i];
      var k := G / (d * d * d);
      assert -G * m2 * x / (d * d * d) == -(k * m2 * x);
      assert -G * m1 * (q[i] - p[i]) / (d * d * d) == k * m1 * x;
      assert m1 * -(k * m2 * x) == -(m2 * (k * m1 * x));
    }
  }

  /** The change of velocity one pair contributes after the collision
      test of `check_colision`: halved and reversed when the bodies are
      closer than r1 + r2 + 5. */
  function PairDv(me: Motion, mine: Fixed, otherPos: Vec, other: Fixed, d: real): (dv: Vec)
    requires Fits(me, mine) && |otherPos| == |me.pos| && d != 0.0
    ensures |dv| == |me.pos|
  {
    var dv := Accel(Force(mine.mass, other.mass, Sub(me.pos, otherPos), d), mine.mass);
    if d < mine.radius + other.radius + 5.0 then Scale(-0.5, dv) else dv
  }

  /** The pair contribution is the inverse-square attraction towards the
      other body, reversed and halved inside the collision distance. */
  lemma PairDvLaw(me: Motion, mine: Fixed, otherPos: Vec, other: Fixed, d: real)
    requires Fits(me, mine) && |otherPos| == |me.pos| && d != 0.0
    ensures forall i :: 0 <= i < |me.pos| ==>
              PairDv(me, mine, otherPos, other, d)[i] ==
              (if d < mine.radius + other.radius + 5.0 then -0.5 else 1.0) *
              (-G * other.mass * (me.pos[i] - otherPos[i]) / (d * d * d))
  {
    MassCancels(mine.mass, other.mass, Sub(me.pos, otherPos), d);
  }

  // ---------------------------------------------------------------- walls

  /** The two wall tests of one axis, in the script's order: the second
      test sees the coordinate the first one may have moved. */
  function WallAxis(p: real, v: real, box: real): (r: (real, real))
    ensures p - 1.0 <= r.0 <= p + 1.0
    ensures r.1 == v || r.1 == -0.9 * v || r.1 == 0.81 * v
    ensures 5.0 <= p <= box - 5.0 ==> r == (p, v)
  {
    var (p1, v1) := if p < 5.0 then (p + 1.0, v * -0.9) else (p, v);
    if p1 > box - 5.0 then (p1 - 1.0, v1 * -0.9) else (p1, v1)
  }

  /** In a box at least 11 wide an axis bounces at most once per check:
      below 5 it is pushed up by 1, above box - 5 down by 1, with the
      velocity component reversed and scaled by 0.9; in between nothing
      changes. */
  lemma WallAxisCases(p: real, v: real, box: real)
    requires box >= 11.0
    ensures p < 5.0 ==> WallAxis(p, v, box) == (p + 1.0, -0.9 * v)
    ensures p > box - 5.0 ==> WallAxis(p, v, box) == (p - 1.0, -0.9 * v)
    ensures 5.0 <= p <= box - 5.0 ==> WallAxis(p, v, box) == (p, v)
  {
  }

  /** In a narrower box one check can bounce an axis twice: at 3 in a box
      of width 8 the coordinate goes to 4, which is above 8 - 5, and back. */
  lemma WallAxisNarrowBox(v: real)
    ensures WallAxis(3.0, v, 8.0) == (3.0, v * 0.81)
  {
  }

  /** The wall part of `check_colision`, independently on every axis. */
  function Walls(pos: Vec, vel: Vec, box: Vec): (r: (Vec, Vec))
    requires |pos| == |box| && |vel| == |box|
    ensures |r.0| == |pos| && |r.1| == |pos|
    ensures forall i :: 0 <= i < |pos| ==> (r.0[i], r.1[i]) == WallAxis(pos[i], vel[i], box[i])
  {
    (seq(|pos|, i requires 0 <= i < |pos| => WallAxis(pos[i], vel[i], box[i]).0),
     seq(|pos|, i requires 0 <= i < |pos| => WallAxis(pos[i], vel[i], box[i]).1))
  }

  // ---------------------------------------------------------------- one pair

  /** `update_force_g_acceleration_velocity(self, other)` on values: the
      self pair and a pair at distance 0 change nothing; otherwise the
      walls are checked and then the pair contribution is added to the
      (possibly bounced) velocity. */
  function PairStep(me: Motion, mine: Fixed, isSelf: bool, otherPos: Vec, other: Fixed,
                    d: real): (r: Motion)
    requires Fits(me, mine) && |otherPos| == |me.pos|
    ensures Fits(r, mine)
  {
    if isSelf || d == 0.0 then me
    else
      var dv := PairDv(me, mine, otherPos, other, d);
      var walls := Walls(me.pos, me.vel, mine.box);
      Motion(walls.0, Add(walls.1, dv))
  }

  /** A self pair, and a pair at distance 0, change neither position nor
      velocity and check no wall. */
  lemma PairStepInert(me: Motion, mine: Fixed, otherPos: Vec, other: Fixed, d: real)
    requires Fits(me, mine) && |otherPos| == |me.pos|
    ensures PairStep(me, mine, true, otherPos, other, d) == me
    ensures PairStep(me, mine, false, otherPos, other, 0.0) == me
  {
  }

  /** One axis of a proper pair update in a box at least 11 wide: the
      bounce acts on the old velocity component before the pair
      contribution is added, and moves the coordinate by one. */
  lemma PairStepAxis(me: Motion, mine: Fixed, otherPos: Vec, other: Fixed, d: real, i: nat)
    requires Fits(me, mine) && |otherPos| == |me.pos| && d != 0.0
    requires i < |me.pos| && mine.box[i] >= 11.0
    ensures var r := PairStep(me, mine, false, otherPos, other, d);
            var dv := PairDv(me, mine, otherPos, other, d);
            var p, v := me.pos[i], me.vel[i];
            (p < 5.0 ==> r.pos[i] == p + 1.0 && r.vel[i] == -0.9 * v + dv[i]) &&
            (p > mine.box[i] - 5.0 ==> r.pos[i] == p - 1.0 && r.vel[i] == -0.9 * v + dv[i]) &&
            (5.0 <= p <= mine.box[i] - 5.0 ==> r.pos[i] == p && r.vel[i] == v + dv[i])
  {
    WallAxisCases(me.pos[i], me.vel[i], mine.box[i]);
  }

  /** The bounce runs inside every proper pair update, so a body close to
      a wall is pushed once per partner: two partners in one tick move a
      coordinate below 4 up by 2. */
  lemma BouncesOncePerPartner(me: Motion, mine: Fixed, q1: Vec, o1: Fixed, d1: real,
                              q2: Vec, o2: Fixed, d2: real)
    requires Fits(me, mine) && |q1| == |me.pos| && |q2| == |me.pos|
    requires d1 != 0.0 && d2 != 0.0
    requires |me.pos| > 0 && mine.box[0] >= 11.0 && me.pos[0] < 4.0
    ensures PairStep(PairStep(me, mine, false, q1, o1, d1), mine, false, q2, o2, d2).pos[0] ==
            me.pos[0] + 2.0
  {
    var once := PairStep(me, mine, false, q1, o1, d1);
    PairStepAxis(me, mine, q1, o1, d1, 0);
    PairStepAxis(once, mine, q2, o2, d2, 0);
  }

  /** `position += velocity`. */
  function Advance(m: Motion): (r: Motion)
    requires |m.pos| == |m.vel|
    ensures |r.pos| == |m.pos| && r.vel == m.vel
  {
    Motion(Add(m.pos, m.vel), m.vel)
  }

  // ---------------------------------------------------------------- one tick

  /** All bodies fit their fixed part and share one dimension. */
  predicate WellFormed(ms: seq<Motion>, fs: seq<Fixed>) {
    |ms| == |fs| &&
    forall k :: 0 <= k < |ms| ==> Fits(ms[k], fs[k]) && |fs[k].box| == |fs[0].box|
  }

  /** Body `i` after its updates against bodies 0 .. j-1, the others
      standing as in `ms`.  The distance is taken from i's current
      position, which earlier wall bounces of the same tick may have moved. */
  function Inner(ms: seq<Motion>, fs: seq<Fixed>, i: nat, j: nat, norm: Vec -> real): (r: Motion)
    requires WellFormed(ms, fs) && i < |ms| && j <= |ms|
    ensures Fits(r, fs[i])
    decreases j
  {
    if j == 0 then ms[i]
    else
      var cur := Inner(ms, fs, i, j - 1, norm);
      PairStep(cur, fs[i], i == j - 1, ms[j - 1].pos, fs[j - 1],
               norm(Sub(cur.pos, ms[j - 1].pos)))
  }

  /** One more partner: body i, standing at `cur` after partners 0 .. j-1,
      is updated against partner j at `q`.  For the self pair the
      position passed does not matter. */
  lemma InnerStep(ms: seq<Motion>, fs: seq<Fixed>, i: nat, j: nat, norm: Vec -> real,
                  cur: Motion, q: Vec)
    requires WellFormed(ms, fs) && i < |ms| && j < |ms|
    requires cur == Inner(ms, fs, i, j, norm) && |q| == |cur.pos|
    requires j != i ==> q == ms[j].pos
    ensures Inner(ms, fs, i, j + 1, norm) ==
            PairStep(cur, fs[i], i == j, q, fs[j], norm(Sub(cur.pos, q)))
  {
  }

  /** The bodies after the first `i` of them have had all their pair
      updates and moved, in list order. */
  function Outer(ms: seq<Motion>, fs: seq<Fixed>, i: nat, norm: Vec -> real): (r: seq<Motion>)
    requires WellFormed(ms, fs) && i <= |ms|
    ensures WellFormed(r, fs)
    decreases i
  {
    if i == 0 then ms
    else
      var s := Outer(ms, fs, i - 1, norm);
      s[i - 1 := Advance(Inner(s, fs, i - 1, |s|, norm))]
  }

  /** One pass of the simulation's main loop. */
  function Tick(ms: seq<Motion>, fs: seq<Fixed>, norm: Vec -> real): (r: seq<Motion>)
    requires WellFormed(ms, fs)
    ensures WellFormed(r, fs)
  {
    Outer(ms, fs, |ms|, norm)
  }

  function Ticks(ms: seq<Motion>, fs: seq<Fixed>, norm: Vec -> real, t: nat): (r: seq<Motion>)
    requires WellFormed(ms, fs)
    ensures WellFormed(r, fs)
  {
    if t == 0 then ms else Tick(Ticks(ms, fs, norm, t - 1), fs, norm)
  }

  /** Outer leaves the bodies it has not reached alone. */
  lemma {:induction false} OuterUntouched(ms: seq<Motion>, fs: seq<Fixed>, i: nat, norm: Vec -> real)
    requires WellFormed(ms, fs) && i <= |ms|
    ensures forall k :: i <= k < |ms| ==> Outer(ms, fs, i, norm)[k] == ms[k]
    decreases i
  {
    if i > 0 {
      OuterUntouched(ms, fs, i - 1, norm);
    }
  }

  /** A body Outer has reached keeps the state it had right after its own
      turn. */
  lemma {:induction false} OuterSettled(ms: seq<Motion>, fs: seq<Fixed>, i: nat, norm: Vec -> real)
    requires WellFormed(ms, fs) && i <= |ms|
    ensures forall k :: 0 <= k < i ==> Outer(ms, fs, i, norm)[k] == Outer(ms, fs, k + 1, norm)[k]
    decreases i
  {
    if i > 0 {
      OuterSettled(ms, fs, i - 1, norm);
      var s := Outer(ms, fs, i - 1, norm);
      var r := Outer(ms, fs, i, norm);
      assert r == s[i - 1 := Advance(Inner(s, fs, i - 1, |s|, norm))];
      assert forall k :: 0 <= k < i - 1 ==> r[k] == s[k];
    }
  }

  /** The schedule of a tick: body i is updated against a list in which
      every earlier body already has its final state for this tick and
      every later body still has its state from before the tick, and body
      i then moves by its new velocity. */
  lemma TickSchedule(ms: seq<Motion>, fs: seq<Fixed>, norm: Vec -> real, i: nat)
    requires WellFormed(ms, fs) && i < |ms|
    ensures var seen := Outer(ms, fs, i, norm);
            Tick(ms, fs, norm)[i] == Advance(Inner(seen, fs, i, |ms|, norm)) &&
            (forall k :: 0 <= k < i ==> seen[k] == Tick(ms, fs, norm)[k]) &&
            (forall k :: i <= k < |ms| ==> seen[k] == ms[k])
  {
    OuterUntouched(ms, fs, i, norm);
    TickAt(ms, fs, norm, i);
    TickBefore(ms, fs, norm, i);
  }

  /** Body i's state after the tick is the one its own turn gave it. */
  lemma TickAt(ms: seq<Motion>, fs: seq<Fixed>, norm: Vec -> real, i: nat)
    requires WellFormed(ms, fs) && i < |ms|
    ensures Tick(ms, fs, norm)[i] == Advance(Inner(Outer(ms, fs, i, norm), fs, i, |ms|, norm))
  {
    OuterSettled(ms, fs, |ms|, norm);
    var seen := Outer(ms, fs, i, norm);
    assert Outer(ms, fs, i + 1, norm) == seen[i := Advance(Inner(seen, fs, i, |seen|, norm))];
  }

  /** The bodies before i already hold their final state when body i's
      turn begins. */
  lemma TickBefore(ms: seq<Motion>, fs: seq<Fixed>, norm: Vec -> real, i: nat)
    requires WellFormed(ms, fs) && i <= |ms|
    ensures forall k :: 0 <= k < i ==> Outer(ms, fs, i, norm)[k] == Tick(ms, fs, norm)[k]
  {
    OuterSettled(ms, fs, i, norm);
    OuterSettled(ms, fs, |ms|, norm);
  }

  /** Two bodies of mass 100 at rest at (100, 100) and (200, 100) in a
      700 by 700 box, 100 apart and outside the collision distance: after
      one tick the first is pulled towards the second by
      G * 100 * 100 / 100**2 / 100 = 0.0001 and has moved by that much. */
  lemma TwoBodyExample(r1: real, r2: real, norm: Vec -> real)
    requires r1 + r2 + 5.0 <= 100.0
    requires norm([-100.0, 0.0]) == 100.0
    ensures var ms := [Motion([100.0, 100.0], [0.0, 0.0]), Motion([200.0, 100.0], [0.0, 0.0])];
            var fs := [Fixed(100.0, r1, [700.0, 700.0]), Fixed(100.0, r2, [700.0, 700.0])];
            WellFormed(ms, fs) && Tick(ms, fs, norm)[0] == Motion([100.0001, 100.0], [0.0001, 0.0])
  {
    var ms := [Motion([100.0, 100.0], [0.0, 0.0]), Motion([200.0, 100.0], [0.0, 0.0])];
    var fs := [Fixed(100.0, r1, [700.0, 700.0]), Fixed(100.0, r2, [700.0, 700.0])];
    assert WellFormed(ms, fs);
    assert Sub(ms[0].pos, ms[1].pos) == [-100.0, 0.0];
    assert Inner(ms, fs, 0, 1, norm) == ms[0];
    var dv := PairDv(ms[0], fs[0], ms[1].pos, fs[1], 100.0);
    assert Force(100.0, 100.0, [-100.0, 0.0], 100.0) == [0.01, 0.0];
    assert dv == [0.0001, 0.0];
    var walls := Walls(ms[0].pos, ms[0].vel, fs[0].box);
    assert WallAxis(100.0, 0.0, 700.0) == (100.0, 0.0);
    assert walls.0[0] == 100.0 && walls.0[1] == 100.0;
    assert walls.1[0] == 0.0 && walls.1[1] == 0.0;
    assert walls.0 == [100.0, 100.0];
    assert walls.1 == [0.0, 0.0];
    assert Inner(ms, fs, 0, 2, norm) == Motion([100.0, 100.0], [0.0001, 0.0]);
    OuterSettled(ms, fs, 2, norm);
    assert Outer(ms, fs, 1, norm)[0] == Advance(Inner(ms, fs, 0, 2, norm));
  }
}
