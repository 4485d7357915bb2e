/** The circle packer of the colour-blindness test generator: circles are
    dropped at random points inside a large disc and kept when they touch
    none of the circles kept so far; after 500 misses in a row the radius
    shrinks by one, and the packing stops at 3000 circles or when the
    radius reaches the minimum.

    The random point inside the disc (a square root, a cosine and a sine of
    random numbers) is not computed: each try takes the next element of a
    stream of candidates.  The recolouring from an image is left out. */
module ColorblindCircles {
  import opened Plane
  import Rng

  const ColorblindColors: seq<string> := ["#3EC907", "#65A607", "#8D8E04", "#D34107", "#A52D18"]

  datatype Circle = Circle(position: Point, radius: int, color: string)

  /** One try: where the new circle goes and the raw draw for its colour. */
  datatype Candidate = Candidate(point: Point, colorDraw: nat)

  /** `Circle.is_overlapping`: the centres are at most 2 + r1 + r2 apart. */
  predicate IsOverlapping(c: Circle, o: Circle) {
    Within(c.position, o.position, 2.0 + c.radius as real + o.radius as real)
  }

  /** The test inside `Circle.is_any_overlapping`: the centres are at most
      r1 + r2 apart, with no margin. */
  predicate Touches(c: Circle, o: Circle) {
    Within(c.position, o.position, c.radius as real + o.radius as real)
  }

  lemma TouchesSymmetric(c: Circle, o: Circle)
    ensures Touches(c, o) == Touches(o, c)
  {
    WithinSymmetric(c.position, o.position, c.radius as real + o.radius as real);
  }

  /** No two circles of the list touch. */
  ghost predicate Apart(circles: seq<Circle>) {
    forall i, j :: 0 <= i < |circles| && 0 <= j < |circles| && i != j ==>
      !Touches(circles[i], circles[j])
  }

  /** The list test of `Circle.is_any_overlapping`: the new circle
      touches the first of the list or, failing that, one of the rest. */
  predicate OverlapsAny(c: Circle, kept: seq<Circle>)
    decreases |kept|
  {
    |kept| > 0 && (Touches(c, kept[0]) || OverlapsAny(c, kept[1..]))
  }

  /** The list test holds exactly when some circle of the list is touched. */
  lemma {:induction false} OverlapsAnyMeans(c: Circle, kept: seq<Circle>)
    decreases |kept|
    ensures OverlapsAny(c, kept) <==> exists i :: 0 <= i < |kept| && Touches(c, kept[i])
  {
    if |kept| > 0 {
      OverlapsAnyMeans(c, kept[1..]);
      if !Touches(c, kept[0]) && exists i :: 0 <= i < |kept| && Touches(c, kept[i]) {
        var i :| 0 <= i < |kept| && Touches(c, kept[i]);
        assert kept[1..][i - 1] == kept[i];
      }
    }
  }

  /** `Circle.is_any_overlapping`: scans the list and returns at the first
      circle that the new one touches. */
  method IsAnyOverlapping(c: Circle, others: seq<Circle>) returns (b: bool)
    ensures b == OverlapsAny(c, others)
  {
    for i := 0 to |others|
      invariant OverlapsAny(c, others) == OverlapsAny(c, others[i..])
    {
      assert others[i..][1..] == others[i + 1..];
      if Touches(c, others[i]) {
        return true;
      }
    }
    return false;
  }

  /** A one-element list overlaps under the list test only if the pair
      test (which has the extra margin of 2) also says so. */
  lemma AnyOverlappingImpliesOverlapping(c: Circle, o: Circle)
    ensures (exists i :: 0 <= i < |[o]| && Touches(c, [o][i])) ==> IsOverlapping(c, o)
  {
    WithinGrows(c.position, o.position, c.radius as real + o.radius as real,
                2.0 + c.radius as real + o.radius as real);
  }

  /** The converse fails: two unit circles whose centres are 3 apart
      overlap under the pair test and not under the list test. */
  lemma OverlappingDoesNotImplyAny()
    ensures var c, o := Circle(Point(0.0, 0.0), 1, "a"), Circle(Point(3.0, 0.0), 1, "a");
            IsOverlapping(c, o) && !Touches(c, o)
  {
  }

  /** Appending a circle that touches none of an apart list keeps it apart. */
  lemma ApartAppend(circles: seq<Circle>, c: Circle)
    requires Apart(circles)
    requires forall k :: 0 <= k < |circles| ==> !Touches(c, circles[k])
    ensures Apart(circles + [c])
  {
    var all := circles + [c];
    forall i, j | 0 <= i < |all| && 0 <= j < |all| && i != j
      ensures !Touches(all[i], all[j])
    {
      if i == |circles| {
        assert all[j] == circles[j];
      } else if j == |circles| {
        assert all[i] == circles[i];
        TouchesSymmetric(c, circles[i]);
      } else {
        assert all[i] == circles[i] && all[j] == circles[j];
      }
    }
  }

  /** The state `main_init` carries from one try to the next. */
  datatype Packing = Packing(circles: seq<Circle>, fails: nat, radius: int)

  const Start: Packing := Packing([], 0, 7)

  /** The circle a try proposes: the current radius at the try's point. */
  function NewCircle(t: Candidate, radius: int): (c: Circle)
    ensures c.position == t.point && c.radius == radius
  {
    Circle(t.point, radius, ColorblindColors[Rng.Integers(0, 4, t.colorDraw)])
  }

  /** Its colour is one of the first four of the palette; the fifth is
      never drawn. */
  lemma NewCircleColor(t: Candidate, radius: int)
    ensures NewCircle(t, radius).color in ColorblindColors[..4]
  {
    assert NewCircle(t, radius).color == ColorblindColors[..4][Rng.Integers(0, 4, t.colorDraw)];
  }

  /** One try: the first circle is kept, a later one is kept when it
      touches none of those kept so far; a miss adds one to `fails`, a kept
      circle after the first resets it, and at 500 misses the radius
      shrinks by one and `fails` starts again from 0. */
  function Try(p: Packing, t: Candidate): Packing {
    var c := NewCircle(t, p.radius);
    var q := if p.circles == [] then Packing(p.circles + [c], p.fails, p.radius)
             else if OverlapsAny(c, p.circles) then Packing(p.circles, p.fails + 1, p.radius)
             else Packing(p.circles + [c], 0, p.radius);
    if q.fails >= 500 then Packing(q.circles, 0, q.radius - 1) else q
  }

  /** The state after the first n tries. */
  function Pack(candidates: nat -> Candidate, n: nat): Packing {
    if n == 0 then Start else Try(Pack(candidates, n - 1), candidates(n - 1))
  }

  /** The loop stops after a try that brings the count to 3000 or the
      radius down to the minimum of 1. */
  predicate Done(p: Packing) {
    |p.circles| >= 3000 || p.radius <= 1
  }

  /** After any number of tries the kept circles are pairwise apart, there
      are no more of them than tries, and the first try is kept. */
  lemma {:induction false} PackApart(candidates: nat -> Candidate, n: nat)
    ensures Apart(Pack(candidates, n).circles)
    ensures |Pack(candidates, n).circles| <= n
    ensures n > 0 ==> |Pack(candidates, n).circles| >= 1 &&
                      Pack(candidates, n).circles[0].position == candidates(0).point
  {
    if n > 0 {
      PackApart(candidates, n - 1);
      var p := Pack(candidates, n - 1);
      var c := NewCircle(candidates(n - 1), p.radius);
      var q := Pack(candidates, n);
      assert q.circles == Try(p, candidates(n - 1)).circles;
      if p.circles == [] {
        assert q.circles == [c];
      } else if OverlapsAny(c, p.circles) {
        assert q.circles == p.circles;
      } else {
        assert q.circles == p.circles + [c];
        OverlapsAnyMeans(c, p.circles);
        ApartAppend(p.circles, c);
        assert (p.circles + [c])[0] == p.circles[0];
      }
    }
  }

  /** The radii of a list never grow along it, none is above 7 or below
      the given radius, and every colour is one of the first four. */
  ghost predicate Shaped(circles: seq<Circle>, radius: int) {
    (forall i :: 0 <= i < |circles| ==>
       radius <= circles[i].radius <= 7 && circles[i].color in ColorblindColors[..4]) &&
    (forall i, j :: 0 <= i < j < |circles| ==> circles[j].radius <= circles[i].radius)
  }

  /** After any number of tries `fails` is below 500, the radius is at
      most 7, and the kept circles are shaped so, down to the current
      radius. */
  lemma {:induction false} PackShape(candidates: nat -> Candidate, n: nat)
    ensures Pack(candidates, n).fails < 500 && Pack(candidates, n).radius <= 7
    ensures Shaped(Pack(candidates, n).circles, Pack(candidates, n).radius)
  {
    if n > 0 {
      PackShape(candidates, n - 1);
      var p := Pack(candidates, n - 1);
      var c := NewCircle(candidates(n - 1), p.radius);
      NewCircleColor(candidates(n - 1), p.radius);
      var q := Pack(candidates, n);
      assert q == Try(p, candidates(n - 1));
      assert p.radius - 1 <= q.radius <= p.radius;
      if q.circles != p.circles {
        assert q.circles == p.circles + [c];
        forall i | 0 <= i < |q.circles|
          ensures q.radius <= q.circles[i].radius <= 7 &&
                  q.circles[i].color in ColorblindColors[..4]
        {
          if i < |p.circles| {
            assert q.circles[i] == p.circles[i];
          } else {
            assert q.circles[i] == c;
          }
        }
        forall i, j | 0 <= i < j < |q.circles|
          ensures q.circles[j].radius <= q.circles[i].radius
        {
          assert q.circles[i] == p.circles[i];
          if j < |p.circles| {
            assert q.circles[j] == p.circles[j];
          } else {
            assert q.circles[j] == c;
          }
        }
      }
    }
  }

  /** Every circle kept by the end of try n has at least the radius the
      state had before that try. */
  lemma PackRadiiAbove(candidates: nat -> Candidate, n: nat)
    requires n >= 1
    ensures forall i :: 0 <= i < |Pack(candidates, n).circles| ==>
              Pack(candidates, n - 1).radius <= Pack(candidates, n).circles[i].radius
  {
    PackShape(candidates, n - 1);
    var p := Pack(candidates, n - 1);
    var c := NewCircle(candidates(n - 1), p.radius);
    var q := Pack(candidates, n);
    assert q == Try(p, candidates(n - 1));
    if q.circles != p.circles {
      assert q.circles == p.circles + [c];
      forall i | 0 <= i < |q.circles|
        ensures p.radius <= q.circles[i].radius
      {
        if i < |p.circles| {
          assert q.circles[i] == p.circles[i];
        } else {
          assert q.circles[i] == c;
        }
      }
    }
  }

  /** Tries only add circles and only shrink the radius, so once the loop
      would stop it stays stopped. */
  lemma {:induction false} PackMonotone(candidates: nat -> Candidate, m: nat, n: nat)
    requires m <= n
    ensures |Pack(candidates, m).circles| <= |Pack(candidates, n).circles|
    ensures Pack(candidates, n).radius <= Pack(candidates, m).radius
    ensures Done(Pack(candidates, m)) ==> Done(Pack(candidates, n))
  {
    if m < n {
      PackMonotone(candidates, m, n - 1);
    }
  }

  /** The rule of one try, from the outside: a kept circle is appended
      with the current radius and leaves `fails` at 0; a miss adds one to
      `fails`, and the 500th miss in a row shrinks the radius by one and
      sets `fails` back to 0. */
  lemma TryRule(candidates: nat -> Candidate, n: nat, p: Packing, c: Circle)
    requires n >= 1 && p == Pack(candidates, n - 1)
    requires c == NewCircle(candidates(n - 1), p.radius)
    ensures p.fails < 500
    ensures p.circles == [] || !OverlapsAny(c, p.circles) ==>
              Pack(candidates, n) == Packing(p.circles + [c], 0, p.radius)
    ensures p.circles != [] && OverlapsAny(c, p.circles) && p.fails + 1 < 500 ==>
              Pack(candidates, n) == Packing(p.circles, p.fails + 1, p.radius)
    ensures p.circles != [] && OverlapsAny(c, p.circles) && p.fails + 1 == 500 ==>
              Pack(candidates, n) == Packing(p.circles, 0, p.radius - 1)
  {
    PackShape(candidates, n - 1);
    if n > 1 {
      PackApart(candidates, n - 2);
      PackApart(candidates, n - 1);
    }
  }

  /** If the loop did not stop at try n - 1, it did not stop at any
      earlier try either. */
  lemma NotStoppedBefore(candidates: nat -> Candidate, n: nat)
    requires n >= 1 && !Done(Pack(candidates, n - 1))
    ensures forall m :: 0 <= m < n ==> !Done(Pack(candidates, m))
  {
    forall m | 0 <= m < n
      ensures !Done(Pack(candidates, m))
    {
      PackMonotone(candidates, m, n - 1);
    }
  }

  /** What holds of the circles kept by the first try after which `Done`
      holds: between 1 and 3000 of them, the first at the first try's
      point, pairwise apart, with radii in (1, 7] that never grow along the
      list and one of the first four colours. */
  lemma Stopped(candidates: nat -> Candidate, n: nat)
    requires n >= 1 && !Done(Pack(candidates, n - 1))
    ensures 1 <= |Pack(candidates, n).circles| <= 3000
    ensures Pack(candidates, n).circles[0].position == candidates(0).point
    ensures Apart(Pack(candidates, n).circles)
    ensures forall i :: 0 <= i < |Pack(candidates, n).circles| ==>
              1 < Pack(candidates, n).circles[i].radius <= 7 &&
              Pack(candidates, n).circles[i].color in ColorblindColors[..4]
    ensures forall i, j :: 0 <= i < j < |Pack(candidates, n).circles| ==>
              Pack(candidates, n).circles[j].radius <= Pack(candidates, n).circles[i].radius
  {
    PackApart(candidates, n);
    PackShape(candidates, n);
    PackRadiiAbove(candidates, n);
    assert |Pack(candidates, n).circles| <= |Pack(candidates, n - 1).circles| + 1;
  }

  /** `main_init` (the packing part).  The loop keeps exactly the circles
      `Pack` keeps and stops at the first try after which `Done` holds:
      3000 circles, or the radius down to 1.  The `break` on a radius at the
      minimum, the last statement of the body, is written as the second
      half of the loop condition: nothing runs between the two tests.  The
      loop always terminates: each try either keeps a circle, or adds a
      miss, or (at 500 misses) shrinks the radius. */
  method MainInit(candidates: nat -> Candidate) returns (circles: seq<Circle>, tries: nat)
    ensures circles == Pack(candidates, tries).circles && Done(Pack(candidates, tries))
    ensures forall m :: 0 <= m < tries ==> !Done(Pack(candidates, m))
    ensures 1 <= |circles| <= 3000
    ensures circles[0].position == candidates(0).point
    ensures Apart(circles)
    ensures forall i :: 0 <= i < |circles| ==> 1 < circles[i].radius <= 7
    ensures forall i, j :: 0 <= i < j < |circles| ==> circles[j].radius <= circles[i].radius
    ensures forall i :: 0 <= i < |circles| ==> circles[i].color in ColorblindColors[..4]
  {
    var numberOfCircles := 3000;
    var currentRadius := 7;
    var minimumRadius := 1;
    var maxFails := 500;
    circles := [];
    var fails := 0;
    tries := 0;
    while numberOfCircles > 0 && currentRadius > minimumRadius
      invariant 0 <= numberOfCircles && |circles| + numberOfCircles == 3000
      invariant 0 <= fails < maxFails
      invariant currentRadius <= 7
      invariant tries == 0 ==> currentRadius == 7
      invariant Packing(circles, fails, currentRadius) == Pack(candidates, tries)
      invariant |circles| <= tries
      invariant tries > 0 ==> !Done(Pack(candidates, tries - 1))
      decreases numberOfCircles, currentRadius, maxFails - fails
    {
      ghost var before := Packing(circles, fails, currentRadius);
      var candidate := candidates(tries);
      tries := tries + 1;
      var newCircle := Circle(candidate.point, currentRadius,
                              ColorblindColors[Rng.Integers(0, 4, candidate.colorDraw)]);
      TryRule(candidates, tries, before, newCircle);
      if |circles| == 0 {
        circles := circles + [newCircle];
        numberOfCircles := numberOfCircles - 1;
      } else {
        var overlapping := IsAnyOverlapping(newCircle, circles);
        if overlapping {
          fails := fails + 1;
        } else {
          circles := circles + [newCircle];
          numberOfCircles := numberOfCircles - 1;
          fails := 0;
        }
      }
      if fails >= maxFails {
        currentRadius := currentRadius - 1;
        fails := 0;
      }
    }
    NotStoppedBefore(candidates, tries);
    Stopped(candidates, tries);
  }
}
