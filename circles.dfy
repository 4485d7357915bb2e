/** The first circle packer: up to 65 circles of radius 19 dropped at
    random points inside a disc, each kept when it touches none of those
    kept so far.

    The radius is set back to 19 at the top of every try, so the shrinking
    step only ever reaches 18 and the `<= 0` exit can never fire: as written
    the loop stops only once 65 circles are kept, and may run for ever.  The
    tries are therefore a finite sequence, and the model also stops when it
    runs out of them. */
module Circles {
  import opened Plane
  import Rng

  const BasicColors: seq<string> :=
    ["white", "black", "red", "green", "blue", "cyan", "yellow", "magenta"]

  datatype Circle = Circle(position: Point, radius: int, color: string)

  /** One try: where the new circle goes and the raw draw for its colour. */
  datatype Candidate = Candidate(point: Point, colorDraw: nat)

  /** `Circle.is_overlapping`: the centres are at most r1 + r2 apart.  The
      list test `is_any_overlapping` uses the same condition per element. */
  predicate IsOverlapping(c: Circle, o: Circle) {
    Within(c.position, o.position, c.radius as real + o.radius as real)
  }

  lemma IsOverlappingSymmetric(c: Circle, o: Circle)
    ensures IsOverlapping(c, o) == IsOverlapping(o, c)
  {
    WithinSymmetric(c.position, o.position, c.radius as real + o.radius as real);
  }

  /** No two circles of the list overlap. */
  ghost predicate Apart(circles: seq<Circle>) {
    forall i, j :: 0 <= i < |circles| && 0 <= j < |circles| && i != j ==>
      !IsOverlapping(circles[i], circles[j])
  }

  /** `Circle.is_any_overlapping`: scans the list and returns at the first
      circle that the new one overlaps. */
  method IsAnyOverlapping(c: Circle, others: seq<Circle>) returns (b: bool)
    ensures b <==> exists i :: 0 <= i < |others| && IsOverlapping(c, others[i])
  {
    for i := 0 to |others|
      invariant forall k :: 0 <= k < i ==> !IsOverlapping(c, others[k])
    {
      if IsOverlapping(c, others[i]) {
        return true;
      }
    }
    return false;
  }

  lemma ApartAppend(circles: seq<Circle>, c: Circle)
    requires Apart(circles)
    requires forall k :: 0 <= k < |circles| ==> !IsOverlapping(c, circles[k])
    ensures Apart(circles + [c])
  {
    var all := circles + [c];
    forall i, j | 0 <= i < |all| && 0 <= j < |all| && i != j
      ensures !IsOverlapping(all[i], all[j])
    {
      if i == |circles| {
        assert all[j] == circles[j];
      } else if j == |circles| {
        assert all[i] == circles[i];
        IsOverlappingSymmetric(c, circles[i]);
      } else {
        assert all[i] == circles[i] && all[j] == circles[j];
      }
    }
  }

  /** The state `main_init` carries from one try to the next. */
  datatype Packing = Packing(circles: seq<Circle>, fails: nat, radius: int)

  const Start: Packing := Packing([], 0, 19)

  /** The circle a try proposes: radius 19 at the try's point. */
  function NewCircle(t: Candidate): (c: Circle)
    ensures c.position == t.point && c.radius == 19
  {
    Circle(t.point, 19, BasicColors[Rng.Integers(1, 7, t.colorDraw)])
  }

  /** Its colour is drawn from the list without its first entry, white. */
  lemma NewCircleColor(t: Candidate)
    ensures NewCircle(t).color in BasicColors[1..7] && NewCircle(t).color != "white"
  {
    assert NewCircle(t).color == BasicColors[1..7][Rng.Integers(1, 7, t.colorDraw) - 1];
  }

  predicate OverlapsAny(c: Circle, kept: seq<Circle>) {
    exists i :: 0 <= i < |kept| && IsOverlapping(c, kept[i])
  }

  /** One try: the radius is set back to 19, the first circle is kept, a
      later one is kept when it overlaps none of those kept so far; a miss
      adds one to `fails`, a kept circle after the first resets it, and
      at 500 misses or more the radius drops to 18. */
  function Try(p: Packing, t: Candidate): Packing {
    var c := NewCircle(t);
    var q := if p.circles == [] then Packing(p.circles + [c], p.fails, 19)
             else if OverlapsAny(c, p.circles) then Packing(p.circles, p.fails + 1, 19)
             else Packing(p.circles + [c], 0, 19);
    if q.fails >= 500 then q.(radius := q.radius - 1) else q
  }

  /** The state after the first n tries. */
  function Pack(tries: seq<Candidate>, n: nat): Packing
    requires n <= |tries|
  {
    if n == 0 then Start else Try(Pack(tries, n - 1), tries[n - 1])
  }

  /** After any number of tries the kept circles are pairwise apart, there
      are no more of them than tries, and the first try is kept. */
  lemma {:induction false} PackApart(tries: seq<Candidate>, n: nat)
    requires n <= |tries|
    ensures var p := Pack(tries, n);
            Apart(p.circles) && |p.circles| <= n &&
            (n > 0 ==> |p.circles| >= 1 && p.circles[0].position == tries[0].point)
  {
    if n > 0 {
      PackApart(tries, n - 1);
      var p := Pack(tries, n - 1);
      var c := NewCircle(tries[n - 1]);
      var q := Pack(tries, n);
      assert q.circles == Try(p, tries[n - 1]).circles;
      if p.circles == [] {
        assert q.circles == [c];
      } else if OverlapsAny(c, p.circles) {
        assert q.circles == p.circles;
      } else {
        assert q.circles == p.circles + [c];
        ApartAppend(p.circles, c);
        assert (p.circles + [c])[0] == p.circles[0];
      }
    }
  }

  /** Every circle has radius 19 and a colour other than white. */
  ghost predicate Shaped(circles: seq<Circle>) {
    forall i :: 0 <= i < |circles| ==>
      circles[i].radius == 19 && circles[i].color in BasicColors[1..7] &&
      circles[i].color != "white"
  }

  /** Every kept circle is shaped so. */
  lemma {:induction false} PackShape(tries: seq<Candidate>, n: nat)
    requires n <= |tries|
    ensures Shaped(Pack(tries, n).circles)
  {
    if n > 0 {
      PackShape(tries, n - 1);
      NewCircleColor(tries[n - 1]);
      var p := Pack(tries, n - 1);
      var c := NewCircle(tries[n - 1]);
      var q := Pack(tries, n);
      assert q.circles == Try(p, tries[n - 1]).circles;
      if q.circles != p.circles {
        assert q.circles == p.circles + [c];
        forall i | 0 <= i < |q.circles|
          ensures q.circles[i].radius == 19 && q.circles[i].color in BasicColors[1..7] &&
                  q.circles[i].color != "white"
        {
          if i < |p.circles| {
            assert q.circles[i] == p.circles[i];
          } else {
            assert q.circles[i] == c;
          }
        }
      }
    }
  }

  /** The kept circles are never dropped: their number only grows. */
  lemma {:induction false} PackGrows(tries: seq<Candidate>, m: nat, n: nat)
    requires m <= n <= |tries|
    ensures |Pack(tries, m).circles| <= |Pack(tries, n).circles|
  {
    if m < n {
      PackGrows(tries, m, n - 1);
    }
  }

  /** The rule of one try, from the outside: the try is kept exactly when
      the list is empty or the new circle overlaps none of it; a kept
      circle is appended and resets `fails`, a miss adds one to it; the
      radius is 18 exactly when `fails` is at least 500. */
  lemma TryRule(tries: seq<Candidate>, n: nat)
    requires 1 <= n <= |tries|
    ensures var p, q, c := Pack(tries, n - 1), Pack(tries, n), NewCircle(tries[n - 1]);
            (p.circles == [] || !OverlapsAny(c, p.circles) ==>
               q.circles == p.circles + [c] && q.fails == 0) &&
            (p.circles != [] && OverlapsAny(c, p.circles) ==>
               q.circles == p.circles && q.fails == p.fails + 1) &&
            q.radius == (if q.fails >= 500 then 18 else 19)
  {
    if n > 1 {
      PackApart(tries, n - 1);
    }
  }

  /** When every try lands on the same point only the first is kept, and
      `fails` counts every later try: the radius decrement never resets
      it. */
  lemma {:induction false} SamePointMisses(tries: seq<Candidate>, n: nat)
    requires 1 <= n <= |tries|
    requires forall k :: 0 <= k < |tries| ==> tries[k].point == tries[0].point
    ensures |Pack(tries, n).circles| == 1 && Pack(tries, n).fails == n - 1
  {
    if n > 1 {
      SamePointMisses(tries, n - 1);
      PackApart(tries, n - 1);
      PackShape(tries, n - 1);
      var p := Pack(tries, n - 1);
      var c := NewCircle(tries[n - 1]);
      assert SqDist(c.position, p.circles[0].position) == 0.0;
      assert IsOverlapping(c, p.circles[0]);
    }
  }

  /** `main_init` over a finite sequence of tries; `used` is how many it
      consumed.  The loop keeps exactly the circles `Pack` keeps and stops
      at the first try that brings the count to 65, or when the tries run
      out. */
  method MainInit(candidates: seq<Candidate>) returns (circles: seq<Circle>, used: nat)
    ensures used <= |candidates| && circles == Pack(candidates, used).circles
    ensures forall n :: 0 <= n < used ==> |Pack(candidates, n).circles| < 65
    ensures |circles| <= 65
    ensures |circles| < 65 ==> used == |candidates|
    ensures |candidates| > 0 ==> |circles| >= 1 && circles[0].position == candidates[0].point
    ensures Apart(circles)
    ensures forall i :: 0 <= i < |circles| ==> circles[i].radius == 19
    ensures forall i :: 0 <= i < |circles| ==>
              circles[i].color in BasicColors[1..7] && circles[i].color != "white"
    ensures (forall k :: 0 <= k < |candidates| ==> candidates[k].point == candidates[0].point) ==>
              |circles| <= 1
  {
    circles := [];
    var numberOfCircles := 65;
    var fails := 0;
    var currentRadius := 19;
    used := 0;
    while numberOfCircles > 0 && used < |candidates|
      invariant used <= |candidates|
      invariant |circles| + numberOfCircles == 65
      invariant Packing(circles, fails, currentRadius) == Pack(candidates, used)
      invariant currentRadius == if fails >= 500 then 18 else 19
      invariant used > 0 ==> |Pack(candidates, used - 1).circles| < 65
    {
      ghost var before := Packing(circles, fails, currentRadius);
      var candidate := candidates[used];
      used := used + 1;
      currentRadius := 19;
      var newCircle := Circle(candidate.point, currentRadius,
                              BasicColors[Rng.Integers(1, 7, candidate.colorDraw)]);
      assert newCircle == NewCircle(candidate);
      if |circles| == 0 {
        circles := circles + [newCircle];
        numberOfCircles := numberOfCircles - 1;
      } else {
        var overlapping := IsAnyOverlapping(newCircle, circles);
        if overlapping {
          fails := fails + 1;
        } else {
          circles := circles + [newCircle];
          numberOfCircles := numberOfCircles - 1;
          fails := 0;
        }
      }
      if fails >= 500 {
        currentRadius := currentRadius - 1;
      }
      assert Packing(circles, fails, currentRadius) == Try(before, candidate);
      assert Pack(candidates, used - 1) == before;
      if currentRadius <= 0 {
        assert false;
        break;
      }
    }
    forall n | 0 <= n < used
      ensures |Pack(candidates, n).circles| < 65
    {
      PackGrows(candidates, n, used - 1);
    }
    PackApart(candidates, used);
    PackShape(candidates, used);
    if used > 0 && forall k :: 0 <= k < |candidates| ==> candidates[k].point == candidates[0].point {
      SamePointMisses(candidates, used);
    }
  }
}
