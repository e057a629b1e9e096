/** The move-robot motion: fixed steps towards a target, over the reals.  A square root is given by
    its witness: `IsDistance(d, p, t)` says that d is the distance, and there is only one such d.
    Only the first distance of a goal has to be given; all later ones are proved. */
module Motion {

  const STEP := 0.01
  const TOLERANCE := 0.1
  const TOO_CLOSE := 0.001

  datatype Point = Point(x: real, y: real)

  datatype Feedback = Feedback(at: Point, remaining: real)

  predicate IsDistance(d: real, p: Point, t: Point) {
    d >= 0.0 && d * d == (t.x - p.x) * (t.x - p.x) + (t.y - p.y) * (t.y - p.y)
  }

  lemma PositiveProduct(a: real, b: real, c: real)
    requires a > 0.0 && b > 0.0 && c == a * b
    ensures c > 0.0
  {
  }

  lemma SquareGrows(a: real, b: real)
    requires 0.0 <= a < b
    ensures a * a < b * b
  {
    PositiveProduct(b - a, b + a, b * b - a * a);
  }

  lemma DistanceIsUnique(d: real, e: real, p: Point, t: Point)
    requires IsDistance(d, p, t) && IsDistance(e, p, t)
    ensures d == e
  {
    assert !(d < e) by { if d < e { SquareGrows(d, e); } }
    assert !(e < d) by { if e < d { SquareGrows(e, d); } }
  }

  /** calculate_next_position, given the distance that it computes. */
  function NextPosition(p: Point, t: Point, d: real, step: real): Point
    requires IsDistance(d, p, t)
  {
    if d < TOO_CLOSE then p
    else Point(p.x + ((t.x - p.x) / d) * step, p.y + ((t.y - p.y) / d) * step)
  }

  /** is_goal_reached with its default tolerance. */
  predicate Reached(d: real) {
    d < TOLERANCE
  }

  /** The number of moves from distance d: floor((d - 0.1) / 0.01) + 1, or none. */
  function Moves(d: real): nat {
    if d < TOLERANCE then 0 else ((d - TOLERANCE) / STEP).Floor + 1
  }

  lemma MovesStep(d: real)
    requires d >= TOLERANCE
    ensures Moves(d) == Moves(d - STEP) + 1
  {
    var q := (d - TOLERANCE) / STEP;
    assert (d - STEP - TOLERANCE) / STEP == q - 1.0;
    if d - STEP < TOLERANCE {
      assert q < 1.0;
    } else {
      FloorMinusOne(q);
    }
  }

  lemma FloorMinusOne(q: real)
    ensures (q - 1.0).Floor == q.Floor - 1
  {
  }

  // ----- One move -----

  /** A scaled component: with u = c / d, the part of c that is left after a step is u * (d - step). */
  lemma Scaled(c: real, d: real, step: real)
    requires d > 0.0
    ensures c - (c / d) * step == (c / d) * (d - step)
    ensures (c / d) * d == c
  {
    var u := c / d;
    assert u * d == c;
    assert u * (d - step) == u * d - u * step;
  }

  lemma SquareOfProduct(a: real, b: real, c: real)
    requires c == a * b
    ensures c * c == (a * a) * (b * b)
  {
    assert c * c == (a * b) * (a * b);
    assert (a * b) * (a * b) == (a * a) * (b * b);
  }

  lemma CancelFactor(a: real, b: real, c: real)
    requires c > 0.0 && a * c == b * c
    ensures a == b
  {
    assert (a - b) * c == 0.0;
    if a > b {
      PositiveProduct(a - b, c, (a - b) * c);
    } else if b > a {
      PositiveProduct(b - a, c, (b - a) * c);
    }
  }

  lemma SumIsOne(uu: real, vv: real, dd: real, a: real, b: real)
    requires dd > 0.0 && a == uu * dd && b == vv * dd && a + b == dd
    ensures uu + vv == 1.0
  {
    Factor(uu, vv, dd);
    CancelFactor(uu + vv, 1.0, dd);
  }

  lemma SquarePositive(d: real) returns (dd: real)
    requires d > 0.0
    ensures dd == d * d && dd > 0.0
  {
    dd := d * d;
    PositiveProduct(d, d, dd);
  }

  /** The direction (dx / d, dy / d) has length one. */
  lemma UnitLength(u: real, v: real, d: real, dd: real, dx: real, dy: real)
    requires dd == d * d && dd > 0.0 && dx == u * d && dy == v * d && dx * dx + dy * dy == dd
    ensures u * u + v * v == 1.0
  {
    SquareOfProduct(u, d, dx);
    SquareOfProduct(v, d, dy);
    SumIsOne(u * u, v * v, dd, dx * dx, dy * dy);
  }

  lemma Factor(a: real, b: real, c: real)
    ensures a * c + b * c == (a + b) * c
  {
  }

  lemma SquareOfUnit(u: real, v: real, r: real, a: real, b: real)
    requires u * u + v * v == 1.0 && a == u * r && b == v * r
    ensures a * a + b * b == r * r
  {
    SquareOfProduct(u, r, a);
    SquareOfProduct(v, r, b);
    Factor(u * u, v * v, r * r);
  }

  /** A component after a move. */
  lemma MovedComponent(c: real, tc: real, d: real)
    requires d > 0.0
    ensures tc - (c + ((tc - c) / d) * STEP) == ((tc - c) / d) * (d - STEP)
    ensures ((tc - c) / d) * d == tc - c
  {
    Scaled(tc - c, d, STEP);
  }

  /** The distance after one call of calculate_next_position with the step of the server: nothing
      moves below 0.001, and a target nearer than a step is overshot. */
  function NextDistance(d: real): real {
    if d < TOO_CLOSE then d else if d < STEP then STEP - d else d - STEP
  }

  lemma MoveDistance(p: Point, t: Point, d: real)
    requires IsDistance(d, p, t)
    ensures IsDistance(NextDistance(d), NextPosition(p, t, d, STEP), t)
  {
    if d >= TOO_CLOSE {
      var u, v := (t.x - p.x) / d, (t.y - p.y) / d;
      var dd := SquarePositive(d);
      MovedComponent(p.x, t.x, d);
      MovedComponent(p.y, t.y, d);
      UnitLength(u, v, d, dd, t.x - p.x, t.y - p.y);
      var q := NextPosition(p, t, d, STEP);
      SquareOfUnit(u, v, d - STEP, t.x - q.x, t.y - q.y);
      assert (d - STEP) * (d - STEP) == (STEP - d) * (STEP - d);
    }
  }

  /** A move is exactly one step long, also when it overshoots; below 0.001 there is none.  With
      `MoveDistance` this leaves one point only: the one on the line to the target. */
  lemma MoveLength(p: Point, t: Point, d: real)
    requires IsDistance(d, p, t)
    ensures d >= TOO_CLOSE ==> IsDistance(STEP, p, NextPosition(p, t, d, STEP))
    ensures d < TOO_CLOSE ==> NextPosition(p, t, d, STEP) == p
  {
    if d >= TOO_CLOSE {
      var u, v := (t.x - p.x) / d, (t.y - p.y) / d;
      var dd := SquarePositive(d);
      MovedComponent(p.x, t.x, d);
      MovedComponent(p.y, t.y, d);
      UnitLength(u, v, d, dd, t.x - p.x, t.y - p.y);
      var q := NextPosition(p, t, d, STEP);
      SquareOfUnit(u, v, STEP, q.x - p.x, q.y - p.y);
    }
  }

  /** The position after k moves, one move after the other. */
  function PathAt(p: Point, t: Point, d: real, k: nat): Point
    requires IsDistance(d, p, t) && k <= Moves(d)
    decreases k
  {
    if k == 0 then p
    else
      MoveShortens(p, t, d);
      MovesStep(d);
      PathAt(NextPosition(p, t, d, STEP), t, d - STEP, k - 1)
  }

  /** A move keeps the direction to the target. */
  lemma SameDirection(c: real, tc: real, d: real)
    requires d > STEP
    ensures var c' := c + ((tc - c) / d) * STEP; (tc - c') / (d - STEP) == (tc - c) / d
  {
    var c', u := c + ((tc - c) / d) * STEP, (tc - c) / d;
    MovedComponent(c, tc, d);
    QuotientOf(tc - c', d - STEP, u);
  }

  lemma QuotientOf(a: real, b: real, u: real)
    requires b > 0.0 && a == u * b
    ensures a / b == u
  {
    var q := a / b;
    assert q * b == a;
    CancelFactor(q, u, b);
  }

  /** A component after k steps along the direction to the target. */
  function Along(c: real, tc: real, d: real, k: nat): real
    requires d > 0.0
  {
    c + ((tc - c) / d) * (k as real * STEP)
  }

  lemma AlongNext(c: real, tc: real, d: real, k: nat)
    requires d > STEP && k > 0
    ensures Along(c + ((tc - c) / d) * STEP, tc, d - STEP, k - 1) == Along(c, tc, d, k)
  {
    SameDirection(c, tc, d);
    assert (k - 1) as real == k as real - 1.0;
    assert ((tc - c) / d) * STEP + ((tc - c) / d) * ((k - 1) as real * STEP) == ((tc - c) / d) * (k as real * STEP);
  }

  /** The robot's path in closed form: after k moves it stands at distance 0.01 * k from its start on
      the straight line to the target. */
  lemma {:induction false} PathIsStraight(p: Point, t: Point, d: real, k: nat)
    requires IsDistance(d, p, t) && d > 0.0 && k <= Moves(d)
    ensures PathAt(p, t, d, k) == Point(Along(p.x, t.x, d, k), Along(p.y, t.y, d, k))
    decreases k
  {
    if k > 0 {
      MoveShortens(p, t, d);
      MovesStep(d);
      PathIsStraight(NextPosition(p, t, d, STEP), t, d - STEP, k - 1);
      AlongNext(p.x, t.x, d, k);
      AlongNext(p.y, t.y, d, k);
    }
  }

  /** The last move of a path can be taken last. */
  lemma {:induction false} PathExtends(p: Point, t: Point, d: real, k: nat, e: real)
    requires IsDistance(d, p, t) && k < Moves(d) && IsDistance(e, PathAt(p, t, d, k), t)
    ensures PathAt(p, t, d, k + 1) == NextPosition(PathAt(p, t, d, k), t, e, STEP)
    decreases k
  {
    MoveShortens(p, t, d);
    MovesStep(d);
    if k == 0 {
      DistanceIsUnique(d, e, p, t);
    } else {
      PathExtends(NextPosition(p, t, d, STEP), t, d - STEP, k - 1, e);
    }
  }

  /** While the target is not reached, each move shortens the distance by exactly one step: it
      never overshoots and never takes the branch for a distance below 0.001. */
  lemma MoveShortens(p: Point, t: Point, d: real)
    requires IsDistance(d, p, t) && d >= TOLERANCE
    ensures IsDistance(d - STEP, NextPosition(p, t, d, STEP), t)
    ensures NextPosition(p, t, d, STEP) != p && d - STEP > TOO_CLOSE
  {
    MoveDistance(p, t, d);
    if NextPosition(p, t, d, STEP) == p {
      DistanceIsUnique(d, d - STEP, p, t);
    }
  }

  /** A component moves between its start and its target. */
  lemma MoveIsBetween(c: real, tc: real, d: real, lo: real, hi: real)
    requires d >= TOLERANCE && lo <= c <= hi && lo <= tc <= hi
    ensures lo <= c + ((tc - c) / d) * STEP <= hi
  {
    var f := STEP / d;
    assert 0.0 < f <= 1.0 by {
      assert f * d == STEP;
      assert f > 1.0 ==> f * d > d;
      assert f <= 0.0 ==> f * d <= 0.0;
    }
    assert ((tc - c) / d) * STEP == (tc - c) * f;
    assert 0.0 <= tc - c ==> 0.0 <= (tc - c) * f <= tc - c;
    assert tc - c <= 0.0 ==> tc - c <= (tc - c) * f <= 0.0;
  }
}
