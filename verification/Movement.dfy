/**
 * Moving a character among obstacles, one axis at a time, with a loop that
 * stops once both axes are settled.
 */
module Movement {

  datatype Rect = Rect(left: real, top: real, width: real, height: real)

  datatype Vector = Vector(x: real, y: real)

  function Min(a: real, b: real): real {
    if a < b then a else b
  }

  function Max(a: real, b: real): real {
    if a < b then b else a
  }

  /** Whether two rectangles overlap in more than an edge; sides may be negative. */
  predicate Intersects(a: Rect, b: Rect) {
    && Max(Min(a.left, a.left + a.width), Min(b.left, b.left + b.width))
       < Min(Max(a.left, a.left + a.width), Max(b.left, b.left + b.width))
    && Max(Min(a.top, a.top + a.height), Min(b.top, b.top + b.height))
       < Min(Max(a.top, a.top + a.height), Max(b.top, b.top + b.height))
  }

  /** A point off the edges of a rectangle, whatever the signs of its sides. */
  predicate Inside(r: Rect, x: real, y: real) {
    && (r.left < x < r.left + r.width || r.left + r.width < x < r.left)
    && (r.top < y < r.top + r.height || r.top + r.height < y < r.top)
  }

  /** Rectangles intersect exactly when a point is inside both. */
  lemma IntersectsAtAPoint(a: Rect, b: Rect)
    ensures Intersects(a, b) <==> exists x, y :: Inside(a, x, y) && Inside(b, x, y)
  {
    if Intersects(a, b) {
      var x := Between(a.left, a.width, b.left, b.width);
      var y := Between(a.top, a.height, b.top, b.height);
      assert Inside(a, x, y) && Inside(b, x, y);
    }
    forall x, y | Inside(a, x, y) && Inside(b, x, y)
      ensures Intersects(a, b)
    {
    }
  }

  lemma Between(a: real, m: real, b: real, n: real) returns (x: real)
    requires Max(Min(a, a + m), Min(b, b + n)) < Min(Max(a, a + m), Max(b, b + n))
    ensures (a < x < a + m || a + m < x < a) && (b < x < b + n || b + n < x < b)
  {
    x := (Max(Min(a, a + m), Min(b, b + n)) + Min(Max(a, a + m), Max(b, b + n))) / 2.0;
  }

  // ----- The simple rule -----

  predicate Meets(obstacles: seq<Rect>, r: Rect) {
    exists i | 0 <= i < |obstacles| :: Intersects(obstacles[i], r)
  }

  function ShiftX(r: Rect, v: Vector): Rect {
    r.(left := r.left + v.x)
  }

  function ShiftY(r: Rect, v: Vector): Rect {
    r.(top := r.top + v.y)
  }

  /** An axis moves exactly when no obstacle meets the rectangle moved along that axis alone. */
  function Rule(obstacles: seq<Rect>, r: Rect, v: Vector): Rect {
    Rect(
      if v.x != 0.0 && !Meets(obstacles, ShiftX(r, v)) then r.left + v.x else r.left,
      if v.y != 0.0 && !Meets(obstacles, ShiftY(r, v)) then r.top + v.y else r.top,
      r.width,
      r.height)
  }

  // ----- The loop -----

  datatype Walk = Walk(left: real, top: real, checked: int)

  function Start(r: Rect, v: Vector): Walk {
    Walk(r.left + v.x, r.top + v.y, if v.x != 0.0 && v.y != 0.0 then 0 else 1)
  }

  predicate BlocksY(o: Rect, r: Rect, v: Vector, w: Walk) {
    v.y != 0.0 && Intersects(o, r.(top := w.top))
  }

  predicate BlocksX(o: Rect, r: Rect, v: Vector, w: Walk) {
    v.x != 0.0 && Intersects(o, r.(left := w.left))
  }

  function Visit(o: Rect, r: Rect, v: Vector, w: Walk): Walk {
    Walk(
      if BlocksX(o, r, v, w) then r.left else w.left,
      if BlocksY(o, r, v, w) then r.top else w.top,
      w.checked + (if BlocksX(o, r, v, w) then 1 else 0) + (if BlocksY(o, r, v, w) then 1 else 0))
  }

  /** The loop from obstacle i on. */
  function Visits(obstacles: seq<Rect>, i: nat, r: Rect, v: Vector, w: Walk): Walk
    requires i <= |obstacles|
    decreases |obstacles| - i
  {
    if i == |obstacles| then w
    else
      var u := Visit(obstacles[i], r, v, w);
      if u.checked >= 2 then u else Visits(obstacles, i + 1, r, v, u)
  }

  function Moved(obstacles: seq<Rect>, r: Rect, v: Vector): Rect {
    var w := Visits(obstacles, 0, r, v, Start(r, v));
    r.(left := w.left, top := w.top)
  }

  /** A character: where its rectangle is, and what moves it. */
  class Player {
    var left: real
    var top: real
    const width: real
    const height: real
    var velocity: Vector
    var force: Vector

    constructor (bounds: Rect, velocity: Vector, force: Vector)
      ensures GetGlobalBounds() == bounds && this.velocity == velocity && this.force == force
    {
      left, top, width, height := bounds.left, bounds.top, bounds.width, bounds.height;
      this.velocity, this.force := velocity, force;
    }

    function GetGlobalBounds(): Rect
      reads this
    {
      Rect(left, top, width, height)
    }

    method SetPosition(x: real, y: real)
      modifies `left, `top
      ensures left == x && top == y
    {
      left, top := x, y;
    }
  }

  class World {
    const obstacles: seq<Rect>

    constructor (obstacles: seq<Rect>)
      ensures this.obstacles == obstacles
    {
      this.obstacles := obstacles;
    }

    method Move(character: Player)
      modifies character`left, character`top
      ensures var r := old(character.GetGlobalBounds());
        var v := Vector(character.velocity.x + character.force.x, character.velocity.y + character.force.y);
        character.GetGlobalBounds() == Moved(obstacles, r, v)
    {
      hide Intersects;
      var velocity := Vector(character.velocity.x + character.force.x, character.velocity.y + character.force.y);
      if velocity == Vector(0.0, 0.0) {
        StandsStill(obstacles, character.GetGlobalBounds(), velocity);
        return;
      }
      var moveY := character.GetGlobalBounds();
      var moveX := character.GetGlobalBounds();
      moveY := moveY.(top := moveY.top + velocity.y);
      moveX := moveX.(left := moveX.left + velocity.x);
      var checked := if velocity.x != 0.0 && velocity.y != 0.0 then 0 else 1;
      ghost var r := character.GetGlobalBounds();
      for i := 0 to |obstacles|
        invariant moveY == r.(top := moveY.top) && moveX == r.(left := moveX.left)
        invariant Visits(obstacles, 0, r, velocity, Start(r, velocity)) ==
          Visits(obstacles, i, r, velocity, Walk(moveX.left, moveY.top, checked))
      {
        var obstacle := obstacles[i];
        if velocity.y != 0.0 && Intersects(obstacle, moveY) {
          moveY := moveY.(top := character.GetGlobalBounds().top);
          checked := checked + 1;
        }
        if velocity.x != 0.0 && Intersects(obstacle, moveX) {
          moveX := moveX.(left := character.GetGlobalBounds().left);
          checked := checked + 1;
        }
        if checked >= 2 {
          break;
        }
      }
      character.SetPosition(moveX.left, moveY.top);
    }
  }

  lemma {:induction false} StandsStillFrom(obstacles: seq<Rect>, i: nat, r: Rect, v: Vector, w: Walk)
    requires i <= |obstacles| && v == Vector(0.0, 0.0)
    ensures Visits(obstacles, i, r, v, w).left == w.left && Visits(obstacles, i, r, v, w).top == w.top
    decreases |obstacles| - i
  {
    if i < |obstacles| {
      StandsStillFrom(obstacles, i + 1, r, v, w);
    }
  }

  lemma StandsStill(obstacles: seq<Rect>, r: Rect, v: Vector)
    requires v == Vector(0.0, 0.0)
    ensures Moved(obstacles, r, v) == r
  {
    StandsStillFrom(obstacles, 0, r, v, Start(r, v));
  }

  // ----- When the loop follows the rule -----

  /** The first obstacle from i on that meets r, or the number of obstacles. */
  function First(obstacles: seq<Rect>, i: nat, r: Rect): (j: nat)
    requires i <= |obstacles|
    ensures i <= j <= |obstacles|
    ensures j < |obstacles| ==> Intersects(obstacles[j], r)
    ensures forall k | i <= k < j :: !Intersects(obstacles[k], r)
    decreases |obstacles| - i
  {
    if i == |obstacles| || Intersects(obstacles[i], r) then i else First(obstacles, i + 1, r)
  }

  lemma MeetsFirst(obstacles: seq<Rect>, r: Rect)
    ensures Meets(obstacles, r) <==> First(obstacles, 0, r) < |obstacles|
  {
    hide Intersects;
  }

  /** With one component zero the loop looks for the first obstacle in the way and stops there. */
  lemma {:induction false} OneAxis(obstacles: seq<Rect>, i: nat, r: Rect, v: Vector)
    requires i <= |obstacles| && (v.x == 0.0 <==> v.y != 0.0)
    ensures var w := Visits(obstacles, i, r, v, Start(r, v));
      && w.left == (if v.x != 0.0 && First(obstacles, i, ShiftX(r, v)) < |obstacles| then r.left else r.left + v.x)
      && w.top == (if v.y != 0.0 && First(obstacles, i, ShiftY(r, v)) < |obstacles| then r.top else r.top + v.y)
    decreases |obstacles| - i
  {
    hide Intersects;
    if i < |obstacles| {
      OneAxis(obstacles, i + 1, r, v);
    }
  }

  /** With y already blocked, x is found blocked unless an obstacle over the start comes first. */
  lemma {:induction false} AfterY(obstacles: seq<Rect>, i: nat, r: Rect, v: Vector)
    requires i <= |obstacles| && v.x != 0.0 && v.y != 0.0
    ensures var ix := First(obstacles, i, ShiftX(r, v));
      var w := Visits(obstacles, i, r, v, Walk(r.left + v.x, r.top, 1));
      && w.top == r.top
      && w.left == (if ix < |obstacles| && ix <= First(obstacles, i, r) then r.left else r.left + v.x)
    decreases |obstacles| - i
  {
    hide Intersects;
    if i < |obstacles| {
      AfterY(obstacles, i + 1, r, v);
    }
  }

  lemma {:induction false} AfterX(obstacles: seq<Rect>, i: nat, r: Rect, v: Vector)
    requires i <= |obstacles| && v.x != 0.0 && v.y != 0.0
    ensures var iy := First(obstacles, i, ShiftY(r, v));
      var w := Visits(obstacles, i, r, v, Walk(r.left, r.top + v.y, 1));
      && w.left == r.left
      && w.top == (if iy < |obstacles| && iy <= First(obstacles, i, r) then r.top else r.top + v.y)
    decreases |obstacles| - i
  {
    hide Intersects;
    if i < |obstacles| {
      AfterX(obstacles, i + 1, r, v);
    }
  }

  /**
   * An obstacle over the start lies between the one that blocks the first axis
   * and the one that would block the other.
   */
  predicate CutShort(obstacles: seq<Rect>, r: Rect, a: nat, b: nat)
    requires b <= |obstacles|
  {
    a < b < |obstacles| && First(obstacles, a + 1, r) < b
  }

  /** What the loop leaves, from obstacle i on, when both axes are still to be settled. */
  predicate Settles(obstacles: seq<Rect>, i: nat, r: Rect, v: Vector)
    requires i <= |obstacles|
  {
    var ix, iy := First(obstacles, i, ShiftX(r, v)), First(obstacles, i, ShiftY(r, v));
    var w := Visits(obstacles, i, r, v, Start(r, v));
    && w.left == (if ix < |obstacles| && !CutShort(obstacles, r, iy, ix) then r.left else r.left + v.x)
    && w.top == (if iy < |obstacles| && !CutShort(obstacles, r, ix, iy) then r.top else r.top + v.y)
  }

  lemma BlockedAt(obstacles: seq<Rect>, i: nat, r: Rect, v: Vector)
    requires i < |obstacles| && v.x != 0.0 && v.y != 0.0
    ensures Intersects(obstacles[i], ShiftX(r, v)) && Intersects(obstacles[i], ShiftY(r, v)) ==>
      Settles(obstacles, i, r, v)
    ensures !Intersects(obstacles[i], ShiftX(r, v)) && Intersects(obstacles[i], ShiftY(r, v)) ==>
      Settles(obstacles, i, r, v)
  {
    hide Intersects;
    AfterY(obstacles, i + 1, r, v);
  }

  lemma BlockedXAt(obstacles: seq<Rect>, i: nat, r: Rect, v: Vector)
    requires i < |obstacles| && v.x != 0.0 && v.y != 0.0
    requires Intersects(obstacles[i], ShiftX(r, v)) && !Intersects(obstacles[i], ShiftY(r, v))
    ensures Settles(obstacles, i, r, v)
  {
    hide Intersects;
    AfterX(obstacles, i + 1, r, v);
  }

  /** Up to the first obstacle in the way nothing happens; from there on one axis is settled. */
  lemma {:induction false} BothAxes(obstacles: seq<Rect>, i: nat, r: Rect, v: Vector)
    requires i <= |obstacles| && v.x != 0.0 && v.y != 0.0
    ensures Settles(obstacles, i, r, v)
    decreases |obstacles| - i
  {
    hide Intersects;
    if i < |obstacles| {
      var x, y := Intersects(obstacles[i], ShiftX(r, v)), Intersects(obstacles[i], ShiftY(r, v));
      if y {
        BlockedAt(obstacles, i, r, v);
      } else if x {
        BlockedXAt(obstacles, i, r, v);
      } else {
        BothAxes(obstacles, i + 1, r, v);
      }
    }
  }

  /**
   * The loop computes the rule exactly unless both components are non-zero and,
   * after one axis was blocked, an obstacle over the starting place is visited
   * before the obstacle that blocks the other axis.
   */
  lemma MoveFollowsRule(obstacles: seq<Rect>, r: Rect, v: Vector)
    ensures
      var ix, iy := First(obstacles, 0, ShiftX(r, v)), First(obstacles, 0, ShiftY(r, v));
      Moved(obstacles, r, v) == Rule(obstacles, r, v) <==>
        || v.x == 0.0 || v.y == 0.0
        || (!CutShort(obstacles, r, iy, ix) && !CutShort(obstacles, r, ix, iy))
  {
    hide Intersects, Meets, Visits;
    MeetsFirst(obstacles, ShiftX(r, v));
    MeetsFirst(obstacles, ShiftY(r, v));
    if v == Vector(0.0, 0.0) {
      StandsStill(obstacles, r, v);
    } else if v.x == 0.0 || v.y == 0.0 {
      OneAxis(obstacles, 0, r, v);
    } else {
      BothAxes(obstacles, 0, r, v);
    }
  }

  /** A character that starts clear of all obstacles always moves by the rule. */
  lemma ClearStartFollowsRule(obstacles: seq<Rect>, r: Rect, v: Vector)
    requires !Meets(obstacles, r)
    ensures Moved(obstacles, r, v) == Rule(obstacles, r, v)
  {
    hide Intersects, Rule, Moved;
    MoveFollowsRule(obstacles, r, v);
  }

  /**
   * From a clear start a move ends clear exactly when a component is zero, an
   * axis is blocked, or no obstacle meets the rectangle moved along both axes.
   */
  lemma EndsClear(obstacles: seq<Rect>, r: Rect, v: Vector)
    requires !Meets(obstacles, r)
    ensures !Meets(obstacles, Moved(obstacles, r, v)) <==>
      || v.x == 0.0 || v.y == 0.0
      || Meets(obstacles, ShiftX(r, v)) || Meets(obstacles, ShiftY(r, v))
      || !Meets(obstacles, ShiftX(ShiftY(r, v), v))
  {
    hide Intersects, Meets, Moved;
    ClearStartFollowsRule(obstacles, r, v);
    assert Rule(obstacles, r, v) in
      [r, ShiftX(r, v), ShiftY(r, v), ShiftX(ShiftY(r, v), v)];
  }

  /** From a clear start each axis is counted as checked once at most. */
  lemma {:induction false} CountsEachAxisOnce(obstacles: seq<Rect>, i: nat, r: Rect, v: Vector, w: Walk)
    requires i <= |obstacles| && !Meets(obstacles, r)
    requires w.left == r.left || w.left == r.left + v.x
    requires w.top == r.top || w.top == r.top + v.y
    ensures var u := Visits(obstacles, i, r, v, w);
      && u.checked == w.checked + (if u.left != w.left then 1 else 0) + (if u.top != w.top then 1 else 0)
      && (u.left == w.left || u.left == r.left) && (u.top == w.top || u.top == r.top)
    decreases |obstacles| - i
  {
    hide Intersects;
    if i < |obstacles| {
      assert !Intersects(obstacles[i], r);
      assert r.(left := r.left) == r && r.(top := r.top) == r;
      CountsEachAxisOnce(obstacles, i + 1, r, v, Visit(obstacles[i], r, v, w));
    }
  }

  /** The diagonal case: both axes are free, and the move ends inside the obstacle at the corner. */
  lemma CornerIsNotSeen()
    ensures var corner := [Rect(10.0, 10.0, 10.0, 10.0)]; var r := Rect(0.0, 0.0, 10.0, 10.0);
      && !Meets(corner, r)
      && Meets(corner, Moved(corner, r, Vector(5.0, 5.0)))
  {
    var corner, r, v := [Rect(10.0, 10.0, 10.0, 10.0)], Rect(0.0, 0.0, 10.0, 10.0), Vector(5.0, 5.0);
    EndsClear(corner, r, v);
    assert Intersects(corner[0], ShiftX(ShiftY(r, v), v));
  }

  /** From inside an obstacle the loop can stop too early and move an axis that is blocked. */
  lemma WallIsNotSeen()
    ensures
      var obstacles := [Rect(0.0, 10.0, 10.0, 10.0), Rect(0.0, 0.0, 4.0, 1.0), Rect(10.0, 0.0, 10.0, 9.0)];
      var r := Rect(0.0, 0.0, 10.0, 10.0);
      && Meets(obstacles, ShiftX(r, Vector(5.0, 5.0)))
      && Moved(obstacles, r, Vector(5.0, 5.0)).left == 5.0
  {
    var obstacles := [Rect(0.0, 10.0, 10.0, 10.0), Rect(0.0, 0.0, 4.0, 1.0), Rect(10.0, 0.0, 10.0, 9.0)];
    var r, v := Rect(0.0, 0.0, 10.0, 10.0), Vector(5.0, 5.0);
    assert Intersects(obstacles[2], ShiftX(r, v));
    assert Visit(obstacles[0], r, v, Start(r, v)) == Walk(5.0, 0.0, 1);
    assert Visit(obstacles[1], r, v, Walk(5.0, 0.0, 1)).checked >= 2;
  }
}
