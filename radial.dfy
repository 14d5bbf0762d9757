/** The layout arithmetic shared by `setupOverlay` (current generation) and
    `showOverlay` (legacy generation): how many actions fit, whether there is
    room on each side of the touch point, the angle of the first bubble, the
    order in which the slots are visited and where each bubble starts and
    stops. Angles, distances and positions are reals; `cos`, `sin` and `acos`
    are supplied by the caller as a `Trig` value and left uninterpreted. */
module RadialLayout {

  /** `BubbleActionOverlay.MAX_ACTIONS`. */
  const MAX_ACTIONS: int := 5

  /** `Math.PI`. */
  const PI: real := 3.141592653589793

  /** The trigonometric functions the layout calls, left uninterpreted. Each
      one already includes the `(float)` rounding the source applies. */
  datatype Trig = Trig(cos: real -> real, sin: real -> real, acos: real -> real)

  /** The overlay's dimension resources: the distance of a bubble from the
      touch point before and after the show animation, and the indicator's
      dimension. */
  datatype Geometry = Geometry(startDistance: real, stopDistance: real, bubbleDimension: real)

  /** The distance the outermost bubble reaches: the stop distance plus one
      bubble dimension. */
  function Reach(g: Geometry): real
  {
    g.stopDistance + g.bubbleDimension
  }

  /** Dimension resources are positive, so the reach is never zero. */
  predicate ValidGeometry(g: Geometry)
  {
    0.0 < g.startDistance && 0.0 < g.stopDistance && 0.0 < g.bubbleDimension
  }

  /** `Math.PI / (numActions + 1)`: the angle between neighbouring bubbles. */
  function AngleDelta(n: nat): (r: real)
    ensures 0.0 < r <= PI
    ensures (n + 1) as real * r == PI
  {
    PI / (n + 1) as real
  }

  /** `RectF.contains(x, y)` for the rectangle `(0, 0, width, height)`: the
      rectangle is not empty and the point lies in it, right and bottom edges
      excluded. */
  predicate Contains(width: int, height: int, x: real, y: real)
  {
    0.0 < width as real && 0.0 < height as real
    && 0.0 <= x && x < width as real && 0.0 <= y && y < height as real
  }

  /** `(float) Math.cos(angleDelta) * (stopDistance + bubbleDimension)`: how
      far the outermost bubble reaches sideways. */
  function RequiredSpace(g: Geometry, n: nat, trig: Trig): real
  {
    trig.cos(AngleDelta(n)) * Reach(g)
  }

  /** `leftOk`: the point that far to the left of the touch is on screen. */
  predicate LeftOk(width: int, height: int, originX: real, originY: real, g: Geometry, n: nat, trig: Trig)
  {
    Contains(width, height, originX - RequiredSpace(g, n, trig), originY)
  }

  /** `rightOk`: the point that far to the right of the touch is on screen. */
  predicate RightOk(width: int, height: int, originX: real, originY: real, g: Geometry, n: nat, trig: Trig)
  {
    Contains(width, height, originX + RequiredSpace(g, n, trig), originY)
  }

  /** The starting angle, chosen by priority: room on both sides centres the
      fan; room on the right only anchors the first bubble to the left edge;
      otherwise the last bubble is anchored to the right edge. */
  function StartingAngle(n: nat, leftOk: bool, rightOk: bool, originX: real, width: int, g: Geometry, trig: Trig): (r: real)
    requires ValidGeometry(g)
    ensures rightOk && leftOk ==> r == PI + AngleDelta(n)
    ensures rightOk && !leftOk ==> r == -trig.acos((0.0 - originX) / Reach(g))
    ensures !rightOk ==> r == -trig.acos((width as real - originX) / Reach(g)) - (n - 1) as real * AngleDelta(n)
  {
    var delta := AngleDelta(n);
    if rightOk && leftOk then PI + delta
    else if rightOk then -trig.acos((0.0 - originX) / Reach(g))
    else -trig.acos((width as real - originX) / Reach(g)) - (n - 1) as real * delta
  }

  /** The slot that the `k`-th visited position is: slots are visited
      ascending when the right side fits and descending otherwise, so the
      slot of action `k` is `k` or `n - 1 - k`. */
  function Slot(rightOk: bool, n: int, k: int): (s: int)
    ensures 0 <= k < n ==> 0 <= s < n
  {
    if rightOk then k else n - 1 - k
  }

  /** The binding is its own inverse: the action bound to the slot of action
      `k` is `k`, so slot `s` holds action `Slot(rightOk, n, s)`. */
  lemma SlotIsInvolution(rightOk: bool, n: int, k: int)
    ensures Slot(rightOk, n, Slot(rightOk, n, k)) == k
  {
  }

  /** The slots in the order the layout loop visits them. */
  function VisitOrder(rightOk: bool, n: nat): (order: seq<int>)
    ensures |order| == n
    ensures forall k :: 0 <= k < n ==> order[k] == Slot(rightOk, n, k)
  {
    seq(n, k requires 0 <= k < n => Slot(rightOk, n, k))
  }

  /** The visit order is a permutation of the slots `0 .. n - 1`: every
      visited position is a slot, no slot is visited twice, and every slot is
      visited. */
  lemma VisitOrderIsPermutation(rightOk: bool, n: nat)
    ensures forall k :: 0 <= k < n ==> 0 <= VisitOrder(rightOk, n)[k] < n
    ensures forall j, k :: 0 <= j < k < n ==> VisitOrder(rightOk, n)[j] != VisitOrder(rightOk, n)[k]
    ensures forall s :: 0 <= s < n ==> VisitOrder(rightOk, n)[Slot(rightOk, n, s)] == s
  {
  }

  /** Slots are visited in ascending order when the right side fits and in
      descending order otherwise. */
  lemma VisitOrderDirection(rightOk: bool, n: nat)
    ensures rightOk ==> forall j, k :: 0 <= j < k < n ==> VisitOrder(rightOk, n)[j] < VisitOrder(rightOk, n)[k]
    ensures !rightOk ==> forall j, k :: 0 <= j < k < n ==> VisitOrder(rightOk, n)[j] > VisitOrder(rightOk, n)[k]
  {
  }

  /** The angle of the `k`-th visited slot: each step of the loop adds one
      `angleDelta`. */
  function AngleOf(startingAngle: real, delta: real, k: int): real
  {
    startingAngle + k as real * delta
  }

  /** The layout loop's parameters: the direction it visits the slots in,
      the angle of the first visited slot, the angle between neighbours, the
      touch point and the trigonometric functions. */
  datatype Fan = Fan(rightOk: bool, startingAngle: real, angleDelta: real, originX: real, originY: real, trig: Trig)

  /** The angle of the action visited `k`-th in the fan `f`. */
  function FanAngle(f: Fan, k: int): real
  {
    AngleOf(f.startingAngle, f.angleDelta, k)
  }

  /** One step of the layout loop adds exactly one `angleDelta`. */
  lemma AngleStep(startingAngle: real, delta: real, k: int)
    ensures AngleOf(startingAngle, delta, k + 1) == AngleOf(startingAngle, delta, k) + delta
  {
    assert (k + 1) as real * delta == k as real * delta + delta;
  }

  /** With room on both sides the fan is symmetric: the angles of the `k`-th
      and the `(n - 1 - k)`-th bubble add up to three half turns, so the fan
      is centred on the upward direction (screen `y` grows downwards). */
  lemma CentredFanIsSymmetric(n: nat, k: int, originX: real, width: int, g: Geometry, trig: Trig)
    requires ValidGeometry(g)
    ensures var s := StartingAngle(n, true, true, originX, width, g, trig);
      AngleOf(s, AngleDelta(n), k) + AngleOf(s, AngleDelta(n), n - 1 - k) == 3.0 * PI
  {
    var d := AngleDelta(n);
    calc {
      AngleOf(PI + d, d, k) + AngleOf(PI + d, d, n - 1 - k);
      2.0 * PI + (k as real + (n - 1 - k) as real + 2.0) * d;
      2.0 * PI + (n + 1) as real * d;
    }
  }

  /** With room on both sides every bubble lies strictly in the upper half
      turn `(PI, 2 PI)` around the touch point. */
  lemma CentredFanIsAbove(n: nat, k: int, originX: real, width: int, g: Geometry, trig: Trig)
    requires ValidGeometry(g)
    requires 0 <= k < n
    ensures var a := AngleOf(StartingAngle(n, true, true, originX, width, g, trig), AngleDelta(n), k);
      PI < a < 2.0 * PI
  {
    var d := AngleDelta(n);
    assert AngleOf(PI + d, d, k) == PI + (k + 1) as real * d;
    MultipleBelow(k + 1, n + 1, d);
  }

  /** `i * d < j * d` for a positive `d` and `0 < i < j`; also `0 < i * d`. */
  lemma MultipleBelow(i: int, j: int, d: real)
    requires 0 < i < j && 0.0 < d
    ensures 0.0 < i as real * d < j as real * d
  {
    assert (j - i) as real * d > 0.0;
  }

  /** With room on the right only, the first visited bubble sits on the ray
      that meets the left edge at the reach distance. */
  lemma RightOnlyAnchorsFirst(n: nat, originX: real, width: int, g: Geometry, trig: Trig)
    requires ValidGeometry(g)
    ensures AngleOf(StartingAngle(n, false, true, originX, width, g, trig), AngleDelta(n), 0)
      == -trig.acos((0.0 - originX) / Reach(g))
  {
  }

  /** With room on the left only, the last visited bubble sits on the ray that
      meets the right edge at the reach distance. */
  lemma LeftOnlyAnchorsLast(n: nat, originX: real, width: int, g: Geometry, trig: Trig)
    requires ValidGeometry(g)
    requires n >= 1
    ensures AngleOf(StartingAngle(n, true, false, originX, width, g, trig), AngleDelta(n), n - 1)
      == -trig.acos((width as real - originX) / Reach(g))
  {
  }

  /** A point on the overlay. */
  datatype Point = Point(x: real, y: real)

  /** The top-left corner that puts the centre of a view of the given size at
      `distance` from the touch point along `angle`:
      `origin + distance * cos(angle) - halfWidth` and likewise for `y`. */
  function Place(originX: real, originY: real, distance: real, angle: real, width: int, height: int, trig: Trig): Point
  {
    Point(originX + distance * trig.cos(angle) - width as real / 2.0,
          originY + distance * trig.sin(angle) - height as real / 2.0)
  }

  /** `actionEndX/Y[i]`: where a bubble stops. */
  function EndPoint(originX: real, originY: real, g: Geometry, angle: real, width: int, height: int, trig: Trig): Point
  {
    Place(originX, originY, g.stopDistance, angle, width, height, trig)
  }

  /** `actionStartX/Y[i]`: where a bubble starts. */
  function StartPoint(originX: real, originY: real, g: Geometry, angle: real, width: int, height: int, trig: Trig): Point
  {
    Place(originX, originY, g.startDistance, angle, width, height, trig)
  }

  /** A bubble's start and end points lie on the same ray from the touch
      point: they differ by the difference of the two distances along the
      bubble's angle, and nothing else. */
  lemma StartAndEndShareTheRay(originX: real, originY: real, g: Geometry, angle: real, width: int, height: int, trig: Trig)
    ensures var e, s := EndPoint(originX, originY, g, angle, width, height, trig),
                        StartPoint(originX, originY, g, angle, width, height, trig);
      && e.x - s.x == (g.stopDistance - g.startDistance) * trig.cos(angle)
      && e.y - s.y == (g.stopDistance - g.startDistance) * trig.sin(angle)
  {
    var c, sn := trig.cos(angle), trig.sin(angle);
    assert g.stopDistance * c - g.startDistance * c == (g.stopDistance - g.startDistance) * c;
    assert g.stopDistance * sn - g.startDistance * sn == (g.stopDistance - g.startDistance) * sn;
  }
}
