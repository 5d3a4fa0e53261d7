/** The vocabulary the layouts are stated in, and the arithmetic of one split:
    `cut`, which lays out two children, and `shared`, which moves a seam for the
    windows' own floors. Lengths are finite reals. */
module Geometry {
  import opened Basics

  /** The tolerance of every comparison with a bound. */
  const SLACK: real := 0.000001

  type Id = nat

  function Max(a: real, b: real): real { if a >= b then a else b }

  function Min(a: real, b: real): real { if a <= b then a else b }

  /** `value` held to `low..=high`, for `low <= high`. */
  function Clamp(value: real, low: real, high: real): real {
    if value < low then low else if value > high then high else value
  }

  /** The share of a box `cut` will draw for a ratio. */
  function Held(ratio: real): real {
    Clamp(ratio, 0.05, 0.95)
  }

  /** What a caller's number counts for: itself when positive, nothing otherwise. */
  function Length(value: real): real { if value > 0.0 then value else 0.0 }

  datatype Axis = Vertical | Horizontal {
    function Across(): Axis { if Vertical? then Horizontal else Vertical }

    function Of(size: Minimum): real { if Vertical? then size.w else size.h }

    function Extent(rect: Rect): real { if Vertical? then rect.w else rect.h }

    function Start(rect: Rect): real { if Vertical? then rect.x else rect.y }

    function End(rect: Rect): real { Start(rect) + Extent(rect) }

    static function Longer(rect: Rect): Axis {
      if rect.w >= rect.h then Vertical else Horizontal
    }
  }

  datatype Rect = Rect(x: real, y: real, w: real, h: real) {
    function Inset(amount: real): Rect {
      Rect(x + amount, y + amount, Max(w - amount * 2.0, 1.0), Max(h - amount * 2.0, 1.0))
    }

    predicate Contains(px: real, py: real) {
      px >= x && py >= y && px < x + w && py < y + h
    }

    predicate Inside(outer: Rect) {
      x >= outer.x && y >= outer.y && x + w <= outer.x + outer.w && y + h <= outer.y + outer.h
    }
  }

  /** Two boxes with at least `gap` between them on some axis. */
  predicate Apart(a: Rect, b: Rect, gap: real) {
    || a.x + a.w + gap <= b.x || b.x + b.w + gap <= a.x
    || a.y + a.h + gap <= b.y || b.y + b.h + gap <= a.y
  }

  /** So no point of the one is nearer than that to the other on both axes. */
  lemma ApartShareNothing(a: Rect, b: Rect, gap: real, px: real, py: real)
    requires Apart(a, b, gap) && a.x <= px < a.x + a.w && a.y <= py < a.y + a.h
    ensures px <= b.x - gap || px >= b.x + b.w + gap || py <= b.y - gap || py >= b.y + b.h + gap
  {}

  datatype Minimum = Minimum(w: real, h: real)

  datatype Settings = Settings(gap: real, split: real, minimum: Minimum)

  type Floors = map<Id, Minimum>

  /** The floor set for a window, zero on both axes when there is none. */
  function FloorOf(floors: Floors, id: Id): Minimum {
    if id in floors then Minimum(Length(floors[id].w), Length(floors[id].h)) else Minimum(0.0, 0.0)
  }

  /** Whether a window's tile is under its own floor. */
  predicate Cramped(floors: Floors, id: Id, rect: Rect) {
    var floor := FloorOf(floors, id);
    rect.w + SLACK < floor.w || rect.h + SLACK < floor.h
  }

  /** What decides a rebalancing, on one axis. A side under its `pull` draws the seam
      towards the other, and the other yields down to its `hold`. */
  datatype Need = Need(pull: real, hold: real) {
    predicate AtLeast(other: Need) {
      pull >= other.pull && hold >= other.hold
    }

    predicate Sound() { 0.0 <= pull <= hold }
  }

  function NeedOf(floor: Minimum, axis: Axis, settings: Settings): Need {
    var pull := axis.Of(floor);
    Need(pull, Max(pull, Length(axis.Of(settings.minimum))))
  }

  /** What two children ask together when the room is shared along its axis. */
  function Both(first: Need, second: Need, gap: real): Need {
    var hold := if first.hold > 0.0 || second.hold > 0.0 then first.hold + gap + second.hold else 0.0;
    Need(if first.pull > 0.0 || second.pull > 0.0 then hold else 0.0, hold)
  }

  /** What two children ask together when each has the whole extent. */
  function Either(first: Need, second: Need): Need {
    Need(Max(first.pull, second.pull), Max(first.hold, second.hold))
  }

  /** One side is short of its pull and the other is not; then the seam moves. */
  predicate OneShort(one: real, two: real, first: Need, second: Need) {
    (first.pull - one > SLACK) != (second.pull - two > SLACK)
  }

  /** Where the seam goes when the first child has `one` of a span and the second
      has `two`: towards the side that is short, by what the other can spare. */
  function Moved(one: real, two: real, first: Need, second: Need): real {
    if !OneShort(one, two, first, second) then one
    else if first.pull - one > SLACK then one + Min(first.pull - one, Max(two - second.hold, 0.0))
    else one - Min(second.pull - two, Max(one - first.hold, 0.0))
  }

  /** What a ratio divides: the extent without the gap, never under a pixel. */
  function Span(axis: Axis, rect: Rect, gap: real): real {
    Max(axis.Extent(rect) - gap, 1.0)
  }

  /** A split's own ratio after rebalancing for the two needs. */
  function Shared(axis: Axis, ratio: real, first: Need, second: Need, rect: Rect, settings: Settings): real {
    var span := Span(axis, rect, settings.gap);
    SharedOf(span, ratio, Part(span, ratio), first, second)
  }

  /** The same, of a span whose first child has `one` of it at `ratio`. */
  function SharedOf(span: real, ratio: real, one: real, first: Need, second: Need): real
    requires span > 0.0
  {
    if first.pull <= 0.0 && second.pull <= 0.0 then ratio
    else if OneShort(one, span - one, first, second) then Moved(one, span - one, first, second) / span
    else ratio
  }

  /** A child's box: `extent` long from `start` along the axis, whole across it. */
  function Slab(rect: Rect, axis: Axis, start: real, extent: real): Rect {
    if axis.Vertical? then Rect(start, rect.y, extent, rect.h) else Rect(rect.x, start, rect.w, extent)
  }

  /** A ratio's share of a room, held in 5..95% of it. */
  function Part(room: real, ratio: real): real { room * Held(ratio) }

  function Cut(rect: Rect, axis: Axis, ratio: real, gap: real): (Rect, Rect) {
    var room := axis.Extent(rect) - gap;
    var first := Max(Part(room, ratio), 1.0);
    var second := Max(room - first, 1.0);
    (Slab(rect, axis, axis.Start(rect), first), Slab(rect, axis, axis.Start(rect) + first + gap, second))
  }

  /** The new window's half of a tile: the second, unless the pointer is in the first. */
  predicate GoesSecond(at: Option<(real, real)>, rect: Rect, axis: Axis) {
    match at
    case None => true
    case Some(p) => if axis.Vertical? then p.0 >= rect.x + rect.w / 2.0 else p.1 >= rect.y + rect.h / 2.0
  }

  /** A half has room for its window: at most `slack` short of the larger of two bounds,
      on both axes. */
  predicate HoldsWithin(half: Rect, floor: Minimum, minimum: Minimum, slack: real) {
    half.w + slack >= Max(floor.w, minimum.w) && half.h + slack >= Max(floor.h, minimum.h)
  }

  // ---- One split, made linear ----

  lemma Scale(a: real, b: real, c: real)
    requires c > 0.0
    ensures a < b <==> c * a < c * b
  {}

  lemma Quotient(a: real, b: real)
    requires b > 0.0
    ensures b * (a / b) == a
  {}

  /** Holding a ratio in 5..95% is holding the length it gives. */
  lemma HeldLength(span: real, ratio: real)
    requires span > 0.0
    ensures Part(span, ratio) == Clamp(span * ratio, span * 0.05, span * 0.95)
  {
    Scale(ratio, 0.05, span);
    Scale(0.95, ratio, span);
  }

  lemma QuotientLength(span: real, length: real)
    requires span > 0.0
    ensures Part(span, length / span) == Clamp(length, span * 0.05, span * 0.95)
  {
    Quotient(length, span);
    HeldLength(span, length / span);
  }

  /** Where `shared` puts the seam of a span, as a length. */
  function Seam(span: real, one: real, first: Need, second: Need): real {
    if first.pull <= 0.0 && second.pull <= 0.0 then one else Moved(one, span - one, first, second)
  }

  /** What `cut` draws for the ratio `shared` chooses, in lengths: the seam held
      in 5..95% of the span, moved from there, and held again. */
  lemma DrawnLength(span: real, ratio: real, one: real, first: Need, second: Need)
    requires span > 0.0 && one == Part(span, ratio)
    ensures Part(span, SharedOf(span, ratio, one, first, second))
              == Clamp(Seam(span, one, first, second), span * 0.05, span * 0.95)
  {
    HeldLength(span, ratio);
    if !(first.pull <= 0.0 && second.pull <= 0.0) && OneShort(one, span - one, first, second) {
      QuotientLength(span, Moved(one, span - one, first, second));
    }
  }

  /** A share that stays within 5..95% is drawn as it is. */
  lemma SharedLength(span: real, ratio: real, one: real, first: Need, second: Need)
    requires span > 0.0 && one == Part(span, ratio)
    requires 0.05 <= SharedOf(span, ratio, one, first, second) <= 0.95
    ensures Part(span, SharedOf(span, ratio, one, first, second)) == Seam(span, one, first, second)
  {
    if !(first.pull <= 0.0 && second.pull <= 0.0) && OneShort(one, span - one, first, second) {
      Quotient(Moved(one, span - one, first, second), span);
    }
  }
}
