/** When a new window is refused, which way one that is not is hung, and where it and
    its neighbour then are. */
module Refusing {
  import opened Basics
  import opened Geometry
  import opened Dwindle
  import opened FloorsMet
  import opened Seams
  import opened Inserting
  import opened Choosing

  /** How a listed tile could be cut for window `id`, if it could. */
  function TileRoom(tile: (Id, Rect), id: Id, at: Option<(real, real)>, r: Rules): Option<Axis> {
    RoomIn(tile.1, FloorOf(r.floors, tile.0), FloorOf(r.floors, id), at, r.settings)
  }

  /** A half is short, on either side, of its window's floor or of the minimum. */
  predicate Short(half: Rect, id: Id, r: Rules) {
    var (floor, minimum) := (FloorOf(r.floors, id), r.settings.minimum);
    || half.w + SLACK < floor.w || half.w + SLACK < minimum.w
    || half.h + SLACK < floor.h || half.h + SLACK < minimum.h
  }

  /** Hung beside another across an axis of that one's tile, a window or its neighbour is
      short. */
  predicate Cramps(tile: (Id, Rect), id: Id, axis: Axis, at: Option<(real, real)>, r: Rules) {
    var b := Branch(Leaf(0, tile.0), 1, 2, id, axis, r.settings.split, GoesSecond(at, tile.1, axis));
    var (one, two) := Halves(b, tile.1, r);
    Short(one, b.first.id, r) || Short(two, b.second.id, r)
  }

  lemma FitsExactly(tile: (Id, Rect), id: Id, axis: Axis, at: Option<(real, real)>, r: Rules)
    ensures FitsAcross(axis, tile.1, FloorOf(r.floors, tile.0), FloorOf(r.floors, id), at, r.settings)
       <==> !Cramps(tile, id, axis, at, r)
  {
    hide FloorOf, Halves, Measured, GoesSecond;
    BranchMeasures(Leaf(0, tile.0), 1, 2, id, axis, GoesSecond(at, tile.1, axis), tile.1, r);
  }

  /** A tile has no room exactly where a window is short either way it is cut, and is cut
      across its longer side unless one would be short that way. */
  lemma RoomTells(tile: (Id, Rect), id: Id, at: Option<(real, real)>, r: Rules)
    ensures var (_, box) := tile;
            match TileRoom(tile, id, at, r)
            case None => Cramps(tile, id, Vertical, at, r) && Cramps(tile, id, Horizontal, at, r)
            case Some(axis) =>
              && !Cramps(tile, id, axis, at, r)
              && ((axis == Vertical <==> box.w >= box.h) || Cramps(tile, id, axis.Across(), at, r))
  {
    hide FitsAcross, Cramps;
    FitsExactly(tile, id, Vertical, at, r);
    FitsExactly(tile, id, Horizontal, at, r);
  }

  /** Window `id` hung beside a tile in the way the tile has room for it. */
  ghost predicate HungWithRoom(t: Tree, u: Tree, n: nat, target: nat, box: Rect, id: Id, at: Option<(real, real)>,
                               r: Rules)
    requires target in t.Slots() && Node(t, target).Leaf?
  {
    var tile := (Node(t, target).id, box);
    exists axis: Axis ::
      && !Cramps(tile, id, axis, at, r)
      && ((axis == Vertical <==> box.w >= box.h) || Cramps(tile, id, axis.Across(), at, r))
      && u == Hung(t, target, n + 1, n, id, axis, r.settings.split, GoesSecond(at, box, axis))
  }

  /** A tile is cramped by a new window whichever way it is cut. */
  predicate NoRoom(tile: (Id, Rect), id: Id, at: Option<(real, real)>, r: Rules) {
    Cramps(tile, id, Vertical, at, r) && Cramps(tile, id, Horizontal, at, r)
  }

  /** Tile `k` has room, and every tile larger, or as large and earlier, has none. */
  ghost predicate LargestRoom(boxes: Boxes, k: nat, id: Id, r: Rules)
    requires k < |boxes|
  {
    && !NoRoom(boxes[k], id, None, r)
    && forall j :: 0 <= j < |boxes| ==>
         var (one, two) := (boxes[j].1, boxes[k].1);
         (one.w * one.h > two.w * two.h || (one.w * one.h == two.w * two.h && j < k)) ==> NoRoom(boxes[j], id, None, r)
  }

  // ---- Where the two windows are ----

  /** With no floors a box depends on nothing below it. */
  lemma {:induction false} BoxStays(t: Tree, rect: Rect, r: Rules, target: nat, sub: Tree)
    requires r.floors == map[] && t.Proper() && target in t.Slots() && sub.at !in t.Slots()
    ensures BoxOf(Grown(t, target, sub), rect, r, sub.at) == BoxOf(t, rect, r, target)
  {
    if t.at != target {
      var u := Grown(t, target, sub);
      GrownElsewhere(t.first, target, sub);
      GrownElsewhere(t.second, target, sub);
      GrownSlots(t.first, target, sub);
      BoxOfInside(t, rect, r, target);
      BoxOfInside(u, rect, r, sub.at);
      assert Halves(u, rect, r) == Halves(t, rect, r);
      hide Halves, BoxOf;
      if target in t.first.Slots() {
        BoxStays(t.first, Halves(t, rect, r).0, r, target, sub);
      } else {
        BoxStays(t.second, Halves(t, rect, r).1, r, target, sub);
      }
    }
  }

  /** Two tiles side by side in a box, or one above the other, a gap between them. The
      first has its share of the rest, a pixel at least. */
  predicate SideBySide(one: Rect, two: Rect, box: Rect, gap: real, split: real) {
    && one.w == Max((box.w - gap) * Clamp(split, 0.05, 0.95), 1.0)
    && one.x == box.x && one.y == two.y == box.y && one.h == two.h == box.h
    && two.x == box.x + one.w + gap && two.x + two.w == box.x + box.w
  }

  predicate Stacked(one: Rect, two: Rect, box: Rect, gap: real, split: real) {
    && one.h == Max((box.h - gap) * Clamp(split, 0.05, 0.95), 1.0)
    && one.y == box.y && one.x == two.x == box.x && one.w == two.w == box.w
    && two.y == box.y + one.h + gap && two.y + two.h == box.y + box.h
  }

  /** The new tile is right of the old, or below it, with no pointer, and else in the half
      of their box that the pointer is in. */
  predicate Beside(was: Rect, now: Rect, box: Rect, axis: Axis, pointer: Option<(real, real)>, settings: Settings) {
    if axis == Vertical then
      if pointer.None? || pointer.value.0 >= box.x + box.w / 2.0
      then SideBySide(was, now, box, settings.gap, settings.split)
      else SideBySide(now, was, box, settings.gap, settings.split)
    else
      if pointer.None? || pointer.value.1 >= box.y + box.h / 2.0
      then Stacked(was, now, box, settings.gap, settings.split)
      else Stacked(now, was, box, settings.gap, settings.split)
  }

  /** The halves a branch has with no floors. */
  lemma BranchTiles(leaf: Tree, box: Rect, at: nat, slot: nat, id: Id, axis: Axis, pointer: Option<(real, real)>, r: Rules)
    requires r.floors == map[] && r.Gap() >= 0.0
    requires var b := Branch(leaf, at, slot, id, axis, r.settings.split, GoesSecond(pointer, box, axis));
             CutHasRoom(b, box, r)
    ensures var second := GoesSecond(pointer, box, axis);
            var b := Branch(leaf, at, slot, id, axis, r.settings.split, second);
            var (one, two) := Halves(b, box, r);
            Beside(if second then one else two, if second then two else one, box, axis, pointer, r.settings)
  {
    var b := Branch(leaf, at, slot, id, axis, r.settings.split, GoesSecond(pointer, box, axis));
    CutTiles(b, box, r);
    HalvesAre(b, box, r);
    assert Drawn(b, box, r) == Held(r.settings.split) == Held(Held(r.settings.split));
    hide Halves, CutHasRoom, Drawn;
  }

  /** With no floors, a window hung beside another takes its half of the other's tile. */
  lemma HungTiles(t: Tree, target: nat, box: Rect, at: nat, slot: nat, id: Id, axis: Axis, pointer: Option<(real, real)>,
                  rect: Rect, r: Rules)
    requires r.floors == map[] && r.Gap() >= 0.0 && t.Proper() && target in t.Slots() && Node(t, target).Leaf?
    requires at !in t.Slots() && slot !in t.Slots() && at != slot && id !in t.Ids()
    requires BoxOf(t, rect, r, target) == Some(box)
    requires var b := Branch(Node(t, target), at, slot, id, axis, r.settings.split, GoesSecond(pointer, box, axis));
             CutHasRoom(b, box, r)
    ensures var u := Hung(t, target, at, slot, id, axis, r.settings.split, GoesSecond(pointer, box, axis));
            exists was: Rect, now: Rect ::
              && (Node(t, target).id, was) in Place(u, rect, r) && (id, now) in Place(u, rect, r)
              && Beside(was, now, box, axis, pointer, r.settings)
  {
    hide BoxOf, Place, Beside, Halves, CutHasRoom, GoesSecond;
    var second := GoesSecond(pointer, box, axis);
    var b := Branch(Node(t, target), at, slot, id, axis, r.settings.split, second);
    NodeSlots(t, target);
    BoxStays(t, rect, r, target, b);
    GrownProper(t, target, b);
    PlacedInside(Grown(t, target, b), rect, r, b.at);
    BranchTiles(Node(t, target), box, at, slot, id, axis, pointer, r);
    var (one, two) := Halves(b, box, r);
    var (was, now) := if second then (one, two) else (two, one);
    assert Beside(was, now, box, axis, pointer, r.settings);
  }
}
