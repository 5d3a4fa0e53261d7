/** Which seam an edge has, that a seam's room is no narrower than its reasons, and
    where a drag lands when there are none. */
module Wide {
  import opened Basics
  import opened Geometry
  import opened Dwindle
  import opened FloorsMet
  import opened Seams
  import opened Squeeze

  // ---- Which seam ----

  /** The split's seam is that edge of one of its children, and the leaf is in it. */
  predicate Bears(n: Tree, leaf: nat, edge: Edge) {
    n.Split? &&
      match edge
      case Left => n.axis == Vertical && leaf in n.second.Slots()
      case Right => n.axis == Vertical && leaf in n.first.Slots()
      case Top => n.axis == Horizontal && leaf in n.second.Slots()
      case Bottom => n.axis == Horizontal && leaf in n.first.Slots()
  }

  /** The slot of a split that bears an edge of the leaf, below every other such split. */
  ghost predicate Nearest(t: Tree, leaf: nat, edge: Edge, seam: nat) {
    && seam in t.Slots() && Bears(Node(t, seam), leaf, edge)
    && forall at :: at in t.Slots() && Bears(Node(t, at), leaf, edge) ==> seam in Node(t, at).Slots()
  }

  /** An edge's seam is the nearest of those that bear it, and it has none only when none
      does. */
  lemma {:induction false} SeamIsNearest(t: Tree, leaf: nat, edge: Edge)
    requires t.Proper()
    ensures match SeamBeside(t, leaf, edge)
            case Some(seam) => Nearest(t, leaf, edge, seam)
            case None => forall at :: at in t.Slots() ==> !Bears(Node(t, at), leaf, edge)
  {
    if t.Split? {
      SeamIsNearest(t.first, leaf, edge);
      SeamIsNearest(t.second, leaf, edge);
      forall at | at in t.first.Slots() ensures at !in t.second.Slots() && Node(t, at) == Node(t.first, at) {}
      forall at | at in t.second.Slots() ensures at !in t.first.Slots() && Node(t, at) == Node(t.second, at) {}
      forall at | at in t.Slots() ensures Node(t, at).Slots() <= t.Slots() { NodeSlots(t, at); }
    }
  }

  // ---- How wide its room is ----

  /** A seam at `ratio` leaves a side all that the minimum and the floors ask of it. */
  ghost predicate Serves(t: Tree, axis: Axis, length: real, r: Rules) {
    && (axis.Of(r.settings.minimum) > 0.0 ==> length >= FloorAlong(t, axis, axis.Of(r.settings.minimum), r.Gap()))
    && (r.floors != map[] && Ask(t, axis, r).pull > 0.0 ==> length >= Ask(t, axis, r).pull)
  }

  /** A seam's room in 5..95% is just the places where each side is as long as it is
      drawn now, or as it is asked to be. */
  lemma RoomIs(n: Tree, rect: Rect, r: Rules, ratio: real)
    requires n.Split? && 0.05 <= Drawn(n, rect, r) <= 0.95
    ensures var (span, current) := (Span(n.axis, rect, r.Gap()), Drawn(n, rect, r));
            Room(n, rect, r).0 <= ratio <= Room(n, rect, r).1 <==>
              && 0.05 <= ratio <= 0.95
              && (ratio < current ==> Serves(n.first, n.axis, Times(span, ratio), r))
              && (ratio > current ==> Serves(n.second, n.axis, span - Times(span, ratio), r))
  {
    hide Drawn, FloorAlong, Ask, Times;
    var (axis, span, least) := (n.axis, Span(n.axis, rect, r.Gap()), n.axis.Of(r.settings.minimum));
    SideIs(FloorAlong(n.first, axis, least, r.Gap()), span, ratio);
    SideIs(FloorAlong(n.second, axis, least, r.Gap()), span, ratio);
    SideIs(Ask(n.first, axis, r).pull, span, ratio);
    SideIs(Ask(n.second, axis, r).pull, span, ratio);
  }

  lemma SideIs(length: real, span: real, ratio: real)
    requires span > 0.0
    ensures length / span <= ratio <==> length <= Times(span, ratio)
    ensures ratio <= 1.0 - length / span <==> length <= span - Times(span, ratio)
  {
    ShareOf(length, span, ratio);
    ShareOf(length, span, 1.0 - ratio);
    assert span * (1.0 - ratio) == span - span * ratio;
  }

  lemma TooShort(t: Tree, rect: Rect, r: Rules, axis: Axis, least: real)
    requires Toll(t, axis, r) == 0.0 && r.Gap() >= 0.0 && least > 1.0
    requires axis.Extent(rect) < FloorAlong(t, axis, least, r.Gap())
    ensures !AllLong(Place(t, rect, r), axis, least)
  {
    if AllLong(Place(t, rect, r), axis, least) {
      NoTollNoMoves(t, rect, r, axis);
      FloorIsLeast(t, rect, r, axis, least);
    }
  }

  /** Outside it, where nothing below is rebalanced, a place cut there leaves a side with a
      tile under the minimum, or shorter than it pulls towards. */
  lemma RoomHasReasons(n: Tree, rect: Rect, r: Rules, ratio: real)
    requires n.Split? && r.Gap() >= 0.0 && 0.05 <= Drawn(n, rect, r) <= 0.95 && 0.05 <= ratio <= 0.95
    requires SidesToll(n, r) == 0.0 && !(0.0 < n.axis.Of(r.settings.minimum) <= 1.0)
    requires !(Room(n, rect, r).0 <= ratio <= Room(n, rect, r).1)
    ensures var (least, length) := (n.axis.Of(r.settings.minimum), Times(Span(n.axis, rect, r.Gap()), ratio));
            var (one, two) := Cut(rect, n.axis, ratio, r.Gap());
            if ratio < Drawn(n, rect, r) then
              (least > 0.0 && !AllLong(Place(n.first, one, r), n.axis, least)) || length < Ask(n.first, n.axis, r).pull
            else
              (least > 0.0 && !AllLong(Place(n.second, two, r), n.axis, least))
              || Span(n.axis, rect, r.Gap()) - length < Ask(n.second, n.axis, r).pull
  {
    hide Drawn, FloorAlong, Ask, Toll, Place, AllLong, Room;
    RoomIs(n, rect, r, ratio);
    var (axis, least) := (n.axis, n.axis.Of(r.settings.minimum));
    var (one, two) := Cut(rect, axis, ratio, r.Gap());
    CutAt(rect, axis, ratio, r.Gap());
    if least > 1.0 {
      FloorAtLeast(n.first, axis, least, r.Gap());
      FloorAtLeast(n.second, axis, least, r.Gap());
      if axis.Extent(one) < FloorAlong(n.first, axis, least, r.Gap()) { TooShort(n.first, one, r, axis, least); }
      if axis.Extent(two) < FloorAlong(n.second, axis, least, r.Gap()) { TooShort(n.second, two, r, axis, least); }
    }
  }

  lemma CutAt(rect: Rect, axis: Axis, ratio: real, gap: real)
    requires 0.05 <= ratio <= 0.95
    ensures var (span, (one, two)) := (Span(axis, rect, gap), Cut(rect, axis, ratio, gap));
            && (axis.Extent(one) <= 1.0 || axis.Extent(one) == Times(span, ratio))
            && (axis.Extent(two) <= 1.0 || axis.Extent(two) <= span - Times(span, ratio))
  {
    var room := axis.Extent(rect) - gap;
    if room < 1.0 { PartUnderAPixel(room, ratio); } else { PartWithin(room, ratio); }
    hide Part;
  }

  // ---- Where a drag lands when nothing narrows the room ----

  /** No window of the subtree has a floor along the axis. */
  ghost predicate NoFloors(t: Tree, axis: Axis, r: Rules) {
    forall id :: id in t.Ids() ==> axis.Of(FloorOf(r.floors, id)) == 0.0
  }

  lemma {:induction false} AsksNothing(t: Tree, axis: Axis, r: Rules)
    requires NoFloors(t, axis, r)
    ensures Ask(t, axis, r).pull == 0.0
  {
    if t.Split? {
      AsksNothing(t.first, axis, r);
      AsksNothing(t.second, axis, r);
    }
  }

  /** The edge is at the place, held to 5..95% of the box its seam divides. */
  predicate LandsAt(edge: Edge, tile: Rect, place: (real, real), box: Rect, gap: real) {
    var (w, h) := (Max(box.w - gap, 1.0), Max(box.h - gap, 1.0));
    match edge
    case Left => tile.x == Clamp(place.0, box.x + Max(w * 0.05, 1.0) + gap, box.x + Max(w * 0.95, 1.0) + gap)
    case Right => tile.x + tile.w == Clamp(place.0, box.x + Max(w * 0.05, 1.0), box.x + Max(w * 0.95, 1.0))
    case Top => tile.y == Clamp(place.1, box.y + Max(h * 0.05, 1.0) + gap, box.y + Max(h * 0.95, 1.0) + gap)
    case Bottom => tile.y + tile.h == Clamp(place.1, box.y + Max(h * 0.05, 1.0), box.y + Max(h * 0.95, 1.0))
  }

  lemma LandsPlainly(edge: Edge, tile: Rect, place: (real, real), box: Rect, gap: real)
    requires edge.Of(tile) == Clamp(edge.At(place), Reached(edge, 0.05, box, gap), Reached(edge, 0.95, box, gap))
    ensures LandsAt(edge, tile, place, box, gap)
  {}

  /** With no minimum and no floors along it a dragged edge is where it was dragged to, held
      to 5..95% of what its seam divides. */
  lemma DragLandsPlainly(t: Tree, leaf: nat, edge: Edge, edgeAt: (real, real), area: Rect, r: Rules)
    requires t.Proper() && r.Gap() >= 0.0 && leaf in t.Slots() && Node(t, leaf).Leaf?
    requires SeamBeside(t, leaf, edge).Some? && NoFloors(t, edge.Axis(), r)
    requires edge.Axis().Of(r.settings.minimum) <= 0.0
    requires CutsHaveRoom(Dragged(t, leaf, edge, edgeAt, area, r), area.Inset(r.Gap()), r)
    ensures var u := Dragged(t, leaf, edge, edgeAt, area, r);
            var found := BoxOf(t, area.Inset(r.Gap()), r, SeamBeside(t, leaf, edge).value);
            found.Some? &&
              exists tile: Rect ::
                (Node(t, leaf).id, tile) in Layout(u, area, r) && LandsAt(edge, tile, edgeAt, found.value, r.Gap())
  {
    hide CutsHaveRoom, Layout, Dragged, Room, Reached, LandsAt, BoxOf, Node;
    var seam := SeamBeside(t, leaf, edge).value;
    var rect := area.Inset(r.Gap());
    SeamIsAbove(t, leaf, edge);
    NodeSlots(t, seam);
    BoxOfElsewhere(t, rect, r, seam);
    var (n, box) := (Node(t, seam), BoxOf(t, rect, r, seam).value);
    WholeRoom(n, box, r);
    DragLands(t, leaf, edge, edgeAt, area, r);
    var tile: Rect :|
      && (Node(t, leaf).id, tile) in Layout(Dragged(t, leaf, edge, edgeAt, area, r), area, r)
      && edge.Of(tile)
          == Clamp(edge.At(edgeAt), Reached(edge, 0.05, box, r.Gap()), Reached(edge, 0.95, box, r.Gap()));
    LandsPlainly(edge, tile, edgeAt, box, r.Gap());
  }

  lemma WholeRoom(n: Tree, rect: Rect, r: Rules)
    requires n.Split? && n.Proper() && NoFloors(n, n.axis, r) && n.axis.Of(r.settings.minimum) <= 0.0
    ensures Drawn(n, rect, r) == n.ratio && Room(n, rect, r) == (0.05, 0.95)
  {
    AsksNothing(n.first, n.axis, r);
    AsksNothing(n.second, n.axis, r);
    hide Ask;
  }
}
