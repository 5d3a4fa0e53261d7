/** That a press grows the window it was meant for. */
module Pressing {
  import opened Basics
  import opened Geometry
  import opened Dwindle
  import opened FloorsMet
  import opened Growing
  import opened Seams
  import opened Squeeze
  import opened Wide

  /** A press moves the nearest seam after the window, as it was asked to; with none, the
      nearest before it, the other way; and nothing where there is neither. */
  lemma PressedSeamIs(t: Tree, leaf: nat, axis: Axis, growth: real)
    requires t.Proper()
    ensures var (after, before) := if axis == Vertical then (Right, Left) else (Bottom, Top);
            match PressSeam(t, leaf, axis, growth)
            case Some(moved) =>
              || (Nearest(t, leaf, after, moved.0) && moved.1 == growth)
              || (Nearest(t, leaf, before, moved.0) && moved.1 == -growth
                  && forall at :: at in t.Slots() ==> !Bears(Node(t, at), leaf, after))
            case None =>
              forall at :: at in t.Slots() ==> !Bears(Node(t, at), leaf, after) && !Bears(Node(t, at), leaf, before)
  {
    hide SeamBeside, Nearest, Bears;
    SeamIsNearest(t, leaf, if axis == Vertical then Right else Bottom);
    SeamIsNearest(t, leaf, if axis == Vertical then Left else Top);
  }

  // ---- A side that gets more ----

  /** Each tile of more than a pixel is longer. */
  ghost predicate Stretched(before: seq<(Id, Rect)>, after: seq<(Id, Rect)>, axis: Axis) {
    && |before| == |after|
    && forall i :: 0 <= i < |before| && axis.Extent(before[i].1) > 1.0 ==>
         axis.Extent(before[i].1) < axis.Extent(after[i].1)
  }

  lemma {:induction false} TilesOfAPixelAtMost(t: Tree, rect: Rect, r: Rules, axis: Axis)
    requires r.Gap() >= 0.0 && axis.Extent(rect) <= 1.0
    ensures forall i :: 0 <= i < |Place(t, rect, r)| ==> axis.Extent(Place(t, rect, r)[i].1) <= 1.0
  {
    if t.Split? {
      var (one, two) := Halves(t, rect, r);
      HalvesAre(t, rect, r);
      if t.axis == axis {
        var room := axis.Extent(rect) - r.Gap();
        if room < 1.0 { PartUnderAPixel(room, Drawn(t, rect, r)); } else { HeldLength(room, Drawn(t, rect, r)); }
      }
      hide Halves, Part, Drawn;
      TilesOfAPixelAtMost(t.first, one, r, axis);
      TilesOfAPixelAtMost(t.second, two, r, axis);
    }
  }

  /** Both parts of a longer span are longer. */
  lemma PartsStretch(span: real, more: real, ratio: real)
    requires span < more
    ensures Part(span, ratio) < Part(more, ratio) && span - Part(span, ratio) < more - Part(more, ratio)
  {
    HeldParts(span, more, Held(ratio));
  }

  lemma HeldParts(span: real, more: real, share: real)
    requires span < more && 0.05 <= share <= 0.95
    ensures span * share < more * share && span - span * share < more - more * share
  {
    PositiveProduct(more - span, share);
    PositiveProduct(more - span, 1.0 - share);
    assert (more - span) * share == more * share - span * share;
    assert (more - span) * (1.0 - share) == (more - more * share) - (span - span * share);
  }

  lemma PositiveProduct(a: real, b: real)
    requires a > 0.0 && b > 0.0
    ensures a * b > 0.0
  {}

  lemma HalvesStretch(t: Tree, a: Rect, b: Rect, r: Rules)
    requires t.Split? && Drawn(t, a, r) == t.ratio == Drawn(t, b, r) && t.axis.Extent(a) < t.axis.Extent(b)
    ensures var ((one, two), (one', two')) := (Halves(t, a, r), Halves(t, b, r));
            && (t.axis.Extent(one) < t.axis.Extent(one') || t.axis.Extent(one) <= 1.0)
            && (t.axis.Extent(two) < t.axis.Extent(two') || t.axis.Extent(two) <= 1.0)
  {
    HalvesAre(t, a, r);
    HalvesAre(t, b, r);
    var (room, more) := (t.axis.Extent(a) - r.Gap(), t.axis.Extent(b) - r.Gap());
    PartsStretch(room, more, t.ratio);
    hide Part, Drawn, Halves;
    LengthsStretch(room, more, Part(room, t.ratio), Part(more, t.ratio));
  }

  lemma LengthsStretch(room: real, more: real, one: real, one': real)
    requires room < more && one < one' && room - one < more - one'
    ensures var (first, first') := (Max(one, 1.0), Max(one', 1.0));
            && (first < first' || first <= 1.0)
            && (Max(room - first, 1.0) < Max(more - first', 1.0) || Max(room - first, 1.0) <= 1.0)
  {}

  /** In a longer box where nothing pulls every tile of more than a pixel is longer. */
  lemma {:induction false} TilesStretch(t: Tree, a: Rect, b: Rect, r: Rules, axis: Axis)
    requires r.Gap() >= 0.0 && Toll(t, axis, r) == 0.0
    requires axis.Extent(a) < axis.Extent(b) || axis.Extent(a) <= 1.0
    ensures Stretched(Place(t, a, r), Place(t, b, r), axis)
  {
    PlacesWindows(t, a, r);
    PlacesWindows(t, b, r);
    if axis.Extent(a) <= 1.0 {
      TilesOfAPixelAtMost(t, a, r, axis);
    } else if t.Split? {
      var ((one, two), (one', two')) := (Halves(t, a, r), Halves(t, b, r));
      if t.axis == axis {
        NoTollNoMoves(t, a, r, axis);
        NoTollNoMoves(t, b, r, axis);
        HalvesStretch(t, a, b, r);
      } else {
        HalvesAre(t, a, r);
        HalvesAre(t, b, r);
      }
      hide Halves, Drawn, AsHeld;
      TilesStretch(t.first, one, one', r, axis);
      TilesStretch(t.second, two, two', r, axis);
    }
  }

  // ---- What a seam gives the side it is moved away from ----

  /** The tiles of some windows after a seam moved: no shorter, but for the toll, and longer
      where nothing pulls and the seam moved at all. */
  ghost predicate Gains(before: seq<(Id, Rect)>, after: seq<(Id, Rect)>, ids: set<Id>, axis: Axis, toll: real,
                        moved: bool) {
    && |before| == |after|
    && forall i :: 0 <= i < |before| && before[i].0 in ids ==>
         && after[i].0 == before[i].0
         && axis.Extent(before[i].1) - toll <= axis.Extent(after[i].1)
         && (toll == 0.0 && moved && axis.Extent(before[i].1) > 1.0 ==>
               axis.Extent(before[i].1) < axis.Extent(after[i].1))
  }

  lemma SideGains(t: Tree, a: Rect, b: Rect, r: Rules, axis: Axis, moved: bool)
    requires r.Gap() >= 0.0 && axis.Extent(a) <= axis.Extent(b) && axis.Across().Extent(a) == axis.Across().Extent(b)
    requires moved ==> axis.Extent(a) < axis.Extent(b) || axis.Extent(a) <= 1.0
    ensures Gains(Place(t, a, r), Place(t, b, r), t.Ids(), axis, Toll(t, axis, r), moved)
  {
    hide Place, Toll;
    PlacesWindows(t, a, r);
    PlacesWindows(t, b, r);
    TilesGrow(t, a, b, r, axis, 0.0);
    if moved && Toll(t, axis, r) == 0.0 { TilesStretch(t, a, b, r, axis); }
  }

  /** Whether a seam moved anything at all: off its place, and from a first half that was
      more than the pixel it never goes under. */
  ghost predicate Moves(n: Tree, rect: Rect, r: Rules, ratio: real)
    requires n.Split?
  {
    ratio != Drawn(n, rect, r) && n.axis.Extent(Halves(n, rect, r).0) > 1.0
  }

  lemma SeamGives(n: Tree, rect: Rect, r: Rules, ratio: real)
    requires n.Split? && n.Proper() && r.Gap() >= 0.0
    requires Room(n, rect, r).0 <= ratio <= Room(n, rect, r).1
    ensures var ((one, two), (one', two')) := (Halves(n, rect, r), Halves(n.(ratio := ratio), rect, r));
            var (axis, moved) := (n.axis, Moves(n, rect, r, ratio));
            && (ratio >= Drawn(n, rect, r) ==>
                  axis.Extent(one) <= axis.Extent(one') && (moved ==> axis.Extent(one) < axis.Extent(one')))
            && (ratio <= Drawn(n, rect, r) ==>
                  && axis.Extent(two) <= axis.Extent(two')
                  && (moved ==> axis.Extent(two) < axis.Extent(two') || axis.Extent(two) <= 1.0))
  {
    hide Room, Drawn, Halves, Part;
    RoomExactly(n, rect, r);
    DrawnInRoom(n, rect, r, ratio);
    HalvesAre(n, rect, r);
    HalvesAre(n.(ratio := ratio), rect, r);
    var (room, current) := (n.axis.Extent(rect) - r.Gap(), Drawn(n, rect, r));
    if room < 1.0 {
      PartUnderAPixel(room, ratio);
      PartUnderAPixel(room, current);
    } else {
      PartWithin(room, ratio);
      PartWithin(room, current);
      hide Times;
      TimesOrder(ratio, current, room);
      TimesOrder(current, ratio, room);
    }
  }

  /** The ids on a leaf's side of a split. */
  function SideIds(n: Tree, leaf: nat): set<Id>
    requires n.Split?
  {
    if leaf in n.first.Slots() then n.first.Ids() else n.second.Ids()
  }

  lemma JoinedGains(before: seq<(Id, Rect)>, after: seq<(Id, Rect)>, rest: seq<(Id, Rect)>, other: seq<(Id, Rect)>,
                    ids: set<Id>, axis: Axis, toll: real, moved: bool)
    requires Gains(before, after, ids, axis, toll, moved) && |rest| == |other|
    requires forall i :: 0 <= i < |rest| ==> rest[i].0 !in ids
    ensures Gains(before + rest, after + other, ids, axis, toll, moved)
    ensures Gains(rest + before, other + after, ids, axis, toll, moved)
  {}

  lemma IdsAreElsewhere(t: Tree, rect: Rect, r: Rules, ids: set<Id>)
    requires ids !! t.Ids()
    ensures forall i :: 0 <= i < |Place(t, rect, r)| ==> Place(t, rect, r)[i].0 !in ids
  {
    PlacesWindows(t, rect, r);
    WindowsAre(t);
    hide Place;
  }

  /** A seam moved away from a leaf gives its side more. */
  lemma SeamGains(n: Tree, rect: Rect, r: Rules, ratio: real, leaf: nat)
    requires n.Split? && n.Proper() && r.Gap() >= 0.0 && leaf in n.Slots() && leaf != n.at
    requires Room(n, rect, r).0 <= ratio <= Room(n, rect, r).1
    requires if leaf in n.first.Slots() then ratio >= Drawn(n, rect, r) else ratio <= Drawn(n, rect, r)
    ensures Gains(Place(n, rect, r), Place(n.(ratio := ratio), rect, r), SideIds(n, leaf), n.axis, SidesToll(n, r),
                  SidesToll(n, r) == 0.0 && Moves(n, rect, r, ratio))
  {
    hide Room, Drawn, Halves, Gains, Toll, Moves;
    var ((one, two), (one', two')) := (Halves(n, rect, r), Halves(n.(ratio := ratio), rect, r));
    var moved := SidesToll(n, r) == 0.0 && Moves(n, rect, r, ratio);
    SeamGives(n, rect, r, ratio);
    HalvesAre(n, rect, r);
    HalvesAre(n.(ratio := ratio), rect, r);
    PlacesWindows(n.first, one, r);
    PlacesWindows(n.first, one', r);
    PlacesWindows(n.second, two, r);
    PlacesWindows(n.second, two', r);
    var (left, left') := (Place(n.first, one, r), Place(n.first, one', r));
    var (right, right') := (Place(n.second, two, r), Place(n.second, two', r));
    if leaf in n.first.Slots() {
      SideGains(n.first, one, one', r, n.axis, moved);
      IdsAreElsewhere(n.second, two, r, n.first.Ids());
      MoreToll(left, left', n.first.Ids(), n.axis, Toll(n.first, n.axis, r), SidesToll(n, r), moved);
      JoinedGains(left, left', right, right', n.first.Ids(), n.axis, SidesToll(n, r), moved);
    } else {
      SideGains(n.second, two, two', r, n.axis, moved);
      IdsAreElsewhere(n.first, one, r, n.second.Ids());
      MoreToll(right, right', n.second.Ids(), n.axis, Toll(n.second, n.axis, r), SidesToll(n, r), moved);
      JoinedGains(right, right', left, left', n.second.Ids(), n.axis, SidesToll(n, r), moved);
    }
  }

  lemma MoreToll(before: seq<(Id, Rect)>, after: seq<(Id, Rect)>, ids: set<Id>, axis: Axis, toll: real, more: real,
                 moved: bool)
    requires Gains(before, after, ids, axis, toll, moved) && 0.0 <= toll <= more
    ensures Gains(before, after, ids, axis, more, moved)
  {}

  /** The same in the whole tree, however far up the seam is. */
  lemma {:induction false} TreeGains(t: Tree, rect: Rect, r: Rules, seam: nat, ratio: real, leaf: nat)
    requires t.Proper() && r.Gap() >= 0.0
    requires seam in t.Slots() && Node(t, seam).Split? && BoxOf(t, rect, r, seam).Some?
    requires var (n, box) := (Node(t, seam), BoxOf(t, rect, r, seam).value);
             && leaf in n.Slots() && leaf != n.at && Room(n, box, r).0 <= ratio <= Room(n, box, r).1
             && if leaf in n.first.Slots() then ratio >= Drawn(n, box, r) else ratio <= Drawn(n, box, r)
    ensures var (n, box) := (Node(t, seam), BoxOf(t, rect, r, seam).value);
            Gains(Place(t, rect, r), Place(SetRatio(t, seam, ratio), rect, r), SideIds(n, leaf), n.axis,
                  SidesToll(n, r), SidesToll(n, r) == 0.0 && Moves(n, box, r, ratio))
  {
    hide Room, Drawn, Gains, Toll, Moves, Cut;
    if t.at == seam {
      SeamGains(t, rect, r, ratio, leaf);
    } else {
      var (n, box) := (Node(t, seam), BoxOf(t, rect, r, seam).value);
      var moved := SidesToll(n, r) == 0.0 && Moves(n, box, r, ratio);
      var (one, two) := Halves(t, rect, r);
      DrawnKeeps(t, seam, ratio, rect, r);
      BoxOfElsewhere(t.first, one, r, seam);
      SetRatioKeeps(t.first, seam, ratio);
      SetRatioKeeps(t.second, seam, ratio);
      hide Halves;
      if seam in t.first.Slots() {
        NodeSlots(t.first, seam);
        TreeGains(t.first, one, r, seam, ratio, leaf);
        IdsAreElsewhere(t.second, two, r, SideIds(n, leaf));
        JoinedGains(Place(t.first, one, r), Place(SetRatio(t.first, seam, ratio), one, r), Place(t.second, two, r),
                    Place(t.second, two, r), SideIds(n, leaf), n.axis, SidesToll(n, r), moved);
      } else {
        NodeSlots(t.second, seam);
        TreeGains(t.second, two, r, seam, ratio, leaf);
        IdsAreElsewhere(t.first, one, r, SideIds(n, leaf));
        JoinedGains(Place(t.second, two, r), Place(SetRatio(t.second, seam, ratio), two, r), Place(t.first, one, r),
                    Place(t.first, one, r), SideIds(n, leaf), n.axis, SidesToll(n, r), moved);
      }
    }
  }

  lemma {:induction false} LeafId(t: Tree, leaf: nat)
    requires leaf in t.Slots() && Node(t, leaf).Leaf?
    ensures Node(t, leaf).id in t.Ids()
  {
    if t.Split? {
      if leaf in t.first.Slots() { LeafId(t.first, leaf); } else if leaf in t.second.Slots() { LeafId(t.second, leaf); }
    }
  }

  /** The leaf's own window is one of those on its side of a split above it. */
  lemma {:induction false} OwnId(t: Tree, seam: nat, leaf: nat)
    requires t.Proper() && seam in t.Slots() && leaf in t.Slots() && Node(t, leaf).Leaf?
    requires Node(t, seam).Split? && leaf in Node(t, seam).Slots() && leaf != seam
    ensures Node(t, leaf).id in SideIds(Node(t, seam), leaf)
  {
    NodeSlots(t, leaf);
    if t.at == seam {
      if leaf in t.first.Slots() { LeafId(t.first, leaf); } else { LeafId(t.second, leaf); }
    } else if seam in t.first.Slots() {
      NodeSlots(t.first, seam);
      OwnId(t.first, seam, leaf);
    } else {
      NodeSlots(t.second, seam);
      OwnId(t.second, seam, leaf);
    }
  }

  /** Whether a press of the seam it finds has somewhere to go. */
  ghost predicate HasRoom(t: Tree, leaf: nat, axis: Axis, growth: real, area: Rect, r: Rules) {
    var (moved, rect) := (PressSeam(t, leaf, axis, growth), area.Inset(r.Gap()));
    moved.Some? && DrawnWithin(t, rect, r, moved.value.0) &&
      var (n, box) := (Node(t, moved.value.0), BoxOf(t, rect, r, moved.value.0).value);
      && (if leaf in n.first.Slots() then Drawn(n, box, r) < Room(n, box, r).1 else Room(n, box, r).0 < Drawn(n, box, r))
      && n.axis.Extent(Halves(n, box, r).0) > 1.0 && SidesToll(n, r) == 0.0
  }

  /** The seam moves away from the window. */
  lemma PressedAway(t: Tree, leaf: nat, axis: Axis, growth: real)
    requires t.Proper() && PressSeam(t, leaf, axis, growth).Some? && leaf in t.Slots() && Node(t, leaf).Leaf?
    ensures var (seam, towards) := PressSeam(t, leaf, axis, growth).value;
            && seam in t.Slots() && Node(t, seam).Split? && Node(t, seam).axis == axis
            && leaf in Node(t, seam).Slots() && leaf != seam
            && towards == if leaf in Node(t, seam).first.Slots() then growth else -growth
  {
    hide PressSeam;
    PressedSeamIs(t, leaf, axis, growth);
    NodeSlots(t, PressSeam(t, leaf, axis, growth).value.0);
  }

  lemma RoomHolds(n: Tree, rect: Rect, r: Rules)
    requires n.Split? && 0.05 <= Drawn(n, rect, r) <= 0.95
    ensures Room(n, rect, r).0 <= Drawn(n, rect, r) <= Room(n, rect, r).1
  {
    hide Bounds, Drawn;
  }

  /** What a seam in a slot gives a leaf's tile. */
  lemma LeafGains(t: Tree, rect: Rect, r: Rules, seam: nat, ratio: real, leaf: nat, moved: bool)
    requires t.Proper() && r.Gap() >= 0.0 && leaf in t.Slots() && Node(t, leaf).Leaf?
    requires seam in t.Slots() && Node(t, seam).Split? && leaf in Node(t, seam).Slots() && leaf != seam
    requires DrawnWithin(t, rect, r, seam)
    requires var (n, box) := (Node(t, seam), BoxOf(t, rect, r, seam).value);
             && Room(n, box, r).0 <= ratio <= Room(n, box, r).1
             && (if leaf in n.first.Slots() then ratio >= Drawn(n, box, r) else ratio <= Drawn(n, box, r))
             && (moved ==> SidesToll(n, r) == 0.0 && Moves(n, box, r, ratio))
    ensures Gains(Place(t, rect, r), Place(SetRatio(t, seam, ratio), rect, r), {Node(t, leaf).id}, Node(t, seam).axis,
                  SidesToll(Node(t, seam), r), moved)
  {
    hide Room, Drawn, Toll, Place, Moves;
    var n := Node(t, seam);
    NodeSlots(t, seam);
    OwnId(t, seam, leaf);
    TreeGains(t, rect, r, seam, ratio, leaf);
  }

  lemma NonePressed(t: Tree, leaf: nat, axis: Axis, growth: real, area: Rect, r: Rules)
    ensures PressSeam(t, leaf, axis, growth).None? ==> Pressed(t, leaf, axis, growth, area, r) == t
  {
    hide PressSeam, Room;
  }

  lemma GainsNone(t: Tree, rect: Rect, r: Rules, ids: set<Id>, axis: Axis, toll: real)
    requires toll >= 0.0
    ensures Gains(Place(t, rect, r), Place(t, rect, r), ids, axis, toll, false)
  {}

  /** A press to grow never makes the pressed window's own tile shorter, but for the toll of
      the seam it moves, and makes a tile of more than a pixel longer where nothing beside
      the seam pulls and its room goes on. */
  lemma PressGrows(t: Tree, leaf: nat, axis: Axis, growth: real, area: Rect, r: Rules)
    requires t.Proper() && r.Gap() >= 0.0 && growth > 0.0 && leaf in t.Slots() && Node(t, leaf).Leaf?
    ensures var moved := PressSeam(t, leaf, axis, growth);
            var u := Pressed(t, leaf, axis, growth, area, r);
            if moved.None? then u == t else
            moved.value.0 in t.Slots() && Node(t, moved.value.0).Split? &&
              Gains(Layout(t, area, r), Layout(u, area, r), {Node(t, leaf).id}, axis,
                    SidesToll(Node(t, moved.value.0), r), HasRoom(t, leaf, axis, growth, area, r))
  {
    hide Pressed, PressSeam, Room, Drawn, Gains, Toll, Place, Halves, SetRatio, BoxOf;
    NonePressed(t, leaf, axis, growth, area, r);
    if PressSeam(t, leaf, axis, growth).Some? {
      PressedAway(t, leaf, axis, growth);
      var seam := PressSeam(t, leaf, axis, growth).value.0;
      var rect := area.Inset(r.Gap());
      var ratio := PressedRatio(t, leaf, axis, growth, area, r);
      if DrawnWithin(t, rect, r, seam) {
        RoomHolds(Node(t, seam), BoxOf(t, rect, r, seam).value, r);
        LeafGains(t, rect, r, seam, ratio, leaf, HasRoom(t, leaf, axis, growth, area, r));
      } else {
        GainsNone(t, rect, r, {Node(t, leaf).id}, axis, SidesToll(Node(t, seam), r));
      }
    }
  }
}
