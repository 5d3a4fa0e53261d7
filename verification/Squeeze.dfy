/** What moving a seam does to the tiles beyond it, at any depth: when none is squeezed
    past the minimum, and what one may lose to rebalancing. */
module Squeeze {
  import opened Geometry
  import opened Dwindle
  import opened FloorsMet
  import opened Growing
  import opened Seams

  // ---- A longer box has longer tiles, but for rebalancing ----

  /** Whether a split may be rebalanced: one of its children pulls. */
  predicate Pulls(t: Tree, r: Rules)
    requires t.Split?
  {
    Ask(t.first, t.axis, r).pull > 0.0 || Ask(t.second, t.axis, r).pull > 0.0
  }

  /** What a longer box may cost a tile: one SLACK for each split above it that may be
      rebalanced along the axis. It is 0 where no child pulls. */
  function Toll(t: Tree, axis: Axis, r: Rules): (toll: real)
    ensures toll >= 0.0
  {
    if t.Leaf? then 0.0
    else
      Max(Toll(t.first, axis, r), Toll(t.second, axis, r)) + if t.axis == axis && Pulls(t, r) then SLACK else 0.0
  }

  lemma {:induction false} NoFloorsNoToll(t: Tree, axis: Axis, r: Rules)
    requires r.floors == map[]
    ensures Toll(t, axis, r) == 0.0
  {
    if t.Split? {
      NoFloorsNoToll(t.first, axis, r);
      NoFloorsNoToll(t.second, axis, r);
      PullsNothing(t.first, t.axis, r);
      PullsNothing(t.second, t.axis, r);
    }
  }

  /** The halves of a split in two boxes of one extent across `axis`, the second no
      shorter along it but for `loss`. */
  lemma HalvesFollow(t: Tree, a: Rect, b: Rect, r: Rules, axis: Axis, loss: real)
    requires t.Split? && r.Gap() >= 0.0 && loss >= 0.0
    requires axis.Extent(a) - loss <= axis.Extent(b) && axis.Across().Extent(a) == axis.Across().Extent(b)
    ensures var ((one, two), (one', two')) := (Halves(t, a, r), Halves(t, b, r));
            var more := loss + if t.axis == axis && Pulls(t, r) then SLACK else 0.0;
            && axis.Extent(one) - more <= axis.Extent(one') && axis.Across().Extent(one) == axis.Across().Extent(one')
            && axis.Extent(two) - more <= axis.Extent(two') && axis.Across().Extent(two) == axis.Across().Extent(two')
  {
    HalvesLong(t, a, r);
    HalvesLong(t, b, r);
    if t.axis == axis {
      AskSound(t.first, axis, r);
      AskSound(t.second, axis, r);
      hide FirstLong, SecondLong, Halves, Ask;
      var (first, second) := (Ask(t.first, axis, r), Ask(t.second, axis, r));
      var (room, more) := (axis.Extent(a) - r.Gap(), axis.Extent(b) - r.Gap());
      FirstGrows(room, more, t.ratio, first, first, second, loss, if Pulls(t, r) then SLACK else 0.0);
      SecondGrows(room, more, t.ratio, first, second, second, loss, if Pulls(t, r) then SLACK else 0.0);
    }
  }

  /** Tile by tile no shorter, but for `loss`; across, as long. */
  ghost predicate Follow(before: seq<(Id, Rect)>, after: seq<(Id, Rect)>, axis: Axis, loss: real) {
    && |before| == |after|
    && forall i :: 0 <= i < |before| ==>
         && axis.Extent(before[i].1) - loss <= axis.Extent(after[i].1)
         && axis.Across().Extent(before[i].1) == axis.Across().Extent(after[i].1)
  }

  lemma FollowBoth(a: seq<(Id, Rect)>, b: seq<(Id, Rect)>, c: seq<(Id, Rect)>, d: seq<(Id, Rect)>, axis: Axis,
                   one: real, two: real, loss: real)
    requires Follow(a, b, axis, one) && Follow(c, d, axis, two) && one <= loss && two <= loss
    ensures Follow(a + c, b + d, axis, loss)
  {}

  lemma LeafFollows(t: Tree, a: Rect, b: Rect, r: Rules, axis: Axis, loss: real)
    requires t.Leaf? && axis.Extent(a) - loss <= axis.Extent(b) && axis.Across().Extent(a) == axis.Across().Extent(b)
    ensures Follow(Place(t, a, r), Place(t, b, r), axis, loss + Toll(t, axis, r))
  {}

  lemma TollIs(t: Tree, axis: Axis, r: Rules)
    requires t.Split?
    ensures Toll(t, axis, r) == Max(Toll(t.first, axis, r), Toll(t.second, axis, r))
                                + if t.axis == axis && Pulls(t, r) then SLACK else 0.0
  {}

  /** No tile of a subtree gets shorter when the subtree's box gets longer, but for the
      toll, and none changes across it. */
  lemma {:induction false} TilesGrow(t: Tree, a: Rect, b: Rect, r: Rules, axis: Axis, loss: real)
    requires r.Gap() >= 0.0 && loss >= 0.0
    requires axis.Extent(a) - loss <= axis.Extent(b) && axis.Across().Extent(a) == axis.Across().Extent(b)
    ensures Follow(Place(t, a, r), Place(t, b, r), axis, loss + Toll(t, axis, r))
  {
    hide Halves, Pulls, Follow, Toll, Ask;
    if t.Leaf? {
      LeafFollows(t, a, b, r, axis, loss);
    } else {
      var more := loss + if t.axis == axis && Pulls(t, r) then SLACK else 0.0;
      var ((one, two), (one', two')) := (Halves(t, a, r), Halves(t, b, r));
      HalvesFollow(t, a, b, r, axis, loss);
      TollIs(t, axis, r);
      TilesGrow(t.first, one, one', r, axis, more);
      TilesGrow(t.second, two, two', r, axis, more);
      FollowBoth(Place(t.first, one, r), Place(t.first, one', r), Place(t.second, two, r), Place(t.second, two', r),
                 axis, more + Toll(t.first, axis, r), more + Toll(t.second, axis, r), loss + Toll(t, axis, r));
    }
  }

  /** The toll is taken: in a room of 198 a child that pulls for 100 is given 100, and in
      one of 200 less two SLACK it is not short and has 100 less one. */
  lemma TollIsTaken()
    ensures FirstLong(198.0, 0.5, Need(100.0, 100.0), Need(0.0, 0.0)) == 100.0
    ensures FirstLong(200.0 - 2.0 * SLACK, 0.5, Need(100.0, 100.0), Need(0.0, 0.0)) == 100.0 - SLACK
  {
    var (first, second) := (Need(100.0, 100.0), Need(0.0, 0.0));
    hide Moved, FirstLong, Part;
    HeldLength(198.0, 0.5);
    HeldLength(200.0 - 2.0 * SLACK, 0.5);
    LongHeld(198.0, 0.5, first, second);
    LongHeld(200.0 - 2.0 * SLACK, 0.5, first, second);
    MovedOnce();
  }

  lemma MovedOnce()
    ensures Moved(99.0, 99.0, Need(100.0, 100.0), Need(0.0, 0.0)) == 100.0
    ensures Moved(100.0 - SLACK, 100.0 - SLACK, Need(100.0, 100.0), Need(0.0, 0.0)) == 100.0 - SLACK
  {}

  // ---- How long a box must be for its tiles ----

  lemma ShareServes(room: real, ratio: real, one: real, two: real)
    requires room >= Max(one / Held(ratio), two / (1.0 - Held(ratio)))
    ensures Part(room, ratio) >= one && room - Part(room, ratio) >= two
  {
    ShareServed(one, Held(ratio), room);
    ShareServed(two, 1.0 - Held(ratio), room);
    assert room * (1.0 - Held(ratio)) == room - room * Held(ratio);
  }

  lemma ShareServed(length: real, share: real, room: real)
    requires share > 0.0 && room >= length / share
    ensures room * share >= length
  {
    Quotient(length, share);
    Scale(room, length / share, share);
  }

  /** No tile is shorter than `least`. */
  ghost predicate AllLong(out: seq<(Id, Rect)>, axis: Axis, least: real) {
    forall i :: 0 <= i < |out| ==> axis.Extent(out[i].1) >= least
  }

  lemma LongParts(left: seq<(Id, Rect)>, right: seq<(Id, Rect)>, axis: Axis, least: real)
    requires AllLong(left + right, axis, least)
    ensures AllLong(left, axis, least) && AllLong(right, axis, least)
  {
    assert forall i :: 0 <= i < |left| ==> left[i] == (left + right)[i];
    assert forall i :: 0 <= i < |right| ==> right[i] == (left + right)[|left| + i];
  }

  /** Halves are a pixel or longer, so no tile is under a bound that is at most that. */
  lemma {:induction false} TilesOfAPixel(t: Tree, rect: Rect, r: Rules, axis: Axis, least: real)
    requires least <= 1.0 && axis.Extent(rect) >= least
    ensures AllLong(Place(t, rect, r), axis, least)
  {
    if t.Split? {
      var (one, two) := Halves(t, rect, r);
      HalvesAre(t, rect, r);
      hide Part, Halves, Drawn;
      TilesOfAPixel(t.first, one, r, axis, least);
      TilesOfAPixel(t.second, two, r, axis, least);
    }
  }

  lemma {:induction false} FloorAtLeast(t: Tree, axis: Axis, least: real, gap: real)
    requires least >= 0.0 && gap >= 0.0
    ensures FloorAlong(t, axis, least, gap) >= least
  {
    if t.Split? {
      FloorAtLeast(t.first, axis, least, gap);
      FloorAtLeast(t.second, axis, least, gap);
      ShareIsLonger(FloorAlong(t.first, axis, least, gap), Held(t.ratio));
    }
  }

  lemma ShareIsLonger(length: real, share: real)
    requires length >= 0.0 && 0.0 < share <= 1.0
    ensures length / share >= length
  {
    Quotient(length, share);
    if length / share < length {
      Scale(length / share, length, share);
      Product(length, 1.0 - share);
    }
  }

  /** No split along an axis is rebalanced: each is drawn at the ratio it holds. */
  ghost predicate AsHeld(t: Tree, rect: Rect, r: Rules, axis: Axis) {
    t.Split? ==>
      var (one, two) := Halves(t, rect, r);
      && (t.axis == axis ==> Drawn(t, rect, r) == t.ratio)
      && AsHeld(t.first, one, r, axis) && AsHeld(t.second, two, r, axis)
  }

  /** So it is in any box where no child pulls. */
  lemma {:induction false} NoTollNoMoves(t: Tree, rect: Rect, r: Rules, axis: Axis)
    requires Toll(t, axis, r) == 0.0 && r.Gap() >= 0.0
    ensures AsHeld(t, rect, r, axis)
  {
    if t.Split? {
      AskSound(t.first, t.axis, r);
      AskSound(t.second, t.axis, r);
      NoTollNoMoves(t.first, Halves(t, rect, r).0, r, axis);
      NoTollNoMoves(t.second, Halves(t, rect, r).1, r, axis);
    }
  }

  /** Whether a box of some length, laid out, leaves each child of a split the length that
      child needs for every tile of it to be `least` long. A cut sees to the first pixel. */
  ghost predicate Spares(t: Tree, length: real, least: real, r: Rules)
    requires t.Split?
  {
    var (first, second) := (Ask(t.first, t.axis, r), Ask(t.second, t.axis, r));
    least > 1.0 ==>
      && FirstLong(length - r.Gap(), t.ratio, first, second) >= FloorAlong(t.first, t.axis, least, r.Gap())
      && SecondLong(length - r.Gap(), t.ratio, first, second) >= FloorAlong(t.second, t.axis, least, r.Gap())
  }

  /** So at every split of a subtree along an axis, in a box of the length that split needs
      itself. The subtree's own box is known to be at least `from` long. */
  ghost predicate Spared(t: Tree, axis: Axis, least: real, from: real, r: Rules) {
    t.Split? ==>
      && (t.axis == axis ==> Spares(t, Max(from, FloorAlong(t, axis, least, r.Gap())), least, r))
      && Spared(t.first, axis, least, if t.axis == axis then 0.0 else from, r)
      && Spared(t.second, axis, least, if t.axis == axis then 0.0 else from, r)
  }

  /** Two lengths at a seam, and two at least as long: where the shorter are still as long
      as asked once the seam has moved, so are the longer. */
  lemma MovedSpares(one: real, two: real, one': real, two': real, first: Need, second: Need, f: real, g: real)
    requires first.Sound() && second.Sound() && 1.0 < f <= one <= one' && 1.0 < g <= two <= two'
    requires var (span, span') := (one + two, one' + two');
             && span * 0.05 <= one <= span * 0.95 && span' * 0.05 <= one' <= span' * 0.95
             && var at := Clamp(Moved(one, two, first, second), span * 0.05, span * 0.95);
                f <= at && g <= span - at
    ensures var span' := one' + two';
            var at := Clamp(Moved(one', two', first, second), span' * 0.05, span' * 0.95);
            f <= at && g <= span' - at
  {}

  /** In lengths: a room that spares both children, and a longer one. */
  lemma RoomSpares(room: real, more: real, ratio: real, first: Need, second: Need, f: real, g: real)
    requires first.Sound() && second.Sound() && room <= more && 1.0 < f && 1.0 < g
    requires Part(room, ratio) >= f && room - Part(room, ratio) >= g
    requires FirstLong(room, ratio, first, second) >= f && SecondLong(room, ratio, first, second) >= g
    ensures FirstLong(more, ratio, first, second) >= f && SecondLong(more, ratio, first, second) >= g
  {
    hide Part, Moved, FirstLong;
    assert room >= 1.0 by {
      if room < 1.0 { PartUnderAPixel(room, ratio); }
    }
    LongHeld(room, ratio, first, second);
    LongHeld(more, ratio, first, second);
    PartsFollow(room, more, ratio);
    MovedSpares(Part(room, ratio), room - Part(room, ratio), Part(more, ratio), more - Part(more, ratio), first, second,
                f, g);
  }

  lemma LongHeld(room: real, ratio: real, first: Need, second: Need)
    requires room >= 1.0 && first.Sound() && second.Sound()
    ensures var (one, two) := (Part(room, ratio), room - Part(room, ratio));
            && room * 0.05 <= one <= room * 0.95
            && FirstLong(room, ratio, first, second)
                 == Max(Clamp(Moved(one, two, first, second), room * 0.05, room * 0.95), 1.0)
  {
    hide Part, Moved, FirstLong;
    LongInSpan(room, ratio, first, second);
    HeldLength(room, ratio);
    Unmoved(Part(room, ratio), room - Part(room, ratio), first, second);
  }

  /** What a split along the axis that spares its children gives them in any longer box. */
  lemma SparesMore(t: Tree, rect: Rect, r: Rules, least: real, from: real)
    requires t.Split? && r.Gap() >= 0.0 && least > 1.0
    requires var length := Max(from, FloorAlong(t, t.axis, least, r.Gap()));
             Spares(t, length, least, r) && t.axis.Extent(rect) >= length
    ensures t.axis.Extent(Halves(t, rect, r).0) >= FloorAlong(t.first, t.axis, least, r.Gap())
    ensures t.axis.Extent(Halves(t, rect, r).1) >= FloorAlong(t.second, t.axis, least, r.Gap())
  {
    var axis := t.axis;
    var (f, g) := (FloorAlong(t.first, axis, least, r.Gap()), FloorAlong(t.second, axis, least, r.Gap()));
    var room := Max(from, FloorAlong(t, axis, least, r.Gap())) - r.Gap();
    AskSound(t.first, axis, r);
    AskSound(t.second, axis, r);
    FloorAtLeast(t.first, axis, least, r.Gap());
    FloorAtLeast(t.second, axis, least, r.Gap());
    HalvesLong(t, rect, r);
    ShareServes(room, t.ratio, f, g);
    hide FirstLong, SecondLong, Part, Halves, Ask, FloorAlong;
    RoomSpares(room, axis.Extent(rect) - r.Gap(), t.ratio, Ask(t.first, axis, r), Ask(t.second, axis, r), f, g);
  }

  /** `FloorAlong` is enough: in a box that long every tile is `least` long, wherever
      rebalancing spares what it asks of each subtree. */
  lemma {:induction false} FloorSuffices(t: Tree, rect: Rect, r: Rules, axis: Axis, least: real, from: real)
    requires Spared(t, axis, least, from, r) && r.Gap() >= 0.0
    requires axis.Extent(rect) >= Max(from, FloorAlong(t, axis, least, r.Gap()))
    ensures AllLong(Place(t, rect, r), axis, least)
  {
    if t.Split? {
      var (one, two) := Halves(t, rect, r);
      HalvesAre(t, rect, r);
      if t.axis == axis && least <= 1.0 {
        TilesOfAPixel(t.first, one, r, axis, least);
        TilesOfAPixel(t.second, two, r, axis, least);
      } else {
        if t.axis == axis {
          SparesMore(t, rect, r, least, from);
          FloorAtLeast(t.first, axis, least, r.Gap());
          FloorAtLeast(t.second, axis, least, r.Gap());
        }
        hide Halves, Drawn, Spares;
        FloorSuffices(t.first, one, r, axis, least, if t.axis == axis then 0.0 else from);
        FloorSuffices(t.second, two, r, axis, least, if t.axis == axis then 0.0 else from);
      }
    }
  }

  /** Where no child pulls nothing is rebalanced, and everything is spared. */
  lemma {:induction false} NoTollSpares(t: Tree, axis: Axis, least: real, from: real, r: Rules)
    requires Toll(t, axis, r) == 0.0 && r.Gap() >= 0.0
    ensures Spared(t, axis, least, from, r)
  {
    if t.Split? {
      AskSound(t.first, t.axis, r);
      AskSound(t.second, t.axis, r);
      if t.axis == axis && least > 1.0 {
        var (f, g) := (FloorAlong(t.first, axis, least, r.Gap()), FloorAlong(t.second, axis, least, r.Gap()));
        FloorAtLeast(t.first, axis, least, r.Gap());
        FloorAtLeast(t.second, axis, least, r.Gap());
        ShareServes(Max(from, FloorAlong(t, axis, least, r.Gap())) - r.Gap(), t.ratio, f, g);
        hide Part, FloorAlong, Ask;
      }
      NoTollSpares(t.first, axis, least, if t.axis == axis then 0.0 else from, r);
      NoTollSpares(t.second, axis, least, if t.axis == axis then 0.0 else from, r);
    }
  }

  lemma MovedHolds(one: real, two: real, first: Need, second: Need, f: real, g: real)
    requires first.Sound() && second.Sound() && 0.0 < f <= one && 0.0 < g <= two
    requires var span := one + two; span * 0.05 <= one <= span * 0.95
    requires (f <= first.hold || second.pull <= 0.0) && (g <= second.hold || first.pull <= 0.0)
    ensures var span := one + two;
            var at := Clamp(Moved(one, two, first, second), span * 0.05, span * 0.95);
            f <= at && g <= span - at
  {}

  /** A child whose sibling pulls yields no more than down to what it holds: a split is
      spared where that is what each such child needs. */
  lemma HoldsSpare(t: Tree, length: real, least: real, r: Rules)
    requires t.Split? && r.Gap() >= 0.0 && length >= FloorAlong(t, t.axis, least, r.Gap())
    requires var (first, second) := (Ask(t.first, t.axis, r), Ask(t.second, t.axis, r));
             && (FloorAlong(t.first, t.axis, least, r.Gap()) <= first.hold || second.pull <= 0.0)
             && (FloorAlong(t.second, t.axis, least, r.Gap()) <= second.hold || first.pull <= 0.0)
    ensures Spares(t, length, least, r)
  {
    if least > 1.0 {
      var (f, g) := (FloorAlong(t.first, t.axis, least, r.Gap()), FloorAlong(t.second, t.axis, least, r.Gap()));
      var (first, second) := (Ask(t.first, t.axis, r), Ask(t.second, t.axis, r));
      var room := length - r.Gap();
      AskSound(t.first, t.axis, r);
      AskSound(t.second, t.axis, r);
      FloorAtLeast(t.first, t.axis, least, r.Gap());
      FloorAtLeast(t.second, t.axis, least, r.Gap());
      ShareServes(room, t.ratio, f, g);
      hide Part, Moved, FirstLong, Ask, FloorAlong;
      LongFits(room, t.ratio, first, second, f, g);
    }
  }

  lemma LongFits(room: real, ratio: real, first: Need, second: Need, f: real, g: real)
    requires first.Sound() && second.Sound() && 1.0 < f <= Part(room, ratio) && 1.0 < g <= room - Part(room, ratio)
    requires (f <= first.hold || second.pull <= 0.0) && (g <= second.hold || first.pull <= 0.0)
    ensures FirstLong(room, ratio, first, second) >= f && SecondLong(room, ratio, first, second) >= g
  {
    hide Part, Moved, FirstLong;
    assert room >= 1.0 by {
      if room < 1.0 { PartUnderAPixel(room, ratio); }
    }
    LongHeld(room, ratio, first, second);
    MovedHolds(Part(room, ratio), room - Part(room, ratio), first, second, f, g);
  }

  /** So two windows side by side are always spared the minimum, whatever their floors. */
  lemma LeavesSpared(t: Tree, axis: Axis, from: real, r: Rules)
    requires t.Split? && t.first.Leaf? && t.second.Leaf? && r.Gap() >= 0.0
    ensures Spared(t, axis, axis.Of(r.settings.minimum), from, r)
  {
    var least := axis.Of(r.settings.minimum);
    if t.axis == axis { HoldsSpare(t, Max(from, FloorAlong(t, axis, least, r.Gap())), least, r); }
  }

  lemma ShareNeeds(room: real, ratio: real, one: real, two: real)
    requires Part(room, ratio) >= one && room - Part(room, ratio) >= two
    ensures room >= Max(one / Held(ratio), two / (1.0 - Held(ratio)))
  {
    ShareNeeded(one, Held(ratio), room);
    ShareNeeded(two, 1.0 - Held(ratio), room);
    assert room * (1.0 - Held(ratio)) == room - room * Held(ratio);
  }

  lemma ShareNeeded(length: real, share: real, room: real)
    requires share > 0.0 && room * share >= length
    ensures room >= length / share
  {
    Quotient(length, share);
    Scale(room, length / share, share);
  }

  /** And `FloorAlong` is no more than enough: in a shorter box, with the seams where they
      are, some tile is shorter than `least`, for any bound of more than the pixel every
      tile has. */
  lemma {:induction false} FloorIsLeast(t: Tree, rect: Rect, r: Rules, axis: Axis, least: real)
    requires AsHeld(t, rect, r, axis) && r.Gap() >= 0.0 && least > 1.0
    requires AllLong(Place(t, rect, r), axis, least)
    ensures axis.Extent(rect) >= FloorAlong(t, axis, least, r.Gap())
  {
    if t.Leaf? {
      assert Place(t, rect, r)[0].1 == rect;
    } else {
      var (one, two) := Halves(t, rect, r);
      LongParts(Place(t.first, one, r), Place(t.second, two, r), axis, least);
      FloorIsLeast(t.first, one, r, axis, least);
      FloorIsLeast(t.second, two, r, axis, least);
      HalvesAre(t, rect, r);
      if t.axis == axis {
        FloorAtLeast(t.first, axis, least, r.Gap());
        FloorAtLeast(t.second, axis, least, r.Gap());
        hide Part, Halves, Drawn, Place;
        ShareNeeds(axis.Extent(rect) - r.Gap(), t.ratio, FloorAlong(t.first, axis, least, r.Gap()),
                   FloorAlong(t.second, axis, least, r.Gap()));
      }
    }
  }

  /** A split of subtrees in which nothing pulls: every box that is long enough for it has
      no tile shorter than `least`, exactly where it spares its children. */
  lemma SparesExactly(t: Tree, r: Rules, least: real, from: real)
    requires t.Split? && r.Gap() >= 0.0 && least > 1.0
    requires Toll(t.first, t.axis, r) == 0.0 && Toll(t.second, t.axis, r) == 0.0
    ensures Spares(t, Max(from, FloorAlong(t, t.axis, least, r.Gap())), least, r)
       <==> forall rect: Rect :: t.axis.Extent(rect) >= Max(from, FloorAlong(t, t.axis, least, r.Gap())) ==>
              AllLong(Place(t, rect, r), t.axis, least)
  {
    hide Spares, FloorAlong, Toll, Place;
    var axis, length := t.axis, Max(from, FloorAlong(t, t.axis, least, r.Gap()));
    if Spares(t, length, least, r) {
      NoTollSpares(t.first, axis, least, 0.0, r);
      NoTollSpares(t.second, axis, least, 0.0, r);
      forall rect: Rect | axis.Extent(rect) >= length
        ensures AllLong(Place(t, rect, r), axis, least)
      {
        FloorSuffices(t, rect, r, axis, least, from);
      }
    } else {
      var rect := Slab(Rect(0.0, 0.0, 1.0, 1.0), axis, 0.0, length);
      if AllLong(Place(t, rect, r), axis, least) {
        LongSpares(t, rect, r, least);
      }
      assert axis.Extent(rect) >= length && !AllLong(Place(t, rect, r), axis, least);
    }
  }

  lemma HalvesSpare(t: Tree, rect: Rect, r: Rules, least: real)
    requires t.Split?
    requires t.axis.Extent(Halves(t, rect, r).0) >= FloorAlong(t.first, t.axis, least, r.Gap())
    requires t.axis.Extent(Halves(t, rect, r).1) >= FloorAlong(t.second, t.axis, least, r.Gap())
    ensures Spares(t, t.axis.Extent(rect), least, r)
  {
    hide Halves, FloorAlong, FirstLong, SecondLong, Ask;
    HalvesLong(t, rect, r);
  }

  lemma LongSpares(t: Tree, rect: Rect, r: Rules, least: real)
    requires t.Split? && r.Gap() >= 0.0 && least > 1.0 && AllLong(Place(t, rect, r), t.axis, least)
    requires Toll(t.first, t.axis, r) == 0.0 && Toll(t.second, t.axis, r) == 0.0
    ensures Spares(t, t.axis.Extent(rect), least, r)
  {
    hide Halves, FloorAlong, Toll, AsHeld, AllLong, Spares;
    var (one, two) := Halves(t, rect, r);
    LongParts(Place(t.first, one, r), Place(t.second, two, r), t.axis, least);
    NoTollNoMoves(t.first, one, r, t.axis);
    NoTollNoMoves(t.second, two, r, t.axis);
    FloorIsLeast(t.first, one, r, t.axis, least);
    FloorIsLeast(t.second, two, r, t.axis, least);
    HalvesSpare(t, rect, r, least);
  }

  // ---- The tiles beyond a seam ----

  /** Each tile as long as it was, or as the minimum, but for `slack`; across, as it was. */
  ghost predicate Kept(before: seq<(Id, Rect)>, after: seq<(Id, Rect)>, axis: Axis, least: real, slack: real) {
    && |before| == |after|
    && forall i :: 0 <= i < |before| ==>
         && before[i].0 == after[i].0
         && axis.Extent(after[i].1) >= Min(axis.Extent(before[i].1), least) - slack
         && axis.Across().Extent(after[i].1) == axis.Across().Extent(before[i].1)
  }

  /** How short a side of a seam may be made: the room stops at what the minimum asks of
      it and at what it pulls towards. */
  function ShortestSide(t: Tree, axis: Axis, least: real, r: Rules): real {
    Max(Ask(t, axis, r).pull, FloorAlong(t, axis, least, r.Gap()))
  }

  /** One side of a seam: its box is no shorter than it was, or no shorter than it may be
      made. */
  lemma SideKept(t: Tree, a: Rect, b: Rect, r: Rules, axis: Axis, least: real)
    requires r.Gap() >= 0.0 && axis.Extent(b) >= 1.0 && Spared(t, axis, least, Ask(t, axis, r).pull, r)
    requires axis.Across().Extent(a) == axis.Across().Extent(b)
    requires axis.Extent(a) <= axis.Extent(b) || least <= 0.0 || axis.Extent(b) >= ShortestSide(t, axis, least, r)
    ensures Kept(Place(t, a, r), Place(t, b, r), axis, least, Toll(t, axis, r))
  {
    hide Spared, Ask, Place, FloorAlong, Toll;
    PlacesWindows(t, a, r);
    PlacesWindows(t, b, r);
    if axis.Extent(a) <= axis.Extent(b) {
      TilesGrow(t, a, b, r, axis, 0.0);
    } else {
      TilesGrow(t, b, a, r, axis, 0.0);
      if least <= 0.0 {
        TilesOfAPixel(t, b, r, axis, least);
      } else {
        FloorSuffices(t, b, r, axis, least, Ask(t, axis, r).pull);
      }
    }
  }

  /** Before and after a seam is put at `ratio` in its room: each side is as long as
      it was, or as it may be made. */
  lemma SidesInRoom(n: Tree, rect: Rect, r: Rules, ratio: real)
    requires n.Split? && n.Proper() && r.Gap() >= 0.0
    requires Room(n, rect, r).0 <= ratio <= Room(n, rect, r).1
    ensures var least := n.axis.Of(r.settings.minimum);
            var (one, two) := Halves(n, rect, r);
            var (first, second) := Halves(n.(ratio := ratio), rect, r);
            && (n.axis.Extent(one) <= n.axis.Extent(first) || least <= 0.0
                || n.axis.Extent(first) >= ShortestSide(n.first, n.axis, least, r))
            && (n.axis.Extent(two) <= n.axis.Extent(second) || least <= 0.0
                || n.axis.Extent(second) >= ShortestSide(n.second, n.axis, least, r))
  {
    hide Part, FloorAlong, Drawn, Halves, Ask;
    var room := n.axis.Extent(rect) - r.Gap();
    RoomExactly(n, rect, r);
    DrawnInRoom(n, rect, r, ratio);
    HalvesAre(n, rect, r);
    HalvesAre(n.(ratio := ratio), rect, r);
    var least := n.axis.Of(r.settings.minimum);
    BoundsShort(n, Span(n.axis, rect, r.Gap()), r);
    SideLengths(room, ratio, Drawn(n, rect, r), least, ShortestSide(n.first, n.axis, least, r),
                ShortestSide(n.second, n.axis, least, r));
  }

  /** The bounds, as how short each side may be made. */
  lemma BoundsShort(n: Tree, span: real, r: Rules)
    requires n.Split? && span > 0.0 && r.Gap() >= 0.0
    ensures var least := n.axis.Of(r.settings.minimum);
            var (low, high) := Bounds(n, span, r);
            least > 0.0 ==>
              && low >= ShortestSide(n.first, n.axis, least, r) / span
              && high <= 1.0 - ShortestSide(n.second, n.axis, least, r) / span
  {
    AskSound(n.first, n.axis, r);
    AskSound(n.second, n.axis, r);
    var least := n.axis.Of(r.settings.minimum);
    if least > 0.0 {
      FloorAtLeast(n.first, n.axis, least, r.Gap());
      FloorAtLeast(n.second, n.axis, least, r.Gap());
    }
    if r.floors == map[] {
      PullsNothing(n.first, n.axis, r);
      PullsNothing(n.second, n.axis, r);
    }
    hide Ask, FloorAlong;
  }

  lemma SideLengths(room: real, ratio: real, current: real, least: real, one: real, two: real)
    requires 0.05 <= current <= 0.95 && 0.05 <= ratio <= 0.95
    requires least > 0.0 ==>
               Min(one / Max(room, 1.0), current) <= ratio <= Max(1.0 - two / Max(room, 1.0), current)
    ensures var (was, now) := (Max(Part(room, current), 1.0), Max(Part(room, ratio), 1.0));
            && (was <= now || least <= 0.0 || now >= one)
            && (Max(room - was, 1.0) <= Max(room - now, 1.0) || least <= 0.0 || Max(room - now, 1.0) >= two)
  {
    if room < 1.0 {
      PartUnderAPixel(room, current);
      PartUnderAPixel(room, ratio);
      hide Part;
      Quotient(one, 1.0);
      Quotient(two, 1.0);
    } else {
      InSpan(room, ratio, current);
      PartWithin(room, ratio);
      hide Part;
      ShareOf(one, room, ratio);
      ShareOf(two, room, 1.0 - ratio);
      assert room * (1.0 - ratio) == room - room * ratio;
    }
  }

  /** Both sides of a split spare what rebalancing asks of the subtrees in them. */
  ghost predicate SidesSpared(n: Tree, r: Rules)
    requires n.Split?
  {
    var least := n.axis.Of(r.settings.minimum);
    && Spared(n.first, n.axis, least, Ask(n.first, n.axis, r).pull, r)
    && Spared(n.second, n.axis, least, Ask(n.second, n.axis, r).pull, r)
  }

  function SidesToll(n: Tree, r: Rules): real
    requires n.Split?
  {
    Max(Toll(n.first, n.axis, r), Toll(n.second, n.axis, r))
  }

  lemma NoFloorsSpare(n: Tree, r: Rules)
    requires n.Split? && r.floors == map[] && r.Gap() >= 0.0
    ensures SidesSpared(n, r) && SidesToll(n, r) == 0.0
  {
    var least := n.axis.Of(r.settings.minimum);
    NoFloorsNoToll(n.first, n.axis, r);
    NoFloorsNoToll(n.second, n.axis, r);
    NoTollSpares(n.first, n.axis, least, Ask(n.first, n.axis, r).pull, r);
    NoTollSpares(n.second, n.axis, least, Ask(n.second, n.axis, r).pull, r);
  }

  lemma KeptBoth(a: seq<(Id, Rect)>, b: seq<(Id, Rect)>, c: seq<(Id, Rect)>, d: seq<(Id, Rect)>, axis: Axis,
                 least: real, one: real, two: real)
    requires Kept(a, b, axis, least, one) && Kept(c, d, axis, least, two)
    ensures Kept(a + c, b + d, axis, least, Max(one, two))
  {}

  lemma SeamKeeps(n: Tree, rect: Rect, r: Rules, ratio: real)
    requires n.Split? && n.Proper() && r.Gap() >= 0.0 && SidesSpared(n, r)
    requires Room(n, rect, r).0 <= ratio <= Room(n, rect, r).1
    ensures Kept(Place(n, rect, r), Place(n.(ratio := ratio), rect, r), n.axis, n.axis.Of(r.settings.minimum),
                 SidesToll(n, r))
  {
    hide Part, Room, Drawn, FloorAlong, Spared, Toll, Ask, ShortestSide, Halves, Kept;
    var u := n.(ratio := ratio);
    var least := n.axis.Of(r.settings.minimum);
    SidesInRoom(n, rect, r, ratio);
    HalvesAre(n, rect, r);
    HalvesAre(u, rect, r);
    var (one, two) := Halves(n, rect, r);
    var (first, second) := Halves(u, rect, r);
    SideKept(n.first, one, first, r, n.axis, least);
    SideKept(n.second, two, second, r, n.axis, least);
    KeptBoth(Place(n.first, one, r), Place(n.first, first, r), Place(n.second, two, r), Place(n.second, second, r),
             n.axis, least, Toll(n.first, n.axis, r), Toll(n.second, n.axis, r));
  }

  /** A seam put anywhere between two places squeezes no tile more than it does at one
      of the two, but for the toll: whatever the floors, its room's two ends tell. */
  lemma EndsTell(n: Tree, rect: Rect, r: Rules, before: seq<(Id, Rect)>, low: real, ratio: real, high: real, least: real,
                 slack: real)
    requires n.Split? && n.Proper() && r.Gap() >= 0.0 && Room(n, rect, r).0 <= low <= ratio <= high <= Room(n, rect, r).1
    requires Kept(before, Place(n.(ratio := low), rect, r), n.axis, least, slack)
    requires Kept(before, Place(n.(ratio := high), rect, r), n.axis, least, slack)
    ensures Kept(before, Place(n.(ratio := ratio), rect, r), n.axis, least, slack + SidesToll(n, r))
  {
    hide Room, Drawn, Toll, Halves;
    var (x, y, z) := (n.(ratio := low), n.(ratio := ratio), n.(ratio := high));
    EndsOrdered(n, rect, r, low, ratio);
    EndsOrdered(n, rect, r, ratio, high);
    TilesGrow(n.first, Halves(x, rect, r).0, Halves(y, rect, r).0, r, n.axis, 0.0);
    TilesGrow(n.second, Halves(z, rect, r).1, Halves(y, rect, r).1, r, n.axis, 0.0);
    PlacesWindows(n.first, Halves(x, rect, r).0, r);
    PlacesWindows(n.first, Halves(y, rect, r).0, r);
    PlacesWindows(n.first, Halves(z, rect, r).0, r);
    PlacesWindows(n.second, Halves(x, rect, r).1, r);
    PlacesWindows(n.second, Halves(y, rect, r).1, r);
    PlacesWindows(n.second, Halves(z, rect, r).1, r);
  }

  /** Halves at two ratios in a seam's room, one after the other. */
  lemma EndsOrdered(n: Tree, rect: Rect, r: Rules, low: real, high: real)
    requires n.Split? && n.Proper() && r.Gap() >= 0.0 && Room(n, rect, r).0 <= low <= high <= Room(n, rect, r).1
    ensures var ((one, two), (one', two')) := (Halves(n.(ratio := low), rect, r), Halves(n.(ratio := high), rect, r));
            && n.axis.Extent(one) <= n.axis.Extent(one') && n.axis.Extent(two') <= n.axis.Extent(two)
            && n.axis.Across().Extent(one) == n.axis.Across().Extent(one')
            && n.axis.Across().Extent(two) == n.axis.Across().Extent(two')
  {
    hide Room, Drawn, Halves, Part;
    DrawnInRoom(n, rect, r, low);
    DrawnInRoom(n, rect, r, high);
    HalvesAre(n.(ratio := low), rect, r);
    HalvesAre(n.(ratio := high), rect, r);
    var room := n.axis.Extent(rect) - r.Gap();
    if room < 1.0 {
      PartUnderAPixel(room, low);
      PartUnderAPixel(room, high);
    } else {
      InSpan(room, high, low);
    }
  }

  /** Tiles of windows outside `ids` are where they were. */
  ghost predicate OthersStay(before: seq<(Id, Rect)>, after: seq<(Id, Rect)>, ids: set<Id>) {
    |before| == |after| && forall i :: 0 <= i < |before| && before[i].0 !in ids ==> after[i] == before[i]
  }

  lemma Joined(before: seq<(Id, Rect)>, after: seq<(Id, Rect)>, rest: seq<(Id, Rect)>, axis: Axis, least: real,
               slack: real, ids: set<Id>)
    requires Kept(before, after, axis, least, slack) && OthersStay(before, after, ids) && slack >= 0.0
    ensures Kept(before + rest, after + rest, axis, least, slack) && OthersStay(before + rest, after + rest, ids)
    ensures Kept(rest + before, rest + after, axis, least, slack) && OthersStay(rest + before, rest + after, ids)
  {}

  /** A seam moved anywhere in its room leaves every tile beyond it as long as it was or
      as the minimum, but for the toll of its sides, wherever its sides are spared. No
      tile outside the seam's own box moves. */
  lemma {:induction false} NeverSqueezed(t: Tree, rect: Rect, r: Rules, seam: nat, ratio: real)
    requires t.Proper() && r.Gap() >= 0.0
    requires seam in t.Slots() && Node(t, seam).Split? && BoxOf(t, rect, r, seam).Some? && SidesSpared(Node(t, seam), r)
    requires var (n, box) := (Node(t, seam), BoxOf(t, rect, r, seam).value);
             Room(n, box, r).0 <= ratio <= Room(n, box, r).1
    ensures var n := Node(t, seam);
            var (before, after) := (Place(t, rect, r), Place(SetRatio(t, seam, ratio), rect, r));
            && Kept(before, after, n.axis, n.axis.Of(r.settings.minimum), SidesToll(n, r))
            && OthersStay(before, after, n.Ids())
  {
    hide Cut, Room, Drawn, SidesSpared, Kept, OthersStay, Toll;
    if t.at == seam {
      SeamKeeps(t, rect, r, ratio);
      AllAreOurs(t, rect, r, Place(SetRatio(t, seam, ratio), rect, r), t.axis, t.axis.Of(r.settings.minimum),
                 SidesToll(t, r));
    } else {
      var n := Node(t, seam);
      var least := n.axis.Of(r.settings.minimum);
      var (one, two) := Halves(t, rect, r);
      DrawnKeeps(t, seam, ratio, rect, r);
      BoxOfElsewhere(t.first, one, r, seam);
      SetRatioKeeps(t.first, seam, ratio);
      SetRatioKeeps(t.second, seam, ratio);
      hide Halves;
      if seam in t.first.Slots() {
        NeverSqueezed(t.first, one, r, seam, ratio);
        Joined(Place(t.first, one, r), Place(SetRatio(t.first, seam, ratio), one, r), Place(t.second, two, r), n.axis,
               least, SidesToll(n, r), n.Ids());
      } else {
        NeverSqueezed(t.second, two, r, seam, ratio);
        Joined(Place(t.second, two, r), Place(SetRatio(t.second, seam, ratio), two, r), Place(t.first, one, r), n.axis,
               least, SidesToll(n, r), n.Ids());
      }
    }
  }

  lemma AllAreOurs(t: Tree, rect: Rect, r: Rules, after: seq<(Id, Rect)>, axis: Axis, least: real, slack: real)
    requires Kept(Place(t, rect, r), after, axis, least, slack)
    ensures OthersStay(Place(t, rect, r), after, t.Ids())
  {
    PlacesWindows(t, rect, r);
    WindowsAre(t);
    hide Place;
  }

  lemma WindowsAre(t: Tree)
    ensures forall w :: w in t.Windows() <==> w in t.Ids()
  {}

  /** A whole layout before and after one seam moved. */
  ghost predicate SeamMoved(t: Tree, u: Tree, seam: nat, area: Rect, r: Rules)
    requires seam in t.Slots() && Node(t, seam).Split?
  {
    var n := Node(t, seam);
    var (before, after) := (Layout(t, area, r), Layout(u, area, r));
    && Kept(before, after, n.axis, n.axis.Of(r.settings.minimum), SidesToll(n, r))
    && OthersStay(before, after, n.Ids())
  }

  /** Whether the seam in a slot is spared on both sides. */
  ghost predicate SparedBeside(t: Tree, seam: nat, r: Rules) {
    seam in t.Slots() && Node(t, seam).Split? && SidesSpared(Node(t, seam), r)
  }

  lemma SetAlike(t: Tree, seam: nat, area: Rect, r: Rules)
    requires seam in t.Slots() && Node(t, seam).Split?
    ensures SeamMoved(t, t, seam, area, r)
  {
    hide Toll;
  }

  /** After any drag of a seam that is spared on both sides: the tiles beyond it are as long
      as they were or as the minimum, but for the toll, and nothing outside its box has
      moved. */
  lemma DragNeverSqueezes(t: Tree, leaf: nat, edge: Edge, edgeAt: (real, real), area: Rect, r: Rules)
    requires t.Proper() && r.Gap() >= 0.0
    requires var seam := SeamBeside(t, leaf, edge); seam.Some? ==> SparedBeside(t, seam.value, r)
    ensures var seam := SeamBeside(t, leaf, edge);
            var u := Dragged(t, leaf, edge, edgeAt, area, r);
            if seam.None? then u == t else SeamMoved(t, u, seam.value, area, r)
  {
    if SeamBeside(t, leaf, edge).Some? {
      hide Dragged, SidesSpared, Room, Drawn, Kept, OthersStay, Place;
      var seam := SeamBeside(t, leaf, edge).value;
      var ratio := DraggedRatio(t, leaf, edge, edgeAt, area, r);
      if DrawnWithin(t, area.Inset(r.Gap()), r, seam) {
        NeverSqueezed(t, area.Inset(r.Gap()), r, seam, ratio);
      } else {
        SetAlike(t, seam, area, r);
      }
    }
  }

  /** The same after any press. */
  lemma PressNeverSqueezes(t: Tree, leaf: nat, axis: Axis, growth: real, area: Rect, r: Rules)
    requires t.Proper() && r.Gap() >= 0.0
    requires var moved := PressSeam(t, leaf, axis, growth); moved.Some? ==> SparedBeside(t, moved.value.0, r)
    ensures var moved := PressSeam(t, leaf, axis, growth);
            var u := Pressed(t, leaf, axis, growth, area, r);
            if moved.None? then u == t else SeamMoved(t, u, moved.value.0, area, r)
  {
    if PressSeam(t, leaf, axis, growth).Some? {
      hide Pressed, PressSeam, SidesSpared, Room, Drawn, Kept, OthersStay, Place;
      var seam := PressSeam(t, leaf, axis, growth).value.0;
      var ratio := PressedRatio(t, leaf, axis, growth, area, r);
      if DrawnWithin(t, area.Inset(r.Gap()), r, seam) {
        NeverSqueezed(t, area.Inset(r.Gap()), r, seam, ratio);
      } else {
        SetAlike(t, seam, area, r);
      }
    }
  }
}
