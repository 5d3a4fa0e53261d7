/** A window's own floor is met wherever the room for it is there: what
    `Tiling::layout` rebalances seams for. */
module FloorsMet {
  import opened Basics
  import opened Geometry
  import opened Dwindle

  /** Whether a split's own cut spares its children: where it holds a rebalanced
      share to 5..95% of the span, or gives the first child the pixel it never goes
      under, the child held back still has what it pulls towards. */
  ghost predicate CutSpares(t: Tree, rect: Rect, r: Rules)
    requires t.Split?
  {
    Spares(t.axis.Extent(rect) - r.Gap(), Drawn(t, rect, r), Ask(t.first, t.axis, r), Ask(t.second, t.axis, r))
  }

  ghost predicate Spares(room: real, shown: real, first: Need, second: Need) {
    && (shown > 0.95 ==> Max(room * 0.95, 1.0) >= first.pull - SLACK)
    && (shown < 0.05 || Part(room, shown) < 1.0 ==>
          Max(room - Max(room * 0.05, 1.0), 1.0) >= second.pull - SLACK)
  }

  /** So at every split of a layout. */
  ghost predicate CutsSpare(t: Tree, rect: Rect, r: Rules) {
    t.Split? ==>
      var (one, two) := Halves(t, rect, r);
      CutSpares(t, rect, r) && CutsSpare(t.first, one, r) && CutsSpare(t.second, two, r)
  }

  lemma {:induction false} AskSound(t: Tree, axis: Axis, r: Rules)
    requires r.Gap() >= 0.0
    ensures Ask(t, axis, r).Sound()
  {
    if t.Split? {
      AskSound(t.first, axis, r);
      AskSound(t.second, axis, r);
    }
  }

  /** One split: a span short of what two children ask by at most SLACK gives
      each child what it pulls towards to within the same SLACK. */
  lemma SeamServes(span: real, one: real, first: Need, second: Need)
    requires first.Sound() && second.Sound()
    requires first.pull > 0.0 || second.pull > 0.0 ==> span >= first.hold + second.hold - SLACK
    ensures var moved := Seam(span, one, first, second);
            first.pull > 0.0 || second.pull > 0.0 ==>
              moved >= first.pull - SLACK && span - moved >= second.pull - SLACK
  {}

  lemma HeldQuotient(span: real, length: real)
    requires span > 0.0
    ensures var shown := length / span;
            && (0.05 <= shown <= 0.95 ==> Part(span, shown) == length)
            && (shown > 0.95 ==> Part(span, shown) == span * 0.95 <= length)
            && (shown < 0.05 ==> Part(span, shown) == span * 0.05 >= length)
  {
    hide Part, Times;
    QuotientTimes(length, span);
    HeldAt(span, length / span, length);
  }

  lemma QuotientTimes(length: real, span: real)
    requires span > 0.0
    ensures Times(span, length / span) == length
  {}

  lemma TimesOrder(a: real, b: real, c: real)
    requires c > 0.0
    ensures a < b <==> Times(c, a) < Times(c, b)
  {}

  lemma HeldTimes(span: real, ratio: real)
    requires span > 0.0
    ensures Part(span, ratio) == Clamp(Times(span, ratio), Times(span, 0.05), Times(span, 0.95))
    ensures Times(span, 0.05) == span * 0.05 && Times(span, 0.95) == span * 0.95
  {
    HeldLength(span, ratio);
  }

  lemma HeldAt(span: real, shown: real, length: real)
    requires span > 0.0 && Times(span, shown) == length
    ensures 0.05 <= shown <= 0.95 ==> Part(span, shown) == length
    ensures shown > 0.95 ==> Part(span, shown) == span * 0.95 <= length
    ensures shown < 0.05 ==> Part(span, shown) == span * 0.05 >= length
  {
    hide Part, Times;
    HeldTimes(span, shown);
    TimesOrder(0.95, shown, span);
    TimesOrder(shown, 0.05, span);
  }

  /** A share held to 5..95% is held back from where the seam was moved to. */
  lemma HeldBack(span: real, ratio: real, one: real, first: Need, second: Need)
    requires span > 0.0 && one == Part(span, ratio)
    ensures var shown := SharedOf(span, ratio, one, first, second);
            && (0.05 <= shown <= 0.95 ==> Part(span, shown) == Seam(span, one, first, second))
            && (shown > 0.95 ==> Part(span, shown) == span * 0.95 <= Seam(span, one, first, second))
            && (shown < 0.05 ==> Part(span, shown) == span * 0.05 >= Seam(span, one, first, second))
  {
    if !(first.pull <= 0.0 && second.pull <= 0.0) && OneShort(one, span - one, first, second) {
      HeldQuotient(span, Moved(one, span - one, first, second));
    } else {
      HeldLength(span, ratio);
    }
  }

  /** One split in lengths: both halves have what they pull towards just where the
      cut spares them. */
  lemma LengthsServe(span: real, ratio: real, one: real, first: Need, second: Need)
    requires span > 0.0 && one == Part(span, ratio) && first.Sound() && second.Sound()
    requires first.pull > 0.0 || second.pull > 0.0 ==> span >= first.hold + second.hold - SLACK
    ensures var shown := SharedOf(span, ratio, one, first, second);
            && (shown > 0.95 ==> Part(span, shown) == span * 0.95)
            && (shown < 0.05 ==> Part(span, shown) == span - span * 0.95)
            && (Part(span, shown) >= first.pull - SLACK && span - Part(span, shown) >= second.pull - SLACK
                <==>
                (shown > 0.95 ==> span * 0.95 >= first.pull - SLACK)
                && (shown < 0.05 ==> span * 0.95 >= second.pull - SLACK))
  {
    HeldBack(span, ratio, one, first, second);
    SeamServes(span, one, first, second);
    HeldLength(span, SharedOf(span, ratio, one, first, second));
    hide Part, Seam, SharedOf;
    if first.pull <= 0.0 && second.pull <= 0.0 { HeldLength(span, ratio); }
  }

  /** The same with the pixel that no half goes under, in a room of a pixel or more. */
  lemma PixelsServe(room: real, ratio: real, one: real, first: Need, second: Need)
    requires room >= 1.0 && one == Part(room, ratio) && first.Sound() && second.Sound()
    requires first.pull > 0.0 || second.pull > 0.0 ==> room >= first.hold + second.hold - SLACK
    ensures var shown := SharedOf(room, ratio, one, first, second);
            var length := Max(Part(room, shown), 1.0);
            length >= first.pull - SLACK && Max(room - length, 1.0) >= second.pull - SLACK
            <==> Spares(room, shown, first, second)
  {
    var shown := SharedOf(room, ratio, one, first, second);
    LengthsServe(room, ratio, one, first, second);
    HeldBack(room, ratio, one, first, second);
    SeamServes(room, one, first, second);
    HeldLength(room, shown);
    hide Part, Seam, SharedOf;
    assert room - room * 0.95 == room * 0.05;
    if first.pull <= 0.0 && second.pull <= 0.0 { HeldLength(room, ratio); }
  }

  /** The two halves of a split along its axis. */
  lemma HalvesServe(t: Tree, rect: Rect, r: Rules)
    requires t.Split? && r.Gap() >= 0.0
    requires t.axis.Extent(rect) >= Ask(t, t.axis, r).pull - SLACK
    ensures var (one, two) := Halves(t, rect, r);
            t.axis.Extent(one) >= Ask(t.first, t.axis, r).pull - SLACK
                && t.axis.Extent(two) >= Ask(t.second, t.axis, r).pull - SLACK
            <==> CutSpares(t, rect, r)
  {
    hide Part, Seam, SharedOf, Halves;
    var first, second := Ask(t.first, t.axis, r), Ask(t.second, t.axis, r);
    var room := t.axis.Extent(rect) - r.Gap();
    AskSound(t.first, t.axis, r);
    AskSound(t.second, t.axis, r);
    HalvesAre(t, rect, r);
    if r.floors == map[] {
      PullsNothing(t.first, t.axis, r);
      PullsNothing(t.second, t.axis, r);
    } else if room < 1.0 {
      PartUnderAPixel(room, Drawn(t, rect, r));
    } else {
      PixelsServe(room, t.ratio, Part(room, t.ratio), first, second);
    }
  }

  lemma PartUnderAPixel(room: real, ratio: real)
    requires room < 1.0
    ensures Part(room, ratio) < 1.0
  {
    if room > 0.0 { HeldLength(room, ratio); }
  }

  lemma {:induction false} PullsNothing(t: Tree, axis: Axis, r: Rules)
    requires r.floors == map[]
    ensures Ask(t, axis, r).pull == 0.0
  {
    if t.Split? {
      PullsNothing(t.first, axis, r);
      PullsNothing(t.second, axis, r);
    }
  }

  /** How long the halves are: what the drawn ratio makes of the room for the first,
      what is left for the second, and a pixel at least for each. */
  lemma HalvesAre(t: Tree, rect: Rect, r: Rules)
    requires t.Split?
    ensures var (one, two) := Halves(t, rect, r);
            var room := t.axis.Extent(rect) - r.Gap();
            && t.axis.Extent(one) == Max(Part(room, Drawn(t, rect, r)), 1.0)
            && t.axis.Extent(two) == Max(room - t.axis.Extent(one), 1.0)
            && t.axis.Across().Extent(one) == t.axis.Across().Extent(two) == t.axis.Across().Extent(rect)
  {
    hide Part, Drawn;
  }

  /** A box is what a subtree pulls towards on each axis, to within SLACK. */
  ghost predicate Serves(t: Tree, rect: Rect, r: Rules) {
    forall axis: Axis :: axis.Extent(rect) >= Ask(t, axis, r).pull - SLACK
  }

  /** So is the box of every subtree in a layout. */
  ghost predicate ServesAll(t: Tree, rect: Rect, r: Rules) {
    && Serves(t, rect, r)
    && (t.Split? ==>
          var (one, two) := Halves(t, rect, r);
          ServesAll(t.first, one, r) && ServesAll(t.second, two, r))
  }

  /** A box big enough for a split is, halved, big enough for each of its children
      just where the cut spares them. */
  lemma ServesBoth(t: Tree, rect: Rect, r: Rules)
    requires t.Split? && r.Gap() >= 0.0 && Serves(t, rect, r)
    ensures var (one, two) := Halves(t, rect, r);
            Serves(t.first, one, r) && Serves(t.second, two, r) <==> CutSpares(t, rect, r)
  {
    HalvesServe(t, rect, r);
    HalvesAre(t, rect, r);
    hide Halves, CutSpares, Drawn;
    var (one, two) := Halves(t, rect, r);
    var across := t.axis.Across();
    assert across.Extent(rect) >= Ask(t, across, r).pull - SLACK;
    assert t.axis.Extent(rect) >= Ask(t, t.axis, r).pull - SLACK;
  }

  /** A shortfall of SLACK does not accumulate: every subtree has what it pulls
      towards, at any depth, exactly where the whole tree has and every cut spares. */
  lemma {:induction false} ServesAllExactly(t: Tree, rect: Rect, r: Rules)
    requires r.Gap() >= 0.0
    ensures ServesAll(t, rect, r) <==> Serves(t, rect, r) && CutsSpare(t, rect, r)
  {
    hide Halves, CutSpares, Serves;
    if t.Split? && Serves(t, rect, r) {
      var (one, two) := Halves(t, rect, r);
      ServesBoth(t, rect, r);
      ServesAllExactly(t.first, one, r);
      ServesAllExactly(t.second, two, r);
    }
  }

  /** And then no window is cramped. */
  lemma {:induction false} NoneCramped(t: Tree, rect: Rect, r: Rules)
    requires ServesAll(t, rect, r)
    ensures forall tile :: tile in Place(t, rect, r) ==> !Cramped(r.floors, tile.0, tile.1)
  {
    match t
    case Leaf(_, id) =>
      assert Vertical.Extent(rect) >= Ask(t, Vertical, r).pull - SLACK;
      assert Horizontal.Extent(rect) >= Ask(t, Horizontal, r).pull - SLACK;
    case Split(_, _, _, first, second) =>
      var (one, two) := Halves(t, rect, r);
      NoneCramped(first, one, r);
      NoneCramped(second, two, r);
  }

  /** The floors theorem for a whole layout: wherever the area less its margin is
      what the windows' floors add up to, every window is at its own. */
  lemma FloorsAreMet(t: Tree, area: Rect, r: Rules)
    requires r.Gap() >= 0.0 && CutsSpare(t, area.Inset(r.Gap()), r)
    requires area.Inset(r.Gap()).w >= Ask(t, Vertical, r).pull
    requires area.Inset(r.Gap()).h >= Ask(t, Horizontal, r).pull
    ensures forall tile :: tile in Layout(t, area, r) ==> !Cramped(r.floors, tile.0, tile.1)
    ensures forall tile :: tile in Layout(t, area, r) && tile.0 in r.floors ==>
              tile.1.w >= r.floors[tile.0].w - SLACK && tile.1.h >= r.floors[tile.0].h - SLACK
  {
    ServesAllExactly(t, area.Inset(r.Gap()), r);
    NoneCramped(t, area.Inset(r.Gap()), r);
  }

  /** Where a cut does not spare them two windows may be short of room that is
      there: floors of 980 and 10 in 1000, cut at 950. */
  lemma FloorPastTheCut()
    ensures var t := Split(0, Vertical, 0.5, Leaf(1, 1), Leaf(2, 2));
            var r := Rules(map[1 := Minimum(980.0, 0.0), 2 := Minimum(10.0, 0.0)],
                           Settings(0.0, 0.5, Minimum(0.0, 0.0)));
            var area := Rect(0.0, 0.0, 1000.0, 100.0);
            && Ask(t, Vertical, r).pull == 990.0 && CutsHaveRoom(t, area, r)
            && (1, Rect(0.0, 0.0, 950.0, 100.0)) in Layout(t, area, r)
                && Cramped(r.floors, 1, Rect(0.0, 0.0, 950.0, 100.0))
  {}
}
