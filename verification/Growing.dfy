/** One split when its box or a child's need grows: neither child loses more than the
    box did and one SLACK. */
module Growing {
  import opened Dwindle
  import opened FloorsMet
  import opened Geometry

  /** The first side's length when its need grows, and the span changes by at
      most `loss` downwards, both sides the same way. */
  lemma MovedGrows(one: real, two: real, one': real, two': real, first: Need, first': Need, second: Need, loss: real)
    requires first.Sound() && first'.Sound() && second.Sound() && first'.AtLeast(first)
    requires loss >= 0.0
    requires (one' >= one && two' >= two) || (one' <= one && two' <= two && one' + two' >= one + two - loss)
    ensures Moved(one', two', first', second) >= Moved(one, two, first, second) - loss - SLACK
  {}

  /** Both costs are taken: a second side that was short by exactly SLACK, and had nothing
      to pull with for it, pulls for all of it once it is shorter by any loss at all. */
  lemma MovedCosts(one: real, first: Need, second: Need, loss: real)
    requires first.Sound() && second.Sound() && loss > 0.0
    requires first.pull <= one && first.hold + loss + SLACK <= one
    ensures Moved(one, second.pull - SLACK - loss, first, second)
         == Moved(one, second.pull - SLACK, first, second) - loss - SLACK
  {}

  lemma MovedMirrors(one: real, two: real, first: Need, second: Need)
    ensures one + two - Moved(one, two, first, second) == Moved(two, one, second, first)
  {}

  /** The first half's length, as `Cut` draws the ratio `SharedOf` gives. */
  function FirstLong(room: real, held: real, first: Need, second: Need): real {
    var span := Max(room, 1.0);
    Max(Part(room, SharedOf(span, held, Part(span, held), first, second)), 1.0)
  }

  function SecondLong(room: real, held: real, first: Need, second: Need): real {
    Max(room - FirstLong(room, held, first, second), 1.0)
  }

  /** The seam of a span of at least a pixel, in 5..95% of it. */
  function SeamHeld(span: real, held: real, first: Need, second: Need): real {
    Clamp(Seam(span, Part(span, held), first, second), span * 0.05, span * 0.95)
  }

  lemma LongInSpan(room: real, held: real, first: Need, second: Need)
    ensures room < 1.0 ==> FirstLong(room, held, first, second) == SecondLong(room, held, first, second) == 1.0
    ensures room >= 1.0 ==>
              && FirstLong(room, held, first, second) == Max(SeamHeld(room, held, first, second), 1.0)
              && 0.05 * room <= SeamHeld(room, held, first, second) <= 0.95 * room
  {
    var span := Max(room, 1.0);
    DrawnLength(span, held, Part(span, held), first, second);
    var ratio := SharedOf(span, held, Part(span, held), first, second);
    HeldLength(1.0, ratio);
    if room < 1.0 { PartUnderAPixel(room, ratio); }
    hide Part, Seam, SharedOf;
  }

  lemma Product(a: real, b: real)
    requires a >= 0.0 && b >= 0.0
    ensures a * b >= 0.0
  {}

  /** Both parts of a longer span are longer, and of a shorter one shorter. */
  lemma PartsFollow(span: real, more: real, ratio: real)
    ensures span <= more ==>
        Part(span, ratio) <= Part(more, ratio) && span - Part(span, ratio) <= more - Part(more, ratio)
  {
    if span <= more {
      var h := Held(ratio);
      assert Part(span, ratio) == span * h && Part(more, ratio) == more * h;
      hide Part;
      Product(more - span, h);
      Product(more - span, 1.0 - h);
      assert (more - span) * h == more * h - span * h;
      assert (more - span) * (1.0 - h) == (more - more * h) - (span - span * h);
    }
  }

  lemma SeamGrows(span: real, more: real, held: real, first: Need, first': Need, second: Need, loss: real, tol: real)
    requires first.Sound() && first'.Sound() && second.Sound() && first'.AtLeast(first)
    requires loss >= 0.0 && more >= span - loss && span >= 1.0 && more >= 1.0
    requires tol == SLACK || (tol == 0.0 && first'.pull == second.pull == 0.0)
    ensures SeamHeld(more, held, first', second) >= SeamHeld(span, held, first, second) - loss - tol
  {
    hide Part, Moved;
    PartsFollow(span, more, held);
    PartsFollow(more, span, held);
    HeldLength(span, held);
    HeldLength(more, held);
    MovedGrows(Part(span, held), span - Part(span, held), Part(more, held), more - Part(more, held), first, first',
               second, loss);
    Unmoved(Part(span, held), span - Part(span, held), first, second);
    Unmoved(Part(more, held), more - Part(more, held), first', second);
  }

  /** With nothing pulled towards and nothing short, the seam stays. */
  lemma Unmoved(one: real, two: real, first: Need, second: Need)
    ensures first.pull <= 0.0 <= one && second.pull <= 0.0 <= two ==> Moved(one, two, first, second) == one
  {}

  /** The first half when its need grows and the room shrinks by at most `loss`. */
  lemma FirstGrows(room: real, more: real, held: real, first: Need, first': Need, second: Need, loss: real, tol: real)
    requires first.Sound() && first'.Sound() && second.Sound() && first'.AtLeast(first)
    requires loss >= 0.0 && more >= room - loss
    requires tol == SLACK || (tol == 0.0 && first'.pull == second.pull == 0.0)
    ensures FirstLong(more, held, first', second) >= FirstLong(room, held, first, second) - loss - tol
  {
    LongInSpan(room, held, first, second);
    LongInSpan(more, held, first', second);
    hide FirstLong, SecondLong, SeamHeld;
    if room >= 1.0 && more >= 1.0 {
      SeamGrows(room, more, held, first, first', second, loss, tol);
    }
  }

  /** What the seam leaves the second side when that side's need grows. */
  lemma SeamLeaves(span: real, more: real, held: real, first: Need, second: Need, second': Need, loss: real, tol: real)
    requires first.Sound() && second.Sound() && second'.Sound() && second'.AtLeast(second)
    requires loss >= 0.0 && more >= span - loss && span >= 1.0 && more >= 1.0
    requires tol == SLACK || (tol == 0.0 && first.pull == second'.pull == 0.0)
    ensures more - SeamHeld(more, held, first, second') >= span - SeamHeld(span, held, first, second) - loss - tol
  {
    hide Part, Moved;
    PartsFollow(span, more, held);
    PartsFollow(more, span, held);
    HeldLength(span, held);
    HeldLength(more, held);
    var one, one' := Part(span, held), Part(more, held);
    MovedMirrors(one, span - one, first, second);
    MovedMirrors(one', more - one', first, second');
    MovedGrows(span - one, one, more - one', one', second, second', first, loss);
    Unmoved(one, span - one, first, second);
    Unmoved(one', more - one', first, second');
  }

  lemma SecondGrows(room: real, more: real, held: real, first: Need, second: Need, second': Need, loss: real, tol: real)
    requires first.Sound() && second.Sound() && second'.Sound() && second'.AtLeast(second)
    requires loss >= 0.0 && more >= room - loss
    requires tol == SLACK || (tol == 0.0 && first.pull == second'.pull == 0.0)
    ensures SecondLong(more, held, first, second') >= SecondLong(room, held, first, second) - loss - tol
  {
    LongInSpan(room, held, first, second);
    LongInSpan(more, held, first, second');
    hide FirstLong, SeamHeld;
    if room >= 1.0 && more >= 1.0 {
      SeamLeaves(room, more, held, first, second, second', loss, tol);
    }
  }

  /** A split's halves, in lengths. */
  lemma HalvesLong(t: Tree, rect: Rect, r: Rules)
    requires t.Split?
    ensures var (one, two) := Halves(t, rect, r);
            var (first, second) := (Ask(t.first, t.axis, r), Ask(t.second, t.axis, r));
            var room := t.axis.Extent(rect) - r.Gap();
            && t.axis.Extent(one) == FirstLong(room, t.ratio, first, second)
            && t.axis.Extent(two) == SecondLong(room, t.ratio, first, second)
            && t.axis.Across().Extent(one) == t.axis.Across().Extent(two) == t.axis.Across().Extent(rect)
  {
    if r.floors == map[] {
      PullsNothing(t.first, t.axis, r);
      PullsNothing(t.second, t.axis, r);
    }
    hide Part, OneShort, Moved;
  }
}
