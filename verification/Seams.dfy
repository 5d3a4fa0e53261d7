/** Moving one seam: which seam is beside a window's edge, how far it may go, and
    what a drag or a press does to the tiles. */
module Seams {
  import opened Basics
  import opened Geometry
  import opened Dwindle
  import opened FloorsMet

  datatype Edge = Left | Right | Top | Bottom {
    function Axis(): Axis { if Left? || Right? then Vertical else Horizontal }

    /** Which child must hold a leaf for the split's seam to be that edge of it. */
    function Child(): nat { if Left? || Top? then 1 else 0 }

    /** Where a box has this edge. */
    function Of(rect: Rect): real { if Child() == 1 then Axis().Start(rect) else Axis().End(rect) }

    function At(p: (real, real)): real { if Axis().Vertical? then p.0 else p.1 }
  }

  /** The split that decides where `edge` of a leaf is: lowest of those above the leaf
      whose cut is that way round and which hold the leaf in the child facing the seam. */
  function SeamBeside(t: Tree, leaf: nat, edge: Edge): Option<nat> {
    if t.Leaf? then None
    else if leaf in t.first.Slots() then
      var inner := SeamBeside(t.first, leaf, edge);
      if inner.Some? then inner
      else if t.axis == edge.Axis() && edge.Child() == 0 then Some(t.at) else None
    else if leaf in t.second.Slots() then
      var inner := SeamBeside(t.second, leaf, edge);
      if inner.Some? then inner
      else if t.axis == edge.Axis() && edge.Child() == 1 then Some(t.at) else None
    else None
  }

  /** The subtree in slot `at`. */
  function Node(t: Tree, at: nat): Tree
    requires at in t.Slots()
  {
    if t.at == at then t
    else if at in t.first.Slots() then Node(t.first, at)
    else Node(t.second, at)
  }

  function SetRatio(t: Tree, at: nat, ratio: real): Tree {
    if t.Leaf? then t
    else if t.at == at then t.(ratio := ratio)
    else t.(first := SetRatio(t.first, at, ratio), second := SetRatio(t.second, at, ratio))
  }

  /** A length of box that keeps each tile of the subtree at `least` or longer. No ratio
      is touched, so a lopsided seam makes it long. */
  function FloorAlong(t: Tree, axis: Axis, least: real, gap: real): real {
    match t
    case Leaf(_, _) => least
    case Split(_, on, ratio, first, second) =>
      var one, two := FloorAlong(first, axis, least, gap), FloorAlong(second, axis, least, gap);
      if on == axis then gap + Max(one / Held(ratio), two / (1.0 - Held(ratio))) else Max(one, two)
  }

  /** How far down and up the minimum and the windows' floors let a seam go. */
  function Bounds(n: Tree, span: real, r: Rules): (real, real)
    requires n.Split? && span > 0.0
  {
    var least := n.axis.Of(r.settings.minimum);
    var low := if least <= 0.0 then 0.05 else Max(0.05, FloorAlong(n.first, n.axis, least, r.Gap()) / span);
    var high := if least <= 0.0 then 0.95 else Min(0.95, 1.0 - FloorAlong(n.second, n.axis, least, r.Gap()) / span);
    if r.floors == map[] then (low, high) else
    var first, second := Ask(n.first, n.axis, r), Ask(n.second, n.axis, r);
    (if first.pull > 0.0 then Max(low, first.pull / span) else low,
     if second.pull > 0.0 then Min(high, 1.0 - second.pull / span) else high)
  }

  /** The interval a seam moves in. Its present place is in it where it is drawn within
      5..95%. */
  function Room(n: Tree, rect: Rect, r: Rules): (real, real)
    requires n.Split?
  {
    var (low, high) := Bounds(n, Span(n.axis, rect, r.Gap()), r);
    var current := Drawn(n, rect, r);
    (Max(Min(low, current), 0.05), Min(Max(high, current), 0.95))
  }

  function Within(value: real, low: real, high: real, otherwise: real): real {
    if low <= high then Clamp(value, low, high) else otherwise
  }

  function Leading(edge: Edge, gap: real): real { if edge.Child() == 1 then gap else 0.0 }

  /** The ratio at which an edge of a split's child is at `place`. */
  function Wanted(edge: Edge, place: real, rect: Rect, gap: real): real {
    (place - edge.Axis().Start(rect) - Leading(edge, gap)) / Span(edge.Axis(), rect, gap)
  }

  /** Where the edge is when the seam of `rect` is at `ratio`, a pixel in at least. */
  function Reached(edge: Edge, ratio: real, rect: Rect, gap: real): real {
    edge.Axis().Start(rect) + Max(Times(Span(edge.Axis(), rect, gap), ratio), 1.0) + Leading(edge, gap)
  }

  /** The tree after an edge of the window in slot `leaf` was dragged to a place. */
  function Dragged(t: Tree, leaf: nat, edge: Edge, edgeAt: (real, real), area: Rect, r: Rules): Tree {
    var seam := SeamBeside(t, leaf, edge);
    if seam.None? || seam.value !in t.Slots() || Node(t, seam.value).Leaf? then t else
    var n := Node(t, seam.value);
    var rect := BoxOf(t, area.Inset(r.Gap()), r, seam.value);
    if rect.None? then t else
    var (low, high) := Room(n, rect.value, r);
    SetRatio(t, seam.value, Within(Wanted(edge, edge.At(edgeAt), rect.value, r.Gap()), low, high, n.ratio))
  }

  /** The seam a keypress moves, and which way it grows the window. */
  function PressSeam(t: Tree, leaf: nat, axis: Axis, growth: real): Option<(nat, real)> {
    var trailing := SeamBeside(t, leaf, if axis.Vertical? then Right else Bottom);
    var leading := SeamBeside(t, leaf, if axis.Vertical? then Left else Top);
    if trailing.Some? then Some((trailing.value, growth))
    else if leading.Some? then Some((leading.value, -growth))
    else None
  }

  /** The tree after the window in slot `leaf` was grown along `axis` by a key. */
  function Pressed(t: Tree, leaf: nat, axis: Axis, growth: real, area: Rect, r: Rules): Tree {
    var moved := PressSeam(t, leaf, axis, growth);
    if moved.None? || moved.value.0 !in t.Slots() || Node(t, moved.value.0).Leaf? then t else
    var (seam, towards) := moved.value;
    var n := Node(t, seam);
    var found := BoxOf(t, area.Inset(r.Gap()), r, seam);
    var rect := if found.Some? then found.value else area;
    var (low, high) := Room(n, rect, r);
    SetRatio(t, seam, Within(Drawn(n, rect, r) + towards, low, high, n.ratio))
  }

  // ---- What moving a seam leaves alone ----

  lemma {:induction false} SeamIsAbove(t: Tree, leaf: nat, edge: Edge)
    requires t.Proper()
    ensures var seam := SeamBeside(t, leaf, edge);
            seam.Some? ==>
              && seam.value in t.Slots()
              && Node(t, seam.value).Split? && Node(t, seam.value).axis == edge.Axis()
              && leaf in (if edge.Child() == 0 then Node(t, seam.value).first else Node(t, seam.value).second).Slots()
  {
    if t.Split? {
      SeamIsAbove(t.first, leaf, edge);
      SeamIsAbove(t.second, leaf, edge);
    }
  }

  lemma SetRatioKeeps(t: Tree, at: nat, ratio: real)
    ensures var u := SetRatio(t, at, ratio);
            && u.at == t.at && u.Leaf? == t.Leaf?
            && u.Slots() == t.Slots() && u.Windows() == t.Windows() && u.Ids() == t.Ids()
    ensures t.Proper() && 0.05 <= ratio <= 0.95 ==> SetRatio(t, at, ratio).Proper()
    ensures at !in t.Slots() ==> SetRatio(t, at, ratio) == t
  {}

  /** Needs come from floors alone: changing a ratio changes none. */
  lemma AskKeeps(t: Tree, at: nat, ratio: real, axis: Axis, r: Rules)
    ensures Ask(SetRatio(t, at, ratio), axis, r) == Ask(t, axis, r)
  {}

  lemma DrawnKeeps(t: Tree, at: nat, ratio: real, rect: Rect, r: Rules)
    requires t.Split? && t.at != at
    ensures var u := SetRatio(t, at, ratio);
            u.Split? && u.axis == t.axis && Drawn(u, rect, r) == Drawn(t, rect, r)
                && Halves(u, rect, r) == Halves(t, rect, r)
  {
    AskKeeps(t.first, at, ratio, t.axis, r);
    AskKeeps(t.second, at, ratio, t.axis, r);
  }

  // ---- A dragged edge lands where it was asked to ----

  /** A seam drawn at `current` and moved to `place`, no further from what its
      sides pull towards, stays at `place`. */
  lemma Stays(span: real, one: real, current: real, place: real, first: Need, second: Need)
    requires first.Sound() && second.Sound() && current == Moved(one, span - one, first, second)
    requires place >= first.pull || place >= current
    requires span - place >= second.pull || place <= current
    ensures Moved(place, span - place, first, second) == place
  {}

  lemma ShareOf(length: real, span: real, ratio: real)
    requires span > 0.0
    ensures length / span <= ratio <==> length <= span * ratio
  {
    Quotient(length, span);
    Scale(length / span, ratio, span);
    Scale(ratio, length / span, span);
  }

  /** The bounds in lengths: at or above `low` the first side has what it pulls
      towards, at or below `high` the second has. */
  lemma BoundsServe(n: Tree, span: real, r: Rules, ratio: real)
    requires n.Split? && span > 0.0 && r.floors != map[] && 0.05 <= ratio <= 0.95
    ensures var (low, high) := Bounds(n, span, r);
            var first, second := Ask(n.first, n.axis, r), Ask(n.second, n.axis, r);
            && (ratio >= low && first.pull > 0.0 ==> Part(span, ratio) >= first.pull)
            && (ratio <= high && second.pull > 0.0 ==> span - Part(span, ratio) >= second.pull)
  {
    hide FloorAlong, Ask;
    var first, second := Ask(n.first, n.axis, r), Ask(n.second, n.axis, r);
    ShareOf(first.pull, span, ratio);
    ShareOf(second.pull, span, 1.0 - ratio);
    assert Part(span, ratio) == span * ratio && span * (1.0 - ratio) == span - span * ratio;
  }

  lemma QuotientPast(length: real, span: real)
    requires span > 0.0
    ensures length / span > 0.95 <==> length > span * 0.95
    ensures length / span < 0.05 <==> length < span * 0.05
  {
    Quotient(length, span);
    Scale(0.95, length / span, span);
    Scale(length / span, 0.05, span);
  }

  lemma QuotientOrder(a: real, b: real, span: real)
    requires span > 0.0 && a <= b
    ensures a / span <= b / span
  {
    Quotient(a, span);
    Quotient(b, span);
    Scale(b / span, a / span, span);
  }

  lemma RestOf(part: real, span: real)
    requires span > 0.0
    ensures (span - part) / span == 1.0 - part / span
  {
    Quotient(part, span);
    QuotientIs(span - part, span, 1.0 - part / span);
  }

  /** The lengths of a seam driven past either end. */
  lemma MovedPast(span: real, one: real, first: Need, second: Need)
    requires span > 0.0 && first.Sound() && second.Sound() && span * 0.05 <= one <= span * 0.95
    ensures var moved := Moved(one, span - one, first, second);
            && (moved > span * 0.95 ==> first.pull >= moved)
            && (moved < span * 0.05 ==> second.pull >= span - moved)
  {}

  /** Floors that drive a seam past 5..95% leave it no room: the side it is driven
      for pulls for all that was given to it. */
  lemma DrivenPast(span: real, held: real, one: real, first: Need, second: Need)
    requires span > 0.0 && first.Sound() && second.Sound() && 0.05 <= held <= 0.95 && one == Part(span, held)
    ensures var shown := SharedOf(span, held, one, first, second);
            && (shown > 0.95 ==> first.pull > 0.0 && first.pull / span >= shown)
            && (shown < 0.05 ==> second.pull > 0.0 && 1.0 - second.pull / span <= shown)
  {
    hide Part, Moved;
    var shown := SharedOf(span, held, one, first, second);
    HeldLength(span, held);
    if shown > 0.95 || shown < 0.05 {
      var moved := Moved(one, span - one, first, second);
      assert shown == moved / span;
      hide SharedOf;
      QuotientPast(moved, span);
      MovedPast(span, one, first, second);
      if shown > 0.95 {
        QuotientOrder(moved, first.pull, span);
      } else {
        QuotientOrder(span - moved, second.pull, span);
        RestOf(moved, span);
      }
    }
  }

  /** A seam has room exactly where it is drawn within 5..95%. The source takes its
      range to hold the present ratio always; past the ends it is empty. */
  lemma RoomExactly(n: Tree, rect: Rect, r: Rules)
    requires n.Split? && n.Proper() && r.Gap() >= 0.0
    ensures Room(n, rect, r).0 <= Room(n, rect, r).1 <==> 0.05 <= Drawn(n, rect, r) <= 0.95
  {
    hide Part, FloorAlong, Ask, SharedOf;
    if r.floors != map[] {
      var span := Span(n.axis, rect, r.Gap());
      AskSound(n.first, n.axis, r);
      AskSound(n.second, n.axis, r);
      DrivenPast(span, n.ratio, Part(span, n.ratio), Ask(n.first, n.axis, r), Ask(n.second, n.axis, r));
    }
  }

  /** Such a seam: floors of 980 and 10 in 1000 draw it at 98%, with no room left. */
  lemma NoRoomPastTheCut()
    ensures var n := Split(0, Vertical, 0.5, Leaf(1, 1), Leaf(2, 2));
            var r := Rules(map[1 := Minimum(980.0, 0.0), 2 := Minimum(10.0, 0.0)],
                           Settings(0.0, 0.5, Minimum(0.0, 0.0)));
            var rect := Rect(0.0, 0.0, 1000.0, 100.0);
            n.Proper() && Drawn(n, rect, r) == 0.98 && Room(n, rect, r) == (0.98, 0.95)
  {
    var n := Split(0, Vertical, 0.5, Leaf(1, 1), Leaf(2, 2));
    var r := Rules(map[1 := Minimum(980.0, 0.0), 2 := Minimum(10.0, 0.0)], Settings(0.0, 0.5, Minimum(0.0, 0.0)));
    var rect := Rect(0.0, 0.0, 1000.0, 100.0);
    assert 1 in r.floors;
    assert Ask(n.first, Vertical, r) == Need(980.0, 980.0) && Ask(n.second, Vertical, r) == Need(10.0, 10.0);
    assert Span(Vertical, rect, 0.0) == 1000.0 && Part(1000.0, 0.5) == 500.0;
    assert Drawn(n, rect, r) == 0.98;
    assert Bounds(n, 1000.0, r) == (0.98, 0.95);
  }

  /** A seam put anywhere in its room is drawn there: the floors that narrowed the
      room do not move it again. */
  lemma DrawnInRoom(n: Tree, rect: Rect, r: Rules, ratio: real)
    requires n.Split? && n.Proper() && r.Gap() >= 0.0
    requires Room(n, rect, r).0 <= ratio <= Room(n, rect, r).1
    ensures Drawn(n.(ratio := ratio), rect, r) == ratio && 0.05 <= ratio <= 0.95
  {
    hide Part, Bounds, SharedOf;
    RoomExactly(n, rect, r);
    var span := Span(n.axis, rect, r.Gap());
    if r.floors != map[] {
      AskSound(n.first, n.axis, r);
      AskSound(n.second, n.axis, r);
      BoundsServe(n, span, r, ratio);
      SharedInRoom(span, n.ratio, Drawn(n, rect, r), ratio, Ask(n.first, n.axis, r), Ask(n.second, n.axis, r),
                   Bounds(n, span, r));
    }
  }

  lemma SharedInRoom(span: real, held: real, current: real, ratio: real, first: Need, second: Need,
                     bounds: (real, real))
    requires span > 0.0 && first.Sound() && second.Sound()
    requires current == SharedOf(span, held, Part(span, held), first, second)
    requires 0.05 <= current <= 0.95 && 0.05 <= ratio <= 0.95
    requires Min(bounds.0, current) <= ratio <= Max(bounds.1, current)
    requires ratio >= bounds.0 && first.pull > 0.0 ==> Part(span, ratio) >= first.pull
    requires ratio <= bounds.1 && second.pull > 0.0 ==> span - Part(span, ratio) >= second.pull
    ensures SharedOf(span, ratio, Part(span, ratio), first, second) == ratio
  {
    hide Part, Moved, Seam;
    if first.pull > 0.0 || second.pull > 0.0 {
      SharedLength(span, held, Part(span, held), first, second);
      InSpan(span, ratio, current);
      StaysShared(span, Part(span, held), Part(span, current), Part(span, ratio), first, second);
    }
  }

  /** Ratios within 5..95% and the lengths they give are in the same order. */
  lemma InSpan(span: real, ratio: real, current: real)
    requires span > 0.0 && 0.05 <= ratio <= 0.95 && 0.05 <= current <= 0.95
    ensures 0.0 < Part(span, ratio) < span && Part(span, ratio) / span == ratio
    ensures ratio >= current ==> Part(span, ratio) >= Part(span, current)
    ensures ratio <= current ==> Part(span, ratio) <= Part(span, current)
  {
    assert Part(span, ratio) == span * ratio && Part(span, current) == span * current;
    hide Part;
    Scale(ratio, current, span);
    Scale(current, ratio, span);
    Scale(0.0, ratio, span);
    Scale(ratio, 1.0, span);
    QuotientIs(Part(span, ratio), span, ratio);
  }

  lemma StaysShared(span: real, one: real, current: real, place: real, first: Need, second: Need)
    requires first.Sound() && second.Sound() && (first.pull > 0.0 || second.pull > 0.0)
    requires current == Seam(span, one, first, second) && 0.0 < place < span
    requires (first.pull > 0.0 ==> place >= first.pull) || place >= current
    requires (second.pull > 0.0 ==> span - place >= second.pull) || place <= current
    ensures Moved(place, span - place, first, second) == place
  {
    Stays(span, one, current, place, first, second);
  }

  lemma QuotientIs(length: real, span: real, ratio: real)
    requires span > 0.0 && length == span * ratio
    ensures length / span == ratio
  {
    Quotient(length, span);
    Scale(length / span, ratio, span);
    Scale(ratio, length / span, span);
  }

  lemma BoxOfElsewhere(t: Tree, rect: Rect, r: Rules, at: nat)
    ensures BoxOf(t, rect, r, at).Some? <==> at in t.Slots()
  {}

  /** With no seam beside it, a window's edge is the edge of the whole subtree. */
  lemma {:induction false} EdgeFlush(t: Tree, rect: Rect, r: Rules, leaf: nat, edge: Edge)
    requires t.Proper() && CutsHaveRoom(t, rect, r) && r.Gap() >= 0.0
    requires leaf in t.Slots() && Node(t, leaf).Leaf? && SeamBeside(t, leaf, edge).None?
    ensures var found := BoxOf(t, rect, r, leaf);
            found.Some? && edge.Of(found.value) == edge.Of(rect)
  {
    if t.Split? {
      var (one, two) := Halves(t, rect, r);
      CutTiles(t, rect, r);
      BoxOfElsewhere(t.first, one, r, leaf);
      if leaf in t.first.Slots() {
        EdgeFlush(t.first, one, r, leaf, edge);
      } else {
        EdgeFlush(t.second, two, r, leaf, edge);
      }
    }
  }

  /** What a seam at `ratio` in its room does to the edge it was dragged by: the
      seam's own box stands still, and the edge is where the ratio puts it,
      however far up the seam is and whatever is rebalanced elsewhere. */
  lemma {:induction false} EdgeReached(t: Tree, rect: Rect, r: Rules, leaf: nat, edge: Edge, ratio: real)
    requires t.Proper() && r.Gap() >= 0.0 && leaf in t.Slots() && Node(t, leaf).Leaf?
    requires var seam := SeamBeside(t, leaf, edge);
             && seam.Some? && seam.value in t.Slots() && Node(t, seam.value).Split?
             && var box := BoxOf(t, rect, r, seam.value);
             && box.Some?
             && Room(Node(t, seam.value), box.value, r).0 <= ratio <= Room(Node(t, seam.value), box.value, r).1
             && CutsHaveRoom(SetRatio(t, seam.value, ratio), rect, r)
    ensures var seam := SeamBeside(t, leaf, edge).value;
            var box := BoxOf(t, rect, r, seam).value;
            var u := SetRatio(t, seam, ratio);
            && BoxOf(u, rect, r, seam) == Some(box)
            && BoxOf(u, rect, r, leaf).Some?
            && edge.Of(BoxOf(u, rect, r, leaf).value) == Reached(edge, ratio, box, r.Gap())
  {
    var seam := SeamBeside(t, leaf, edge).value;
    SeamIsAbove(t, leaf, edge);
    if t.at == seam {
      SeamReached(t, rect, r, leaf, edge, ratio);
    } else {
      DrawnKeeps(t, seam, ratio, rect, r);
      SetRatioKeeps(t.first, seam, ratio);
      SetRatioKeeps(t.second, seam, ratio);
      var (one, two) := Halves(t, rect, r);
      BoxOfElsewhere(t.first, one, r, seam);
      BoxOfElsewhere(t.first, one, r, leaf);
      if leaf in t.first.Slots() {
        SeamIsAbove(t.first, leaf, edge);
        EdgeReached(t.first, one, r, leaf, edge, ratio);
      } else {
        SeamIsAbove(t.second, leaf, edge);
        EdgeReached(t.second, two, r, leaf, edge, ratio);
      }
    }
  }

  /** The same at the seam itself. */
  lemma SeamReached(n: Tree, rect: Rect, r: Rules, leaf: nat, edge: Edge, ratio: real)
    requires n.Split? && n.Proper() && r.Gap() >= 0.0 && leaf in n.Slots() && Node(n, leaf).Leaf?
    requires SeamBeside(n, leaf, edge) == Some(n.at)
    requires Room(n, rect, r).0 <= ratio <= Room(n, rect, r).1
    requires CutsHaveRoom(n.(ratio := ratio), rect, r)
    ensures var box := BoxOf(n.(ratio := ratio), rect, r, leaf);
            box.Some? && edge.Of(box.value) == Reached(edge, ratio, rect, r.Gap())
  {
    hide Drawn, Halves, Room, Reached;
    var u := n.(ratio := ratio);
    DrawnInRoom(n, rect, r, ratio);
    SeamInside(n, leaf, edge);
    HalfReached(u, rect, r, edge);
    LeafInHalf(u, rect, r, leaf, edge);
  }

  lemma LeafInHalf(n: Tree, rect: Rect, r: Rules, leaf: nat, edge: Edge)
    requires n.Split? && n.Proper() && r.Gap() >= 0.0 && leaf in n.Slots() && Node(n, leaf).Leaf?
    requires SeamBeside(n, leaf, edge) == Some(n.at) && CutsHaveRoom(n, rect, r)
    ensures var (one, two) := Halves(n, rect, r);
            var box := BoxOf(n, rect, r, leaf);
            box.Some? && edge.Of(box.value) == edge.Of(if edge.Child() == 0 then one else two)
  {
    SeamInside(n, leaf, edge);
    hide Drawn, Halves;
    var (one, two) := Halves(n, rect, r);
    BoxOfElsewhere(n.first, one, r, leaf);
    if leaf in n.first.Slots() {
      EdgeFlush(n.first, one, r, leaf, edge);
    } else {
      EdgeFlush(n.second, two, r, leaf, edge);
    }
  }

  /** The half on the seam's far side from an edge has that edge where the ratio
      puts it. */
  lemma HalfReached(n: Tree, rect: Rect, r: Rules, edge: Edge)
    requires n.Split? && n.axis == edge.Axis() && r.Gap() >= 0.0 && CutHasRoom(n, rect, r)
    requires Drawn(n, rect, r) == n.ratio && 0.05 <= n.ratio <= 0.95
    ensures var (one, two) := Halves(n, rect, r);
            edge.Of(if edge.Child() == 0 then one else two) == Reached(edge, n.ratio, rect, r.Gap())
  {
    hide Part, Drawn, Halves, Cut, Times;
    CutTiles(n, rect, r);
    HalvesAre(n, rect, r);
    PartWithin(Span(n.axis, rect, r.Gap()), n.ratio);
  }

  lemma PartWithin(span: real, ratio: real)
    requires 0.05 <= ratio <= 0.95
    ensures Part(span, ratio) == span * ratio == Times(span, ratio)
  {}

  /** The seam beside an edge is the nearest: below it there is none. */
  lemma SeamInside(n: Tree, leaf: nat, edge: Edge)
    requires n.Split? && n.Proper() && leaf in n.Slots() && Node(n, leaf).Leaf?
        && SeamBeside(n, leaf, edge) == Some(n.at)
    ensures leaf != n.at && n.axis == edge.Axis()
    ensures leaf in n.first.Slots() <==> edge.Child() == 0
    ensures leaf in n.first.Slots() ==> SeamBeside(n.first, leaf, edge).None? && Node(n.first, leaf).Leaf?
    ensures leaf in n.second.Slots() ==> SeamBeside(n.second, leaf, edge).None? && Node(n.second, leaf).Leaf?
  {
    SeamIsAbove(n.first, leaf, edge);
    SeamIsAbove(n.second, leaf, edge);
  }

  /** Holding a ratio to a range is holding the edge to the places it gives. */
  lemma ReachedClamps(edge: Edge, place: real, rect: Rect, gap: real, low: real, high: real)
    requires low <= high
    ensures Reached(edge, Clamp(Wanted(edge, place, rect, gap), low, high), rect, gap)
              == Clamp(place, Reached(edge, low, rect, gap), Reached(edge, high, rect, gap))
  {
    hide Span, Clamp, Times, Leading, Max;
    var span := Span(edge.Axis(), rect, gap);
    SpanIsThere(edge.Axis(), rect, gap);
    ShareClamps(place - edge.Axis().Start(rect) - Leading(edge, gap), span, low, high);
    PlaceClamps(place, edge.Axis().Start(rect), Leading(edge, gap), Times(span, low), Times(span, high));
  }

  lemma SpanIsThere(axis: Axis, rect: Rect, gap: real)
    ensures Span(axis, rect, gap) >= 1.0
  {}

  lemma ShareClamps(length: real, span: real, low: real, high: real)
    requires span > 0.0 && low <= high
    ensures Times(span, Clamp(length / span, low, high)) == Clamp(length, Times(span, low), Times(span, high))
    ensures Times(span, low) <= Times(span, high)
  {
    hide Times;
    QuotientTimes(length, span);
    TimesOrder(length / span, low, span);
    TimesOrder(high, length / span, span);
    TimesOrder(high, low, span);
  }

  lemma PlaceClamps(place: real, start: real, leading: real, low: real, high: real)
    requires low <= high
    ensures start + Max(Clamp(place - start - leading, low, high), 1.0) + leading
              == Clamp(place, start + Max(low, 1.0) + leading, start + Max(high, 1.0) + leading)
  {}

  lemma LeafPlaced(t: Tree, rect: Rect, r: Rules, leaf: nat)
    requires t.Proper() && leaf in t.Slots() && Node(t, leaf).Leaf?
    ensures BoxOf(t, rect, r, leaf).Some? && (Node(t, leaf).id, BoxOf(t, rect, r, leaf).value) in Place(t, rect, r)
  {
    if t.Split? {
      var (one, two) := Halves(t, rect, r);
      BoxOfElsewhere(t.first, one, r, leaf);
      if leaf in t.first.Slots() { LeafPlaced(t.first, one, r, leaf); } else { LeafPlaced(t.second, two, r, leaf); }
    }
  }

  /** Whether a split's seam is drawn within the 5..95% a drag holds it to. */
  ghost predicate DrawnWithin(t: Tree, rect: Rect, r: Rules, at: nat) {
    && at in t.Slots() && Node(t, at).Split? && BoxOf(t, rect, r, at).Some?
    && 0.05 <= Drawn(Node(t, at), BoxOf(t, rect, r, at).value, r) <= 0.95
  }

  lemma {:induction false} SetRatioSame(t: Tree, at: nat)
    requires t.Proper() && at in t.Slots() && Node(t, at).Split?
    ensures SetRatio(t, at, Node(t, at).ratio) == t
  {
    if t.at != at {
      var ratio := Node(t, at).ratio;
      SetRatioKeeps(t.first, at, ratio);
      SetRatioKeeps(t.second, at, ratio);
      if at in t.first.Slots() { SetRatioSame(t.first, at); } else { SetRatioSame(t.second, at); }
    }
  }

  /** A drag, in ratios: the place asked for held to the seam's room, and nothing at
      all where the seam is drawn past 5..95%. */
  lemma DraggedRatio(t: Tree, leaf: nat, edge: Edge, edgeAt: (real, real), area: Rect, r: Rules) returns (ratio: real)
    requires t.Proper() && r.Gap() >= 0.0 && SeamBeside(t, leaf, edge).Some?
    ensures var seam := SeamBeside(t, leaf, edge).value;
            && seam in t.Slots() && Node(t, seam).Split? && BoxOf(t, area.Inset(r.Gap()), r, seam).Some?
            && var box := BoxOf(t, area.Inset(r.Gap()), r, seam).value;
            var (low, high) := Room(Node(t, seam), box, r);
            && Dragged(t, leaf, edge, edgeAt, area, r) == SetRatio(t, seam, ratio)
            && if DrawnWithin(t, area.Inset(r.Gap()), r, seam) then
                 && ratio == Clamp(Wanted(edge, edge.At(edgeAt), box, r.Gap()), low, high)
                 && 0.05 <= low <= ratio <= high <= 0.95
               else
                 ratio == Node(t, seam).ratio && SetRatio(t, seam, ratio) == t
  {
    hide Bounds, Drawn, Wanted;
    var seam := SeamBeside(t, leaf, edge).value;
    SeamIsAbove(t, leaf, edge);
    NodeSlots(t, seam);
    BoxOfElsewhere(t, area.Inset(r.Gap()), r, seam);
    var box := BoxOf(t, area.Inset(r.Gap()), r, seam).value;
    var (low, high) := Room(Node(t, seam), box, r);
    RoomExactly(Node(t, seam), box, r);
    SetRatioSame(t, seam);
    ratio := Within(Wanted(edge, edge.At(edgeAt), box, r.Gap()), low, high, Node(t, seam).ratio);
  }

  /** A dragged edge lands where it was asked to: in the layout after the drag the
      grabbed window's own edge is at the place asked for, or, where that is out of
      the seam's room, at the nearer end of it. A seam that floors have driven past
      5..95% does not move at all. */
  lemma DragLands(t: Tree, leaf: nat, edge: Edge, edgeAt: (real, real), area: Rect, r: Rules)
    requires t.Proper() && r.Gap() >= 0.0 && leaf in t.Slots() && Node(t, leaf).Leaf?
    requires SeamBeside(t, leaf, edge).Some?
    requires CutsHaveRoom(Dragged(t, leaf, edge, edgeAt, area, r), area.Inset(r.Gap()), r)
    ensures var seam := SeamBeside(t, leaf, edge).value;
            var u := Dragged(t, leaf, edge, edgeAt, area, r);
            if !DrawnWithin(t, area.Inset(r.Gap()), r, seam) then u == t else
            var box := BoxOf(t, area.Inset(r.Gap()), r, seam).value;
            var (low, high) := Room(Node(t, seam), box, r);
            exists tile: Rect ::
              && (Node(t, leaf).id, tile) in Layout(u, area, r)
              && edge.Of(tile)
                  == Clamp(edge.At(edgeAt), Reached(edge, low, box, r.Gap()), Reached(edge, high, box, r.Gap()))
  {
    hide Room, Dragged, Drawn, Reached, Wanted;
    var seam := SeamBeside(t, leaf, edge).value;
    var ratio := DraggedRatio(t, leaf, edge, edgeAt, area, r);
    var rect := area.Inset(r.Gap());
    if DrawnWithin(t, rect, r, seam) {
      var box := BoxOf(t, rect, r, seam).value;
      var (low, high) := Room(Node(t, seam), box, r);
      EdgeReached(t, rect, r, leaf, edge, ratio);
      ReachedClamps(edge, edge.At(edgeAt), box, r.Gap(), low, high);
      LeafShown(t, rect, r, leaf, seam, ratio);
    }
  }

  /** The tile of a leaf once a seam was moved. */
  lemma LeafShown(t: Tree, rect: Rect, r: Rules, leaf: nat, seam: nat, ratio: real)
    requires t.Proper() && leaf in t.Slots() && Node(t, leaf).Leaf? && 0.05 <= ratio <= 0.95
    ensures var u := SetRatio(t, seam, ratio);
            && BoxOf(u, rect, r, leaf).Some?
            && (Node(t, leaf).id, BoxOf(u, rect, r, leaf).value) in Place(u, rect, r)
  {
    hide BoxOf, Place;
    SetRatioKeeps(t, seam, ratio);
    NodeKeeps(t, seam, ratio, leaf);
    LeafPlaced(SetRatio(t, seam, ratio), rect, r, leaf);
  }

  lemma {:induction false} NodeKeeps(t: Tree, at: nat, ratio: real, other: nat)
    requires t.Proper() && other in t.Slots()
    ensures var u := SetRatio(t, at, ratio);
            && other in u.Slots()
            && Node(u, other) == SetRatio(Node(t, other), at, ratio)
  {
    SetRatioKeeps(t, at, ratio);
    if t.Split? && t.at != other {
      SetRatioKeeps(t.first, at, ratio);
      SetRatioKeeps(t.second, at, ratio);
      if t.at == at {
        SetRatioElsewhere(t, at, ratio, other);
      } else if other in t.first.Slots() {
        NodeKeeps(t.first, at, ratio, other);
      } else {
        NodeKeeps(t.second, at, ratio, other);
      }
    }
  }

  lemma SetRatioElsewhere(t: Tree, at: nat, ratio: real, other: nat)
    requires t.Proper() && t.Split? && t.at == at && other in t.Slots() && other != at
    ensures SetRatio(Node(t, other), at, ratio) == Node(t, other)
  {
    NodeSlots(if other in t.first.Slots() then t.first else t.second, other);
    SetRatioKeeps(Node(t, other), at, ratio);
  }

  lemma NodeSlots(t: Tree, at: nat)
    requires t.Proper() && at in t.Slots()
    ensures Node(t, at).at == at && Node(t, at).Slots() <= t.Slots() && Node(t, at).Ids() <= t.Ids()
        && Node(t, at).Proper()
  {}

  // ---- Repeating a drag changes nothing ----

  lemma {:induction false} BoxOfKeeps(t: Tree, rect: Rect, r: Rules, seam: nat, ratio: real)
    requires t.Proper() && seam in t.Slots()
    ensures BoxOf(SetRatio(t, seam, ratio), rect, r, seam) == BoxOf(t, rect, r, seam)
  {
    if t.Split? && t.at != seam {
      var (one, two) := Halves(t, rect, r);
      DrawnKeeps(t, seam, ratio, rect, r);
      SetRatioKeeps(t.first, seam, ratio);
      SetRatioKeeps(t.second, seam, ratio);
      if seam in t.first.Slots() {
        BoxOfKeeps(t.first, one, r, seam, ratio);
      } else {
        BoxOfKeeps(t.second, two, r, seam, ratio);
      }
      BoxOfElsewhere(t.first, one, r, seam);
      BoxOfElsewhere(SetRatio(t.first, seam, ratio), one, r, seam);
    }
  }

  lemma SeamBesideKeeps(t: Tree, leaf: nat, edge: Edge, at: nat, ratio: real)
    ensures SeamBeside(SetRatio(t, at, ratio), leaf, edge) == SeamBeside(t, leaf, edge)
  {
    if t.Split? {
      SetRatioKeeps(t.first, at, ratio);
      SetRatioKeeps(t.second, at, ratio);
    }
  }

  lemma SetRatioTwice(t: Tree, at: nat, ratio: real)
    ensures SetRatio(SetRatio(t, at, ratio), at, ratio) == SetRatio(t, at, ratio)
  {}

  /** A drag is idempotent. It says where the edge should be and never how far to move. */
  lemma DragIsIdempotent(t: Tree, leaf: nat, edge: Edge, edgeAt: (real, real), area: Rect, r: Rules)
    requires t.Proper() && r.Gap() >= 0.0
    ensures var u := Dragged(t, leaf, edge, edgeAt, area, r);
            Dragged(u, leaf, edge, edgeAt, area, r) == u
  {
    if SeamBeside(t, leaf, edge).Some? {
      hide Dragged, Room, Drawn, Wanted;
      var ratio := DraggedRatio(t, leaf, edge, edgeAt, area, r);
      if DrawnWithin(t, area.Inset(r.Gap()), r, SeamBeside(t, leaf, edge).value) {
        DragAgain(t, leaf, edge, edgeAt, area, r, ratio);
      }
    }
  }

  lemma DragAgain(t: Tree, leaf: nat, edge: Edge, edgeAt: (real, real), area: Rect, r: Rules, ratio: real)
    requires t.Proper() && r.Gap() >= 0.0 && SeamBeside(t, leaf, edge).Some?
    requires var seam := SeamBeside(t, leaf, edge).value;
             && DrawnWithin(t, area.Inset(r.Gap()), r, seam)
             && var (n, box) := (Node(t, seam), BoxOf(t, area.Inset(r.Gap()), r, seam).value);
             && ratio == Clamp(Wanted(edge, edge.At(edgeAt), box, r.Gap()), Room(n, box, r).0, Room(n, box, r).1)
             && 0.05 <= Room(n, box, r).0 <= ratio <= Room(n, box, r).1 <= 0.95
    ensures var u := SetRatio(t, SeamBeside(t, leaf, edge).value, ratio);
            Dragged(u, leaf, edge, edgeAt, area, r) == u
  {
    hide Room, Drawn, Wanted, Dragged, BoxOf;
    var seam := SeamBeside(t, leaf, edge).value;
    var rect := area.Inset(r.Gap());
    var (n, box) := (Node(t, seam), BoxOf(t, rect, r, seam).value);
    var u := SetRatio(t, seam, ratio);
    SeamBesideKeeps(t, leaf, edge, seam, ratio);
    BoxOfKeeps(t, rect, r, seam, ratio);
    NodeKeeps(t, seam, ratio, seam);
    NodeSlots(t, seam);
    DrawnInRoom(n, box, r, ratio);
    SetRatioKeeps(t, seam, ratio);
    SetRatioTwice(t, seam, ratio);
    var again := DraggedRatio(u, leaf, edge, edgeAt, area, r);
    SameRatio(n, box, r, Wanted(edge, edge.At(edgeAt), box, r.Gap()), ratio);
  }

  lemma SameRatio(n: Tree, box: Rect, r: Rules, wanted: real, ratio: real)
    requires n.Split? && 0.05 <= Drawn(n, box, r) <= 0.95
    requires ratio == Clamp(wanted, Room(n, box, r).0, Room(n, box, r).1)
    requires Drawn(n.(ratio := ratio), box, r) == ratio && 0.05 <= ratio <= 0.95
    ensures Clamp(wanted, Room(n.(ratio := ratio), box, r).0, Room(n.(ratio := ratio), box, r).1) == ratio
  {
    assert Bounds(n.(ratio := ratio), Span(n.axis, box, r.Gap()), r) == Bounds(n, Span(n.axis, box, r.Gap()), r);
    hide Bounds, Drawn;
  }

  lemma PressSeamIs(t: Tree, leaf: nat, axis: Axis, growth: real)
    requires t.Proper()
    ensures var moved := PressSeam(t, leaf, axis, growth);
            moved.Some? ==> moved.value.0 in t.Slots() && Node(t, moved.value.0).Split?
  {
    SeamIsAbove(t, leaf, if axis.Vertical? then Right else Bottom);
    SeamIsAbove(t, leaf, if axis.Vertical? then Left else Top);
  }

  lemma PressedIs(t: Tree, leaf: nat, axis: Axis, growth: real, area: Rect, r: Rules, seam: nat, towards: real,
                  rect: Rect, ratio: real)
    requires PressSeam(t, leaf, axis, growth) == Some((seam, towards)) && seam in t.Slots() && Node(t, seam).Split?
    requires var found := BoxOf(t, area.Inset(r.Gap()), r, seam); rect == if found.Some? then found.value else area
    requires Node(t, seam).Proper()
    requires var (low, high) := Room(Node(t, seam), rect, r);
             ratio == Within(Drawn(Node(t, seam), rect, r) + towards, low, high, Node(t, seam).ratio)
    ensures Pressed(t, leaf, axis, growth, area, r) == SetRatio(t, seam, ratio) && 0.05 <= ratio <= 0.95
  {
    hide PressSeam, Drawn, Bounds, BoxOf, SetRatio;
  }

  /** A press, in ratios, as `DraggedRatio` says it of a drag. */
  lemma PressedRatio(t: Tree, leaf: nat, axis: Axis, growth: real, area: Rect, r: Rules) returns (ratio: real)
    requires t.Proper() && r.Gap() >= 0.0 && PressSeam(t, leaf, axis, growth).Some?
    ensures var (seam, towards) := PressSeam(t, leaf, axis, growth).value;
            && seam in t.Slots() && Node(t, seam).Split? && BoxOf(t, area.Inset(r.Gap()), r, seam).Some?
            && var box := BoxOf(t, area.Inset(r.Gap()), r, seam).value;
            var (low, high) := Room(Node(t, seam), box, r);
            && Pressed(t, leaf, axis, growth, area, r) == SetRatio(t, seam, ratio)
            && if DrawnWithin(t, area.Inset(r.Gap()), r, seam) then
                 && ratio == Clamp(Drawn(Node(t, seam), box, r) + towards, low, high)
                 && 0.05 <= low <= ratio <= high <= 0.95
               else
                 ratio == Node(t, seam).ratio && SetRatio(t, seam, ratio) == t
  {
    hide PressSeam, Drawn, Bounds;
    var (seam, towards) := PressSeam(t, leaf, axis, growth).value;
    PressSeamIs(t, leaf, axis, growth);
    NodeSlots(t, seam);
    BoxOfElsewhere(t, area.Inset(r.Gap()), r, seam);
    var n, box := Node(t, seam), BoxOf(t, area.Inset(r.Gap()), r, seam).value;
    var (low, high) := Room(n, box, r);
    RoomExactly(n, box, r);
    SetRatioSame(t, seam);
    ratio := Within(Drawn(n, box, r) + towards, low, high, n.ratio);
    PressedIs(t, leaf, axis, growth, area, r, seam, towards, box, ratio);
  }

  /** A press lands where it should: from where its seam was drawn before, by as much
      as was asked, within the seam's room; and a seam driven past 5..95% stays. */
  lemma PressLands(t: Tree, leaf: nat, axis: Axis, growth: real, area: Rect, r: Rules)
    requires t.Proper() && r.Gap() >= 0.0 && PressSeam(t, leaf, axis, growth).Some?
    ensures var (seam, towards) := PressSeam(t, leaf, axis, growth).value;
            var u := Pressed(t, leaf, axis, growth, area, r);
            if !DrawnWithin(t, area.Inset(r.Gap()), r, seam) then u == t else
            var box := BoxOf(t, area.Inset(r.Gap()), r, seam).value;
            var shown := Drawn(Node(t, seam), box, r);
            var (low, high) := Room(Node(t, seam), box, r);
            && seam in u.Slots() && Node(u, seam).Split? && BoxOf(u, area.Inset(r.Gap()), r, seam) == Some(box)
            && Drawn(Node(u, seam), box, r) == Clamp(shown + towards, low, high)
  {
    hide PressSeam, Drawn, Bounds, Pressed;
    var (seam, towards) := PressSeam(t, leaf, axis, growth).value;
    var ratio := PressedRatio(t, leaf, axis, growth, area, r);
    if DrawnWithin(t, area.Inset(r.Gap()), r, seam) {
      NodeSlots(t, seam);
      BoxOfKeeps(t, area.Inset(r.Gap()), r, seam, ratio);
      NodeKeeps(t, seam, ratio, seam);
      SetRatioKeeps(t, seam, ratio);
      DrawnInRoom(Node(t, seam), BoxOf(t, area.Inset(r.Gap()), r, seam).value, r, ratio);
    }
  }

  lemma MovesKeepWindows(t: Tree, leaf: nat, area: Rect, r: Rules)
    ensures forall edge, edgeAt :: Dragged(t, leaf, edge, edgeAt, area, r).Ids() == t.Ids()
    ensures forall axis, growth :: Pressed(t, leaf, axis, growth, area, r).Ids() == t.Ids()
  {
    forall seam, ratio ensures SetRatio(t, seam, ratio).Ids() == t.Ids() { SetRatioKeeps(t, seam, ratio); }
    hide Room, BoxOf, Wanted, SeamBeside;
  }
}
