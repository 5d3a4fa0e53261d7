/** Splitting a tile for a new window: when there is room, and what the layout
    then gives both windows although every seam above them may move. */
module Inserting {
  import opened Basics
  import opened Geometry
  import opened Dwindle
  import opened FloorsMet
  import opened Growing
  import opened Seams

  /** What one rebalancing may cost: nothing in a tree nobody handed floors. */
  function Tolerance(r: Rules): real { if r.floors == map[] then 0.0 else SLACK }

  // ---- Boxes when a leaf is replaced by a subtree that asks for more ----

  /** The tree with `sub` where the node in slot `target` was. */
  function Grown(t: Tree, target: nat, sub: Tree): Tree {
    if t.at == target then sub
    else if t.Leaf? then t
    else t.(first := Grown(t.first, target, sub), second := Grown(t.second, target, sub))
  }

  lemma GrownElsewhere(t: Tree, target: nat, sub: Tree)
    ensures target !in t.Slots() ==> Grown(t, target, sub) == t
  {}

  ghost predicate AsksMore(sub: Tree, t: Tree, r: Rules) {
    forall axis: Axis :: Ask(sub, axis, r).AtLeast(Ask(t, axis, r))
  }

  /** Asking for more below is asking for more above. */
  lemma {:induction false} GrownAsksMore(t: Tree, target: nat, sub: Tree, r: Rules)
    requires r.Gap() >= 0.0 && t.Proper() && target in t.Slots() && AsksMore(sub, Node(t, target), r)
    ensures AsksMore(Grown(t, target, sub), t, r)
  {
    if t.at != target {
      GrownElsewhere(t.first, target, sub);
      GrownElsewhere(t.second, target, sub);
      if target in t.first.Slots() {
        GrownAsksMore(t.first, target, sub, r);
      } else {
        GrownAsksMore(t.second, target, sub, r);
      }
      var u := Grown(t, target, sub);
      forall axis: Axis
        ensures Ask(u, axis, r).AtLeast(Ask(t, axis, r))
      {
        AskSound(t.first, axis, r);
        AskSound(t.second, axis, r);
        AskSound(u.first, axis, r);
        AskSound(u.second, axis, r);
        assert target in t.first.Slots() ==> Ask(u.first, axis, r).AtLeast(Ask(t.first, axis, r));
        assert target !in t.first.Slots() ==> Ask(u.second, axis, r).AtLeast(Ask(t.second, axis, r));
      }
    }
  }

  /** A box at least another's size on both axes, to within `loss`. */
  ghost predicate NoSmaller(big: Rect, small: Rect, loss: real) {
    big.w >= small.w - loss && big.h >= small.h - loss
  }

  /** The half on the side that asks for more is no smaller, to within what one
      rebalancing may cost. */
  lemma HalvesGrow(t: Tree, u: Tree, rect: Rect, more: Rect, r: Rules, loss: real)
    requires r.Gap() >= 0.0 && t.Split? && u.Split? && u.axis == t.axis && u.ratio == t.ratio
    requires loss >= 0.0 && NoSmaller(more, rect, loss)
    ensures AsksMore(u.first, t.first, r) && u.second == t.second ==>
              NoSmaller(Halves(u, more, r).0, Halves(t, rect, r).0, loss + Tolerance(r))
    ensures AsksMore(u.second, t.second, r) && u.first == t.first ==>
              NoSmaller(Halves(u, more, r).1, Halves(t, rect, r).1, loss + Tolerance(r))
  {
    var axis := t.axis;
    AskSound(t.first, axis, r);
    AskSound(t.second, axis, r);
    AskSound(u.first, axis, r);
    AskSound(u.second, axis, r);
    HalvesLong(t, rect, r);
    HalvesLong(u, more, r);
    if r.floors == map[] {
      PullsNothing(u.first, axis, r);
      PullsNothing(u.second, axis, r);
    }
    hide FirstLong, SecondLong, Halves, Ask;
    var room, wider := axis.Extent(rect) - r.Gap(), axis.Extent(more) - r.Gap();
    if AsksMore(u.first, t.first, r) && u.second == t.second {
      FirstGrows(room, wider, t.ratio, Ask(t.first, axis, r), Ask(u.first, axis, r), Ask(t.second, axis, r), loss,
                 Tolerance(r));
    }
    if AsksMore(u.second, t.second, r) && u.first == t.first {
      SecondGrows(room, wider, t.ratio, Ask(t.first, axis, r), Ask(t.second, axis, r), Ask(u.second, axis, r), loss,
                  Tolerance(r));
    }
  }

  /** What rebalancing at `levels` seams may cost: SLACK, a millionth of a pixel, a
      level, and nothing in a tree nobody handed floors. */
  function Cost(levels: nat, r: Rules): real {
    if levels == 0 then 0.0 else Tolerance(r) + Cost(levels - 1, r)
  }

  lemma {:induction false} CostGrows(levels: nat, more: nat, r: Rules)
    requires levels <= more
    ensures 0.0 <= Cost(levels, r) <= Cost(more, r)
  {
    if levels < more {
      CostGrows(levels, more - 1, r);
    } else if levels > 0 {
      CostGrows(levels - 1, levels - 1, r);
    }
  }

  lemma CostIs(levels: nat, r: Rules)
    ensures Cost(levels, r) == if r.floors == map[] then 0.0 else levels as real * SLACK
  {}

  /** A node's box is its box in the half it is in. */
  lemma BoxOfInside(t: Tree, rect: Rect, r: Rules, at: nat)
    requires t.Split? && at != t.at
    ensures at in t.first.Slots() ==> BoxOf(t, rect, r, at) == BoxOf(t.first, Halves(t, rect, r).0, r, at)
    ensures at !in t.first.Slots() ==> BoxOf(t, rect, r, at) == BoxOf(t.second, Halves(t, rect, r).1, r, at)
  {
    hide Halves;
    BoxOfElsewhere(t.first, Halves(t, rect, r).0, r, at);
  }

  lemma GrownSlots(t: Tree, target: nat, sub: Tree)
    ensures target in t.Slots() ==> sub.at in Grown(t, target, sub).Slots()
    ensures sub.at !in t.Slots() && target !in t.Slots() ==> sub.at !in Grown(t, target, sub).Slots()
  {}

  /** Raising what a subtree asks never shrinks its box, however deep it is, but
      for the tolerance of each rebalancing above it. */
  lemma {:induction false} BoxGrows(t: Tree, rect: Rect, more: Rect, r: Rules, target: nat, sub: Tree, loss: real)
    requires r.Gap() >= 0.0 && t.Proper() && target in t.Slots() && AsksMore(sub, Node(t, target), r)
    requires sub.at !in t.Slots() && loss >= 0.0 && NoSmaller(more, rect, loss)
    ensures var u := Grown(t, target, sub);
            && BoxOf(u, more, r, sub.at).Some? && BoxOf(t, rect, r, target).Some?
            && NoSmaller(BoxOf(u, more, r, sub.at).value, BoxOf(t, rect, r, target).value, loss + Cost(t.Depth(), r))
  {
    hide Halves, Ask, Cost;
    CostGrows(0, t.Depth(), r);
    if t.at != target {
      var u := Grown(t, target, sub);
      GrownElsewhere(t.first, target, sub);
      GrownElsewhere(t.second, target, sub);
      GrownSlots(t.first, target, sub);
      BoxOfInside(t, rect, r, target);
      BoxOfInside(u, more, r, sub.at);
      StepCost(t, r);
      hide BoxOf;
      if target in t.first.Slots() {
        GrownAsksMore(t.first, target, sub, r);
        HalvesGrow(t, u, rect, more, r, loss);
        BoxGrows(t.first, Halves(t, rect, r).0, Halves(u, more, r).0, r, target, sub, loss + Tolerance(r));
      } else {
        GrownAsksMore(t.second, target, sub, r);
        HalvesGrow(t, u, rect, more, r, loss);
        BoxGrows(t.second, Halves(t, rect, r).1, Halves(u, more, r).1, r, target, sub, loss + Tolerance(r));
      }
    }
  }

  lemma CostStep(levels: nat, r: Rules)
    ensures Cost(levels + 1, r) == Tolerance(r) + Cost(levels, r)
  {}

  lemma StepCost(t: Tree, r: Rules)
    requires t.Split?
    ensures Tolerance(r) + Cost(t.first.Depth(), r) <= Cost(t.Depth(), r)
    ensures Tolerance(r) + Cost(t.second.Depth(), r) <= Cost(t.Depth(), r)
  {
    hide Tolerance, Cost;
    CostStep(t.Depth() - 1, r);
    CostGrows(t.first.Depth(), t.Depth() - 1, r);
    CostGrows(t.second.Depth(), t.Depth() - 1, r);
  }

  // ---- A split that was accepted fits ----

  /** A leaf with a new window beside it. */
  function Branch(leaf: Tree, at: nat, slot: nat, id: Id, axis: Axis, split: real, second: bool): Tree {
    var joining := Leaf(slot, id);
    if second then Split(at, axis, Held(split), leaf, joining) else Split(at, axis, Held(split), joining, leaf)
  }

  /** Whether a half holds its window: the larger of its floor and the minimum. */
  predicate Holds(half: Rect, floor: Minimum, settings: Settings) {
    HoldsWithin(half, floor, settings.minimum, SLACK)
  }

  /** The halves a split of `rect` across `axis` would be drawn at. */
  function Measured(rect: Rect, axis: Axis, first: Minimum, second: Minimum, settings: Settings): (Rect, Rect) {
    Cut(rect, axis,
        Shared(axis, settings.split, NeedOf(first, axis, settings), NeedOf(second, axis, settings), rect, settings),
        settings.gap)
  }

  predicate FitsAcross(axis: Axis, rect: Rect, staying: Minimum, joining: Minimum, at: Option<(real, real)>,
                       settings: Settings) {
    var second := GoesSecond(at, rect, axis);
    var (first, last) := if second then (staying, joining) else (joining, staying);
    var (one, two) := Measured(rect, axis, first, last, settings);
    Holds(one, first, settings) && Holds(two, last, settings)
  }

  /** The axis to cut a tile on so that both windows fit, if there is one. The longer side
      is tried first. */
  function RoomIn(rect: Rect, staying: Minimum, joining: Minimum, at: Option<(real, real)>,
                  settings: Settings): Option<Axis> {
    var longer := Axis.Longer(rect);
    if FitsAcross(longer, rect, staying, joining, at, settings) then Some(longer)
    else if FitsAcross(longer.Across(), rect, staying, joining, at, settings) then Some(longer.Across())
    else None
  }

  /** The tree with window `id` hung beside the leaf in slot `target`. */
  function Hung(t: Tree, target: nat, at: nat, slot: nat, id: Id, axis: Axis, split: real, second: bool): Tree
    requires target in t.Slots()
  {
    Grown(t, target, Branch(Node(t, target), at, slot, id, axis, split, second))
  }

  lemma BranchAsksMore(leaf: Tree, at: nat, slot: nat, id: Id, axis: Axis, split: real, second: bool, r: Rules)
    requires r.Gap() >= 0.0
    ensures AsksMore(Branch(leaf, at, slot, id, axis, split, second), leaf, r)
  {
    hide Both, Either, NeedOf, FloorOf;
    forall on: Axis
      ensures Ask(Branch(leaf, at, slot, id, axis, split, second), on, r).AtLeast(Ask(leaf, on, r))
    {
      AskSound(leaf, on, r);
      AskSound(Leaf(slot, id), on, r);
      TogetherMore(Ask(leaf, on, r), Ask(Leaf(slot, id), on, r), r.Gap());
    }
  }

  /** Two children ask together at least what each asks. */
  lemma TogetherMore(one: Need, two: Need, gap: real)
    requires one.Sound() && two.Sound() && gap >= 0.0
    ensures Both(one, two, gap).AtLeast(one) && Both(two, one, gap).AtLeast(one)
    ensures Either(one, two).AtLeast(one) && Either(two, one).AtLeast(one)
  {}

  /** The halves that were measured are the halves of the branch in the same box. */
  lemma BranchMeasures(leaf: Tree, at: nat, slot: nat, id: Id, axis: Axis, second: bool, rect: Rect, r: Rules)
    requires leaf.Leaf?
    ensures var b := Branch(leaf, at, slot, id, axis, r.settings.split, second);
            Halves(b, rect, r)
                == Measured(rect, axis, FloorOf(r.floors, b.first.id), FloorOf(r.floors, b.second.id), r.settings)
  {
    var b := Branch(leaf, at, slot, id, axis, r.settings.split, second);
    if r.floors == map[] {
      PullsNothing(b.first, axis, r);
      PullsNothing(b.second, axis, r);
    }
    CutHeld(rect, axis, r.settings.split, r.Gap());
    SharedHeld(axis, r.settings.split, Ask(b.first, axis, r), Ask(b.second, axis, r), rect, r.settings);
    hide Cut, Shared;
  }

  /** A split is cut alike at a ratio and at that ratio held in 5..95%. */
  lemma CutHeld(rect: Rect, axis: Axis, split: real, gap: real)
    ensures Cut(rect, axis, Held(split), gap) == Cut(rect, axis, split, gap)
  {
    assert Part(axis.Extent(rect) - gap, Held(split)) == Part(axis.Extent(rect) - gap, split);
    hide Part;
  }

  lemma SharedHeld(axis: Axis, split: real, first: Need, second: Need, rect: Rect, settings: Settings)
    ensures var shared := Shared(axis, split, first, second, rect, settings);
            var held := Shared(axis, Held(split), first, second, rect, settings);
            held == shared || (held == Held(split) && shared == split)
    ensures first.pull <= 0.0 && second.pull <= 0.0 ==> Shared(axis, split, first, second, rect, settings) == split
  {
    assert Part(Span(axis, rect, settings.gap), Held(split)) == Part(Span(axis, rect, settings.gap), split);
    hide Part, Moved, OneShort;
  }

  /** In any box no smaller than the one measured, both halves still hold. */
  lemma BranchFits(leaf: Tree, at: nat, slot: nat, id: Id, axis: Axis, pointer: Option<(real, real)>, rect: Rect,
                   more: Rect, r: Rules, loss: real)
    requires leaf.Leaf? && r.Gap() >= 0.0 && loss >= 0.0 && NoSmaller(more, rect, loss)
    requires FitsAcross(axis, rect, FloorOf(r.floors, leaf.id), FloorOf(r.floors, id), pointer, r.settings)
    ensures var b := Branch(leaf, at, slot, id, axis, r.settings.split, GoesSecond(pointer, rect, axis));
            var (one, two) := Halves(b, more, r);
            && HoldsWithin(one, FloorOf(r.floors, b.first.id), r.settings.minimum, SLACK + loss + Tolerance(r))
            && HoldsWithin(two, FloorOf(r.floors, b.second.id), r.settings.minimum, SLACK + loss + Tolerance(r))
  {
    var b := Branch(leaf, at, slot, id, axis, r.settings.split, GoesSecond(pointer, rect, axis));
    BranchMeasures(leaf, at, slot, id, axis, GoesSecond(pointer, rect, axis), rect, r);
    HalvesGrow(b, b, rect, more, r, loss);
    SelfAsks(b.first, r);
    SelfAsks(b.second, r);
    hide Halves, Measured, GoesSecond;
  }

  lemma SelfAsks(t: Tree, r: Rules)
    ensures AsksMore(t, t, r)
  {}

  /** Whether a layout gives window `id` a tile at least its floor and the minimum. */
  ghost predicate GivesRoom(t: Tree, rect: Rect, r: Rules, id: Id, slack: real) {
    exists tile: Rect :: (id, tile) in Place(t, rect, r)
        && tile.w + slack >= FloorOf(r.floors, id).w && tile.w + slack >= r.settings.minimum.w
        && tile.h + slack >= FloorOf(r.floors, id).h && tile.h + slack >= r.settings.minimum.h
  }

  /** A split that was accepted really fits: laid out with every seam above it
      rebalanced for what it now asks, both windows' tiles hold the minimum and
      their own floors, to within SLACK and the tolerance of each level. */
  lemma AcceptedFits(t: Tree, target: nat, box: Rect, at: nat, slot: nat, id: Id, axis: Axis,
                     pointer: Option<(real, real)>, rect: Rect, r: Rules)
    requires r.Gap() >= 0.0 && t.Proper() && target in t.Slots() && Node(t, target).Leaf?
    requires at !in t.Slots() && slot !in t.Slots() && at != slot && id !in t.Ids()
    requires BoxOf(t, rect, r, target) == Some(box)
    requires FitsAcross(axis, box, FloorOf(r.floors, Node(t, target).id), FloorOf(r.floors, id), pointer, r.settings)
    ensures var u := Hung(t, target, at, slot, id, axis, r.settings.split, GoesSecond(pointer, box, axis));
            && GivesRoom(u, rect, r, id, SLACK + Cost(t.Depth() + 1, r))
            && GivesRoom(u, rect, r, Node(t, target).id, SLACK + Cost(t.Depth() + 1, r))
  {
    hide Halves, FitsAcross, GoesSecond, Ask, Holds, FloorOf, Place, BoxOf;
    var leaf := Node(t, target);
    var b := Branch(leaf, at, slot, id, axis, r.settings.split, GoesSecond(pointer, box, axis));
    var u := Grown(t, target, b);
    BranchAsksMore(leaf, at, slot, id, axis, r.settings.split, GoesSecond(pointer, box, axis), r);
    BoxGrows(t, rect, rect, r, target, b, 0.0);
    var grown := BoxOf(u, rect, r, b.at).value;
    CostGrows(0, t.Depth(), r);
    BranchFits(leaf, at, slot, id, axis, pointer, box, grown, r, Cost(t.Depth(), r));
    NodeSlots(t, target);
    GrownProper(t, target, b);
    PlacedInside(u, rect, r, b.at);
  }

  /** What replacing a leaf does to the slots and the windows of a tree. */
  lemma {:induction false} GrownProper(t: Tree, target: nat, sub: Tree)
    requires t.Proper() && target in t.Slots() && Node(t, target).Leaf? && sub.Proper()
    requires sub.Slots() * t.Slots() <= {target} && sub.Ids() * t.Ids() <= {Node(t, target).id}
    ensures var u := Grown(t, target, sub);
            && u.Proper()
            && u.Slots() == t.Slots() - {target} + sub.Slots()
            && u.Ids() == t.Ids() - {Node(t, target).id} + sub.Ids()
    ensures sub.at !in t.Slots() ==> Node(Grown(t, target, sub), sub.at) == sub
  {
    if t.at != target {
      var u := Grown(t, target, sub);
      NodeSlots(t, target);
      GrownElsewhere(t.first, target, sub);
      GrownElsewhere(t.second, target, sub);
      var (inner, other) := if target in t.first.Slots() then (t.first, t.second) else (t.second, t.first);
      NodeSlots(inner, target);
      LeafIds(inner, target);
      GrownProper(inner, target, sub);
      assert Grown(inner, target, sub).Slots() !! other.Slots();
      assert Grown(inner, target, sub).Ids() !! other.Ids();
    }
  }

  lemma LeafIds(t: Tree, at: nat)
    requires t.Proper() && at in t.Slots() && Node(t, at).Leaf?
    ensures Node(t, at).id in t.Ids()
  {
    NodeSlots(t, at);
  }

  /** The halves of a branch of two leaves, wherever it hangs, are tiles. */
  lemma {:induction false} PlacedInside(t: Tree, rect: Rect, r: Rules, at: nat)
    requires t.Proper() && at in t.Slots() && BoxOf(t, rect, r, at).Some?
    requires Node(t, at).Split? && Node(t, at).first.Leaf? && Node(t, at).second.Leaf?
    ensures var n := Node(t, at);
            var (one, two) := Halves(n, BoxOf(t, rect, r, at).value, r);
            (n.first.id, one) in Place(t, rect, r) && (n.second.id, two) in Place(t, rect, r)
  {
    var (one, two) := Halves(t, rect, r);
    hide Halves;
    if t.at == at {
      assert Place(t, rect, r) == [(t.first.id, one)] + [(t.second.id, two)];
    } else {
      BoxOfElsewhere(t.first, one, r, at);
      if at in t.first.Slots() { PlacedInside(t.first, one, r, at); } else { PlacedInside(t.second, two, r, at); }
    }
  }
}
