/** A seam whose side is rebalanced inside: a drag within its room that squeezes a tile. */
module Squeezed {
  import opened Basics
  import opened Geometry
  import opened Dwindle
  import opened Growing
  import opened Seams
  import opened Squeeze

  /** Three windows beside a fourth, and in `OneFloor` a floor of 600 for the first. */
  function ThreeAndOne(ratio: real): Tree { Split(0, Vertical, ratio, Three(), Leaf(6, 4)) }

  function Three(): Tree { Split(1, Vertical, 0.5, Leaf(2, 1), Two()) }

  function Two(): Tree { Split(3, Vertical, 0.8, Leaf(4, 2), Leaf(5, 3)) }

  function OneFloor(): Rules {
    Rules(map[1 := Minimum(600.0, 0.0)], Settings(0.0, 0.5, Minimum(100.0, 0.0)))
  }

  function Wide(from: real, length: real): Rect { Rect(from, 0.0, length, 100.0) }

  lemma LeafAsks(at: nat, id: Id)
    ensures Ask(Leaf(at, id), Vertical, OneFloor()) == if id == 1 then Need(600.0, 600.0) else Need(0.0, 100.0)
  {}

  lemma TheyAsk()
    ensures OneFloor().floors != map[]
    ensures Ask(Two(), Vertical, OneFloor()) == Need(0.0, 200.0)
    ensures Ask(Three(), Vertical, OneFloor()) == Need(800.0, 800.0)
  {
    assert 1 in OneFloor().floors;
    LeafAsks(2, 1);
    LeafAsks(4, 2);
    LeafAsks(5, 3);
    hide NeedOf, FloorOf;
  }

  /** A split of a wide box: the ratio it is drawn at. */
  lemma DrawnWide(t: Tree, from: real, length: real, one: real, shown: real)
    requires t.Split? && t.axis == Vertical && 0.05 <= t.ratio <= 0.95 && length >= 1.0 && one == length * t.ratio
    requires shown == SharedOf(length, t.ratio, one, Ask(t.first, Vertical, OneFloor()),
                               Ask(t.second, Vertical, OneFloor()))
    ensures Drawn(t, Wide(from, length), OneFloor()) == shown
  {
    hide Ask, Part, SharedOf;
    TheyAsk();
    SharedWide(t.ratio, from, length, one, Ask(t.first, Vertical, OneFloor()), Ask(t.second, Vertical, OneFloor()));
  }

  lemma SharedWide(ratio: real, from: real, length: real, one: real, first: Need, second: Need)
    requires 0.05 <= ratio <= 0.95 && length >= 1.0 && one == length * ratio
    ensures Shared(Vertical, ratio, first, second, Wide(from, length), OneFloor().settings)
              == SharedOf(length, ratio, one, first, second)
  {
    hide Part, SharedOf;
    PartWithin(length, ratio);
    assert Span(Vertical, Wide(from, length), OneFloor().settings.gap) == length;
  }

  lemma CutWide(from: real, length: real, ratio: real, one: real)
    requires 0.05 <= ratio <= 0.95 && one == length * ratio && one >= 1.0 && length - one >= 1.0
    ensures Cut(Wide(from, length), Vertical, ratio, 0.0) == (Wide(from, one), Wide(from + one, length - one))
  {
    hide Part;
    PartWithin(length, ratio);
    assert Vertical.Extent(Wide(from, length)) - 0.0 == length;
  }

  /** The last two, wherever they are: they ask nothing of each other. */
  lemma TwoPlaced(from: real, length: real)
    requires length >= 100.0
    ensures Place(Two(), Wide(from, length), OneFloor())
              == [(2, Wide(from, length * 0.8)), (3, Wide(from + length * 0.8, length - length * 0.8))]
  {
    LeafAsks(4, 2);
    LeafAsks(5, 3);
    hide Ask, Part, Cut, Drawn;
    DrawnWide(Two(), from, length, length * 0.8, 0.8);
    CutWide(from, length, 0.8, length * 0.8);
  }

  /** The three in 2000: nothing is short. */
  lemma ThreeInPlenty()
    ensures (3, Wide(1800.0, 200.0)) in Place(Three(), Wide(0.0, 2000.0), OneFloor())
  {
    LeafAsks(2, 1);
    TheyAsk();
    hide Ask, Part, Cut, Drawn;
    DrawnWide(Three(), 0.0, 2000.0, 1000.0, 0.5);
    CutWide(0.0, 2000.0, 0.5, 1000.0);
    TwoPlaced(1000.0, 1000.0);
  }

  /** The three in 1000: the first takes 100 from the two. */
  lemma ThreeInNeed()
    ensures (3, Wide(920.0, 80.0)) in Place(Three(), Wide(0.0, 1000.0), OneFloor())
  {
    LeafAsks(2, 1);
    TheyAsk();
    hide Ask, Part, Cut, Drawn;
    DrawnWide(Three(), 0.0, 1000.0, 500.0, 0.6);
    CutWide(0.0, 1000.0, 0.6, 600.0);
    TwoPlaced(600.0, 400.0);
  }

  /** All four: the fourth asks nothing and gives nothing. */
  lemma FourPlaced(ratio: real, one: real)
    requires 0.25 <= ratio <= 0.5 && one == 4000.0 * ratio
    ensures Drawn(ThreeAndOne(ratio), Wide(0.0, 4000.0), OneFloor()) == ratio
    ensures Place(ThreeAndOne(ratio), Wide(0.0, 4000.0), OneFloor())
              == Place(Three(), Wide(0.0, one), OneFloor()) + [(4, Wide(one, 4000.0 - one))]
  {
    LeafAsks(6, 4);
    TheyAsk();
    hide Ask, Part, Cut, Drawn;
    DrawnWide(ThreeAndOne(ratio), 0.0, 4000.0, one, ratio);
    CutWide(0.0, 4000.0, ratio, one);
  }

  lemma FloorOfSplit(at: nat, ratio: real, first: Tree, second: Tree, one: real, two: real)
    requires 0.05 <= ratio <= 0.95
    requires FloorAlong(first, Vertical, 100.0, 0.0) == one && FloorAlong(second, Vertical, 100.0, 0.0) == two
    ensures FloorAlong(Split(at, Vertical, ratio, first, second), Vertical, 100.0, 0.0)
              == Max(one / ratio, two / (1.0 - ratio))
  {}

  lemma FloorOfLeaf(at: nat, id: Id)
    ensures FloorAlong(Leaf(at, id), Vertical, 100.0, 0.0) == 100.0
  {}

  lemma TwosFloor()
    ensures FloorAlong(Two(), Vertical, 100.0, 0.0) == 500.0
  {
    hide FloorAlong;
    FloorOfLeaf(4, 2);
    FloorOfLeaf(5, 3);
    FloorOfSplit(3, 0.8, Leaf(4, 2), Leaf(5, 3), 100.0, 100.0);
    assert 100.0 / 0.8 == 125.0 && 100.0 / (1.0 - 0.8) == 500.0;
  }

  lemma ThreesFloor()
    ensures FloorAlong(Three(), Vertical, 100.0, 0.0) == 1000.0
  {
    hide FloorAlong;
    FloorOfLeaf(2, 1);
    TwosFloor();
    FloorOfSplit(1, 0.5, Leaf(2, 1), Two(), 100.0, 500.0);
  }

  lemma FoursBounds()
    ensures Bounds(ThreeAndOne(0.5), 4000.0, OneFloor()) == (0.25, 0.95)
  {
    hide Ask, FloorAlong;
    LeafAsks(6, 4);
    TheyAsk();
    ThreesFloor();
    FloorOfLeaf(6, 4);
    assert 1000.0 / 4000.0 == 0.25 && 800.0 / 4000.0 == 0.2 && 100.0 / 4000.0 == 0.025;
  }

  lemma FourthsSeam()
    ensures SeamBeside(ThreeAndOne(0.5), 6, Left) == Some(0)
    ensures 0 in ThreeAndOne(0.5).Slots() && ThreeAndOne(0.5).Split? && Node(ThreeAndOne(0.5), 0) == ThreeAndOne(0.5)
    ensures SetRatio(ThreeAndOne(0.5), 0, 0.25) == ThreeAndOne(0.25)
  {
    assert 6 !in Three().Slots() && 6 in Leaf(6, 4).Slots();
  }

  lemma FoursRoom()
    ensures Room(ThreeAndOne(0.5), Wide(0.0, 4000.0), OneFloor()) == (0.25, 0.95)
  {
    hide Drawn, Bounds, Place, Three;
    FourPlaced(0.5, 2000.0);
    FoursBounds();
    assert Span(Vertical, Wide(0.0, 4000.0), 0.0) == 4000.0;
  }

  lemma DraggedTo(t: Tree, leaf: nat, edge: Edge, edgeAt: (real, real), area: Rect, r: Rules, rect: Rect, ratio: real)
    requires t.Split? && SeamBeside(t, leaf, edge) == Some(t.at) && t.at in t.Slots() && Node(t, t.at) == t
    requires area.Inset(r.Gap()) == rect && Room(t, rect, r).0 <= ratio <= Room(t, rect, r).1
    requires ratio == Wanted(edge, edge.At(edgeAt), rect, r.Gap())
    ensures Dragged(t, leaf, edge, edgeAt, area, r) == SetRatio(t, t.at, ratio)
  {
    hide Room, SeamBeside, SetRatio, Node, Wanted;
  }

  lemma ThreeDragged()
    ensures Dragged(ThreeAndOne(0.5), 6, Left, (1000.0, 0.0), Wide(0.0, 4000.0), OneFloor()) == ThreeAndOne(0.25)
  {
    hide Room, SeamBeside, SetRatio, Node, Three, Dragged;
    FourthsSeam();
    FoursRoom();
    NoMargin();
    FourthWanted();
    DraggedTo(ThreeAndOne(0.5), 6, Left, (1000.0, 0.0), Wide(0.0, 4000.0), OneFloor(), Wide(0.0, 4000.0), 0.25);
  }

  lemma FourthWanted()
    ensures Wanted(Left, Left.At((1000.0, 0.0)), Wide(0.0, 4000.0), OneFloor().Gap()) == 0.25
  {
    assert Left.At((1000.0, 0.0)) == 1000.0;
  }

  /** In the 1000 that a minimum of 100 asks of the three, the last two have 400 and need
      500. */
  lemma ThreeNotSpared()
    ensures !Spares(Three(), 1000.0, 100.0, OneFloor())
  {
    LeafAsks(2, 1);
    TheyAsk();
    hide Ask, Part, Cut, Drawn, FloorAlong, FirstLong, SecondLong;
    DrawnWide(Three(), 0.0, 1000.0, 500.0, 0.6);
    CutWide(0.0, 1000.0, 0.6, 600.0);
    HalvesLong(Three(), Wide(0.0, 1000.0), OneFloor());
    TwosFloor();
  }

  lemma FourNotSpared()
    ensures !SidesSpared(ThreeAndOne(0.5), OneFloor())
  {
    hide Ask, FloorAlong, Spares, Place;
    TheyAsk();
    ThreesFloor();
    ThreeNotSpared();
  }

  /** There a drag within the room squeezes a tile, because the room is measured with the
      seams where they are. The three go from 2000 to the 1000 a minimum of 100 asks of
      them, the first pulls 100 from the two, and the last is left with 80 of its 200. */
  lemma SqueezedByAFloor()
    ensures ThreeAndOne(0.5).Proper() && !SidesSpared(ThreeAndOne(0.5), OneFloor())
    ensures Room(ThreeAndOne(0.5), Wide(0.0, 4000.0), OneFloor()) == (0.25, 0.95)
    ensures Dragged(ThreeAndOne(0.5), 6, Left, (1000.0, 0.0), Wide(0.0, 4000.0), OneFloor()) == ThreeAndOne(0.25)
    ensures (3, Wide(1800.0, 200.0)) in Layout(ThreeAndOne(0.5), Wide(0.0, 4000.0), OneFloor())
    ensures (3, Wide(920.0, 80.0)) in Layout(ThreeAndOne(0.25), Wide(0.0, 4000.0), OneFloor())
  {
    hide Place, Dragged, Three, Room, ThreeAndOne, SidesSpared, Wide;
    FourIsProper();
    NoMargin();
    FoursRoom();
    FourNotSpared();
    ThreeDragged();
    FourPlaced(0.5, 2000.0);
    FourPlaced(0.25, 1000.0);
    ThreeInPlenty();
    ThreeInNeed();
  }

  lemma NoMargin()
    ensures Wide(0.0, 4000.0).Inset(OneFloor().Gap()) == Wide(0.0, 4000.0)
  {}

  lemma FourIsProper()
    ensures ThreeAndOne(0.5).Proper()
  {
    assert Two().Proper() && Two().Slots() == {3, 4, 5} && Two().Ids() == {2, 3};
    assert Three().Proper() && Three().Slots() == {1, 2, 3, 4, 5} && Three().Ids() == {1, 2, 3};
  }
}
