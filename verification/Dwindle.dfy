/** The dwindle tree as a value: what each subtree asks of the room, the ratio
    each split is drawn at, and where every window goes. `at` is the arena slot
    a node lives in. */
module Dwindle {
  import opened Basics
  import opened Geometry

  /** What a layout is asked for with: the windows' own floors and the settings. */
  datatype Rules = Rules(floors: Floors, settings: Settings) {
    function Gap(): real { settings.gap }
  }

  datatype Tree =
    | Leaf(at: nat, id: Id)
    | Split(at: nat, axis: Axis, ratio: real, first: Tree, second: Tree)
  {
    /** The arena slots the subtree lives in. */
    function Slots(): set<nat> {
      if Leaf? then {at} else {at} + first.Slots() + second.Slots()
    }

    /** Every window, in tree order. */
    function Windows(): seq<Id> {
      if Leaf? then [id] else first.Windows() + second.Windows()
    }

    function Ids(): set<Id> {
      if Leaf? then {id} else first.Ids() + second.Ids()
    }

    function Depth(): nat {
      if Leaf? then 0
      else 1 + if first.Depth() >= second.Depth() then first.Depth() else second.Depth()
    }

    /** One node a slot and one leaf a window, every seam held in 5..95%. */
    ghost predicate Proper() {
      Split? ==>
        && first.Proper() && second.Proper()
        && at !in first.Slots() && at !in second.Slots()
        && first.Slots() !! second.Slots()
        && first.Ids() !! second.Ids()
        && 0.05 <= ratio <= 0.95
    }
  }

  /** The need of a subtree on one axis, from the floors of its leaves up. */
  function Ask(t: Tree, axis: Axis, r: Rules): Need {
    match t
    case Leaf(_, id) => NeedOf(FloorOf(r.floors, id), axis, r.settings)
    case Split(_, on, _, first, second) =>
      if on == axis then Both(Ask(first, axis, r), Ask(second, axis, r), r.Gap())
      else Either(Ask(first, axis, r), Ask(second, axis, r))
  }

  /** Where a split's seam is in a layout. With no floors set nothing is rebalanced. */
  function Drawn(t: Tree, rect: Rect, r: Rules): real
    requires t.Split?
  {
    if r.floors == map[] then t.ratio
    else Shared(t.axis, t.ratio, Ask(t.first, t.axis, r), Ask(t.second, t.axis, r), rect, r.settings)
  }

  function Halves(t: Tree, rect: Rect, r: Rules): (Rect, Rect)
    requires t.Split?
  {
    Cut(rect, t.axis, Drawn(t, rect, r), r.Gap())
  }

  /** Where every window of a subtree goes. */
  function Place(t: Tree, rect: Rect, r: Rules): seq<(Id, Rect)> {
    match t
    case Leaf(_, id) => [(id, rect)]
    case Split(_, _, _, first, second) =>
      var (one, two) := Halves(t, rect, r);
      Place(first, one, r) + Place(second, two, r)
  }

  /** Where every window goes: the tree in the area less its margin. */
  function Layout(t: Tree, area: Rect, r: Rules): seq<(Id, Rect)> {
    Place(t, area.Inset(r.Gap()), r)
  }

  /** The box of the node in slot `at`, branches included. */
  function BoxOf(t: Tree, rect: Rect, r: Rules, at: nat): Option<Rect> {
    if t.at == at then Some(rect)
    else if t.Leaf? then None
    else
      var (one, two) := Halves(t, rect, r);
      var found := BoxOf(t.first, one, r, at);
      if found.Some? then found else BoxOf(t.second, two, r, at)
  }

  // ---- The layout is an exact tiling ----

  /** Whether a cut has room for both halves: what the first takes, a pixel at least,
      leaves the second a pixel. */
  ghost predicate CutHasRoom(t: Tree, rect: Rect, r: Rules)
    requires t.Split?
  {
    var room := t.axis.Extent(rect) - r.Gap();
    room - Max(Part(room, Drawn(t, rect, r)), 1.0) >= 1.0
  }

  /** So at every split of a layout. */
  ghost predicate CutsHaveRoom(t: Tree, rect: Rect, r: Rules) {
    t.Split? ==>
      var (one, two) := Halves(t, rect, r);
      CutHasRoom(t, rect, r) && CutsHaveRoom(t.first, one, r) && CutsHaveRoom(t.second, two, r)
  }

  /** At every split the two extents and the gap are the whole extent. */
  ghost predicate CutsAreExact(t: Tree, rect: Rect, r: Rules) {
    t.Split? ==>
      var (one, two) := Halves(t, rect, r);
      && t.axis.Extent(one) + r.Gap() + t.axis.Extent(two) == t.axis.Extent(rect)
      && CutsAreExact(t.first, one, r) && CutsAreExact(t.second, two, r)
  }

  lemma CutIsExact(t: Tree, rect: Rect, r: Rules)
    requires t.Split?
    ensures var (one, two) := Halves(t, rect, r);
            t.axis.Extent(one) + r.Gap() + t.axis.Extent(two) == t.axis.Extent(rect) <==> CutHasRoom(t, rect, r)
  {
    hide Part, Drawn;
  }

  /** And they are exactly where every cut has room for both halves. */
  lemma {:induction false} CutsExactly(t: Tree, rect: Rect, r: Rules)
    ensures CutsAreExact(t, rect, r) <==> CutsHaveRoom(t, rect, r)
  {
    hide Halves, CutHasRoom;
    if t.Split? {
      var (one, two) := Halves(t, rect, r);
      CutIsExact(t, rect, r);
      CutsExactly(t.first, one, r);
      CutsExactly(t.second, two, r);
    }
  }

  /** A cut with room: the halves side by side, a gap between, nothing over. */
  lemma CutTiles(t: Tree, rect: Rect, r: Rules)
    requires t.Split? && CutHasRoom(t, rect, r) && r.Gap() >= 0.0
    ensures var (one, two) := Halves(t, rect, r);
            && one.Inside(rect) && two.Inside(rect) && Apart(one, two, r.Gap())
            && t.axis.Start(one) == t.axis.Start(rect) && t.axis.End(two) == t.axis.End(rect)
            && t.axis.End(one) + r.Gap() == t.axis.Start(two)
            && t.axis.Extent(one) + r.Gap() + t.axis.Extent(two) == t.axis.Extent(rect)
            && t.axis.Extent(one) >= 1.0 && t.axis.Extent(two) >= 1.0
            && one == Slab(rect, t.axis, t.axis.Start(one), t.axis.Extent(one))
            && two == Slab(rect, t.axis, t.axis.Start(two), t.axis.Extent(two))
  {}

  lemma PlacesWindows(t: Tree, rect: Rect, r: Rules)
    ensures var out := Place(t, rect, r);
            && |out| == |t.Windows()|
            && forall i :: 0 <= i < |out| ==> out[i].0 == t.Windows()[i]
  {}

  /** Each window once and in tree order, every tile inside the box, and any two
      tiles at least the gap apart, whatever the floors. */
  lemma {:induction false} LayoutTiles(t: Tree, rect: Rect, r: Rules)
    requires CutsHaveRoom(t, rect, r) && r.Gap() >= 0.0
    ensures var out := Place(t, rect, r);
            && |out| == |t.Windows()|
            && (forall i :: 0 <= i < |out| ==> out[i].0 == t.Windows()[i])
            && (forall i :: 0 <= i < |out| ==> out[i].1.Inside(rect))
            && (forall i, j :: 0 <= i < j < |out| ==> Apart(out[i].1, out[j].1, r.Gap()))
  {
    if t.Split? {
      var (one, two) := Halves(t, rect, r);
      CutTiles(t, rect, r);
      LayoutTiles(t.first, one, r);
      LayoutTiles(t.second, two, r);
      var out, left := Place(t, rect, r), Place(t.first, one, r);
      forall i, j | 0 <= i < j < |out|
        ensures Apart(out[i].1, out[j].1, r.Gap())
      {
        if i < |left| <= j {
          ApartInside(out[i].1, one, out[j].1, two, r.Gap());
        }
      }
    }
  }

  lemma ApartInside(a: Rect, one: Rect, b: Rect, two: Rect, gap: real)
    requires a.Inside(one) && b.Inside(two) && Apart(one, two, gap)
    ensures Apart(a, b, gap)
  {}

  /** Whether a point is in the band between the halves of some split. */
  ghost predicate InBand(t: Tree, rect: Rect, r: Rules, x: real, y: real) {
    t.Split? &&
      var (one, two) := Halves(t, rect, r);
      var band := Slab(rect, t.axis, t.axis.End(one), r.Gap());
      band.Contains(x, y) || InBand(t.first, one, r, x, y) || InBand(t.second, two, r, x, y)
  }

  ghost predicate InTile(out: seq<(Id, Rect)>, x: real, y: real) {
    exists i :: 0 <= i < |out| && out[i].1.Contains(x, y)
  }

  /** The tiles and the bands cover the box: every point of it is in a tile or in
      a gap, so with no gap the tiles partition it. */
  lemma {:induction false} LayoutCovers(t: Tree, rect: Rect, r: Rules, x: real, y: real)
    requires CutsHaveRoom(t, rect, r) && r.Gap() >= 0.0 && rect.Contains(x, y)
    ensures InBand(t, rect, r, x, y) || InTile(Place(t, rect, r), x, y)
  {
    var out := Place(t, rect, r);
    if t.Leaf? {
      assert out[0].1.Contains(x, y);
    } else {
      var (one, two) := Halves(t, rect, r);
      CutTiles(t, rect, r);
      var left, right := Place(t.first, one, r), Place(t.second, two, r);
      if one.Contains(x, y) {
        LayoutCovers(t.first, one, r, x, y);
        if i :| 0 <= i < |left| && left[i].1.Contains(x, y) { assert out[i] == left[i] && out[i].1.Contains(x, y); }
      } else if two.Contains(x, y) {
        LayoutCovers(t.second, two, r, x, y);
        if i :| 0 <= i < |right| && right[i].1.Contains(x, y) {
          assert out[|left| + i] == right[i] && out[|left| + i].1.Contains(x, y);
        }
      }
    }
  }
}
