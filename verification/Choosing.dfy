/** Which tile a new window splits, and what adding, taking out and trading
    windows does to the tree. */
module Choosing {
  import opened Basics
  import opened Geometry
  import opened Dwindle
  import opened Seams
  import opened Inserting

  type Boxes = seq<(Id, Rect)>

  /** The slot of the leaf a window is in. */
  function LeafSlot(t: Tree, id: Id): Option<nat> {
    if t.Leaf? then (if t.id == id then Some(t.at) else None)
    else
      var found := LeafSlot(t.first, id);
      if found.Some? then found else LeafSlot(t.second, id)
  }

  /** The first listed tile that contains `p`. */
  function Under(boxes: Boxes, p: (real, real)): Option<Id> {
    if boxes == [] then None
    else if boxes[0].1.Contains(p.0, p.1) then Some(boxes[0].0)
    else Under(boxes[1..], p)
  }

  /** The square of a point's distance from a tile's centre. */
  function Distance(rect: Rect, p: (real, real)): real {
    var dx := rect.x + rect.w / 2.0 - p.0;
    var dy := rect.y + rect.h / 2.0 - p.1;
    dx * dx + dy * dy
  }

  /** The place in `boxes` of the nearest tile, the earlier of two as near. */
  function NearestTile(boxes: Boxes, p: (real, real)): (k: nat)
    requires boxes != []
    ensures k < |boxes|
    ensures forall i :: 0 <= i < |boxes| ==> Distance(boxes[k].1, p) <= Distance(boxes[i].1, p)
    ensures forall i :: 0 <= i < k ==> Distance(boxes[k].1, p) < Distance(boxes[i].1, p)
    decreases |boxes|
  {
    if |boxes| == 1 then 0
    else
      var last := |boxes| - 1;
      var k := NearestTile(boxes[..last], p);
      if Distance(boxes[last].1, p) < Distance(boxes[k].1, p) then last else k
  }

  /** The leaf that makes room for a new window. A window named for it comes first (the
      new one itself does not count), then the tile the pointer is in, then the tile
      whose centre is least far from the pointer, or from the first tile's corner. */
  function SplitTarget(t: Tree, id: Id, named: Option<Id>, at: Option<(real, real)>, boxes: Boxes): nat {
    var byName := if named.Some? && named.value != id then LeafSlot(t, named.value) else None;
    if byName.Some? then byName.value else
    var under := if at.Some? then Under(boxes, at.value) else None;
    var byPoint := if under.Some? then LeafSlot(t, under.value) else None;
    if byPoint.Some? then byPoint.value else
    if boxes == [] then t.at else
    var p := if at.Some? then at.value else (boxes[0].1.x, boxes[0].1.y);
    var byDistance := LeafSlot(t, boxes[NearestTile(boxes, p)].0);
    if byDistance.Some? then byDistance.value else t.at
  }

  /** Where a window's tile is, by its id. */
  function TileOf(boxes: Boxes, id: Id): Option<Rect> {
    if boxes == [] then None else if boxes[0].0 == id then Some(boxes[0].1) else TileOf(boxes[1..], id)
  }

  // ---- The choice is a leaf, and its box is the box the layout gives it ----

  lemma LeafSlotFinds(t: Tree, id: Id)
    requires t.Proper()
    ensures LeafSlot(t, id).Some? <==> id in t.Ids()
    ensures LeafSlot(t, id).Some? ==>
              var at := LeafSlot(t, id).value;
              at in t.Slots() && Node(t, at) == Leaf(at, id)
  {}

  lemma {:induction false} SlotOfLeaf(t: Tree, at: nat)
    requires t.Proper() && at in t.Slots() && Node(t, at).Leaf?
    ensures Node(t, at).id in t.Ids() && LeafSlot(t, Node(t, at).id) == Some(at)
  {
    if t.Split? {
      LeafSlotFinds(t.first, Node(t, at).id);
      if at in t.first.Slots() { SlotOfLeaf(t.first, at); } else { SlotOfLeaf(t.second, at); }
    }
  }

  lemma TargetIsLeaf(t: Tree, id: Id, named: Option<Id>, at: Option<(real, real)>, rect: Rect, r: Rules)
    requires t.Proper()
    ensures var target := SplitTarget(t, id, named, at, Place(t, rect, r));
            target in t.Slots() && Node(t, target).Leaf?
  {
    var boxes := Place(t, rect, r);
    PlacesWindows(t, rect, r);
    WindowsOf(t);
    if named.Some? { LeafSlotFinds(t, named.value); }
    if at.Some? {
      UnderIsPlaced(boxes, at.value);
      if Under(boxes, at.value).Some? { LeafSlotFinds(t, Under(boxes, at.value).value); }
    }
    var p := if at.Some? then at.value else (boxes[0].1.x, boxes[0].1.y);
    LeafSlotFinds(t, boxes[NearestTile(boxes, p)].0);
  }

  lemma UnderIsPlaced(boxes: Boxes, p: (real, real))
    ensures Under(boxes, p).Some? ==> exists i :: 0 <= i < |boxes| && boxes[i].0 == Under(boxes, p).value
  {
    if boxes != [] && !boxes[0].1.Contains(p.0, p.1) && Under(boxes, p).Some? {
      UnderIsPlaced(boxes[1..], p);
      var i :| 0 <= i < |boxes[1..]| && boxes[1..][i].0 == Under(boxes, p).value;
      assert boxes[i + 1].0 == Under(boxes, p).value;
    }
  }

  lemma WindowsOf(t: Tree)
    ensures |t.Windows()| > 0
    ensures forall i :: 0 <= i < |t.Windows()| ==> t.Windows()[i] in t.Ids()
  {}

  /** A window's tile in the layout is its leaf's box. */
  lemma {:induction false} TileIsBox(t: Tree, rect: Rect, r: Rules, at: nat)
    requires t.Proper() && at in t.Slots() && Node(t, at).Leaf?
    ensures TileOf(Place(t, rect, r), Node(t, at).id) == BoxOf(t, rect, r, at)
  {
    if t.Split? {
      var id := Node(t, at).id;
      BoxOfInside(t, rect, r, at);
      SlotOfLeaf(t, at);
      var (one, two) := Halves(t, rect, r);
      hide Halves;
      TileOfJoined(Place(t.first, one, r), Place(t.second, two, r), id);
      if at in t.first.Slots() {
        TileIsBox(t.first, one, r, at);
        BoxOfElsewhere(t.first, one, r, at);
      } else {
        TileIsBox(t.second, two, r, at);
        SlotOfLeaf(t.second, at);
        NoTile(t.first, one, r, id);
      }
    }
  }

  lemma TileOfJoined(a: Boxes, b: Boxes, id: Id)
    ensures TileOf(a + b, id) == if TileOf(a, id).Some? then TileOf(a, id) else TileOf(b, id)
  {
    if a == [] {
      assert a + b == b;
    } else {
      assert (a + b)[1..] == a[1..] + b;
    }
  }

  lemma NoTile(t: Tree, rect: Rect, r: Rules, id: Id)
    ensures id !in t.Ids() ==> TileOf(Place(t, rect, r), id).None?
  {
    if t.Split? {
      var (one, two) := Halves(t, rect, r);
      hide Halves;
      NoTile(t.first, one, r, id);
      NoTile(t.second, two, r, id);
      TileOfJoined(Place(t.first, one, r), Place(t.second, two, r), id);
    }
  }

  // ---- Largest first ----

  function Area(rect: Rect): real { rect.w * rect.h }

  /** Tile `i` comes before tile `j`: it is larger, or as large and earlier. */
  predicate Before(boxes: Boxes, i: nat, j: nat)
    requires i < |boxes| && j < |boxes|
  {
    Area(boxes[i].1) > Area(boxes[j].1) || (Area(boxes[i].1) == Area(boxes[j].1) && i < j)
  }

  ghost predicate Ordered(boxes: Boxes, order: seq<nat>) {
    && (forall p :: 0 <= p < |order| ==> order[p] < |boxes|)
    && forall p, q :: 0 <= p < q < |order| ==> Before(boxes, order[p], order[q])
  }

  /** `order` with `i` put in its place. */
  function Placed(boxes: Boxes, order: seq<nat>, i: nat): (out: seq<nat>)
    requires Ordered(boxes, order) && i < |boxes| && i !in order
    ensures Ordered(boxes, out) && forall j: nat :: j in out <==> j == i || j in order
    decreases |order|
  {
    if order == [] then [i]
    else if Before(boxes, i, order[0]) then [i] + order
    else
      assert forall p, q :: 0 <= p < q < |order[1..]| ==> Before(boxes, order[1..][p], order[1..][q]);
      var rest := Placed(boxes, order[1..], i);
      assert forall q :: 0 <= q < |rest| ==> Before(boxes, order[0], rest[q]) by {
        forall q | 0 <= q < |rest|
          ensures Before(boxes, order[0], rest[q])
        {
          assert rest[q] in rest;
          if rest[q] != i {
            var k :| 0 <= k < |order[1..]| && order[1..][k] == rest[q];
            assert order[k + 1] == rest[q];
          }
        }
      }
      assert forall j: nat :: j in order <==> j == order[0] || j in order[1..];
      [order[0]] + rest
  }

  /** The first `n` tiles, largest first and the earlier of two as large. */
  function ByArea(boxes: Boxes, n: nat): (order: seq<nat>)
    requires n <= |boxes|
    ensures Ordered(boxes, order) && forall j: nat :: j in order <==> j < n
  {
    if n == 0 then [] else Placed(boxes, ByArea(boxes, n - 1), n - 1)
  }

  // ---- Taking a window out and trading two ----

  /** The tree without a window: its sibling takes its parent's place. */
  function Without(t: Tree, id: Id): Option<Tree> {
    if t.Leaf? then (if t.id == id then None else Some(t))
    else if id in t.first.Ids() then
      var rest := Without(t.first, id);
      if rest.None? then Some(t.second) else Some(t.(first := rest.value))
    else
      var rest := Without(t.second, id);
      if rest.None? then Some(t.first) else Some(t.(second := rest.value))
  }

  /** The tree whose leaves `a` and `b` carry each other's ids. */
  function Traded(t: Tree, a: Id, b: Id): Tree {
    if t.Leaf? then t.(id := if t.id == a then b else if t.id == b then a else t.id)
    else t.(first := Traded(t.first, a, b), second := Traded(t.second, a, b))
  }

  /** Adding a window and taking it out again gives back the tree there was. */
  lemma {:induction false} AddThenRemove(t: Tree, target: nat, at: nat, slot: nat, id: Id, axis: Axis, split: real,
                                         second: bool)
    requires t.Proper() && target in t.Slots() && Node(t, target).Leaf? && id !in t.Ids()
    ensures Without(Hung(t, target, at, slot, id, axis, split, second), id) == Some(t)
  {
    var sub := Branch(Node(t, target), at, slot, id, axis, split, second);
    var u := Grown(t, target, sub);
    if t.Split? {
      GrownElsewhere(t.first, target, sub);
      GrownElsewhere(t.second, target, sub);
      if target in t.first.Slots() {
        AddThenRemove(t.first, target, at, slot, id, axis, split, second);
        HungHolds(t.first, target, at, slot, id, axis, split, second);
      } else {
        AddThenRemove(t.second, target, at, slot, id, axis, split, second);
        HungHolds(t.second, target, at, slot, id, axis, split, second);
      }
    }
  }

  lemma HungHolds(t: Tree, target: nat, at: nat, slot: nat, id: Id, axis: Axis, split: real, second: bool)
    requires t.Proper() && target in t.Slots() && Node(t, target).Leaf?
    ensures id in Hung(t, target, at, slot, id, axis, split, second).Ids()
  {}

  lemma {:induction false} TradeTwice(t: Tree, a: Id, b: Id)
    ensures Traded(Traded(t, a, b), a, b) == t
  {
    if t.Split? {
      TradeTwice(t.first, a, b);
      TradeTwice(t.second, a, b);
    }
  }

  /** Trading ids leaves the rectangles alone: with no floors, the layouts before and
      after differ in the two ids and in nothing else. */
  lemma {:induction false} TradeKeepsTiles(t: Tree, rect: Rect, r: Rules, a: Id, b: Id)
    requires r.floors == map[]
    ensures var (before, after) := (Place(t, rect, r), Place(Traded(t, a, b), rect, r));
            && |before| == |after|
            && forall i :: 0 <= i < |before| ==>
                 && after[i].1 == before[i].1
                 && after[i].0 == if before[i].0 == a then b else if before[i].0 == b then a else before[i].0
  {
    if t.Split? {
      hide Cut;
      var (one, two) := Halves(t, rect, r);
      TradeKeepsTiles(t.first, one, r, a, b);
      TradeKeepsTiles(t.second, two, r, a, b);
    }
  }

  lemma {:induction false} WithoutProper(t: Tree, id: Id)
    requires t.Proper() && id in t.Ids()
    ensures Without(t, id).None? <==> t.Leaf?
    ensures var u := Without(t, id);
            u.Some? ==> u.value.Proper() && u.value.Slots() < t.Slots() && u.value.Ids() == t.Ids() - {id}
  {
    if t.Split? {
      if id in t.first.Ids() { WithoutProper(t.first, id); } else { WithoutProper(t.second, id); }
    }
  }

  lemma TradedProper(t: Tree, a: Id, b: Id)
    requires t.Proper()
    ensures var u := Traded(t, a, b);
            && u.Proper() && u.at == t.at && u.Slots() == t.Slots()
            && forall id :: id in u.Ids() <==> (if id == a then b else if id == b then a else id) in t.Ids()
  {}

  lemma WithoutAbsent(t: Tree, id: Id)
    ensures id !in t.Ids() ==> Without(t, id) == Some(t)
  {}

  /** The k-th tile of a layout is its window's own box. */
  lemma {:induction false} TileAt(t: Tree, rect: Rect, r: Rules, k: nat)
    requires t.Proper() && k < |Place(t, rect, r)|
    ensures var tile := Place(t, rect, r)[k];
            var at := LeafSlot(t, tile.0);
            && at.Some? && at.value in t.Slots() && Node(t, at.value) == Leaf(at.value, tile.0)
            && BoxOf(t, rect, r, at.value) == Some(tile.1)
  {
    var tile := Place(t, rect, r)[k];
    PlacesWindows(t, rect, r);
    WindowsOf(t);
    LeafSlotFinds(t, tile.0);
    if t.Split? {
      var at := LeafSlot(t, tile.0).value;
      var (one, two) := Halves(t, rect, r);
      hide Halves;
      LeafSlotFinds(t.first, tile.0);
      LeafSlotFinds(t.second, tile.0);
      BoxOfInside(t, rect, r, at);
      if k < |Place(t.first, one, r)| {
        TileAt(t.first, one, r, k);
      } else {
        TileAt(t.second, two, r, k - |Place(t.first, one, r)|);
      }
    }
  }
}
