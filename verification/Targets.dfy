/** Which tile makes room for a new window, in the tiles' own coordinates. */
module Targets {
  import opened Basics
  import opened Geometry
  import opened Dwindle
  import opened Seams
  import opened Choosing

  /** The first listed tile a point is in: its left and top edges are its own, its right and
      bottom its neighbours'. */
  ghost predicate FirstOver(boxes: Boxes, i: nat, p: (real, real)) {
    i < |boxes| && Over(boxes[i].1, p) && forall j :: 0 <= j < i ==> !Over(boxes[j].1, p)
  }

  predicate Over(tile: Rect, p: (real, real)) {
    tile.x <= p.0 < tile.x + tile.w && tile.y <= p.1 < tile.y + tile.h
  }

  lemma {:induction false} UnderIsFirst(boxes: Boxes, p: (real, real)) returns (i: nat)
    ensures match Under(boxes, p)
            case Some(id) => FirstOver(boxes, i, p) && boxes[i].0 == id
            case None => forall j :: 0 <= j < |boxes| ==> !Over(boxes[j].1, p)
  {
    i := 0;
    if boxes != [] && !Over(boxes[0].1, p) {
      i := UnderIsFirst(boxes[1..], p);
      assert forall j :: 0 <= j < |boxes[1..]| ==> boxes[j + 1] == boxes[1..][j];
      assert forall j :: 0 < j < |boxes| ==> boxes[j] == boxes[1..][j - 1];
      i := i + 1;
    }
  }

  /** The square of how far a point is from a tile's centre. */
  function SquareAway(tile: Rect, p: (real, real)): real {
    Squared(tile.x + tile.w / 2.0 - p.0) + Squared(tile.y + tile.h / 2.0 - p.1)
  }

  function Squared(a: real): real { a * a }

  /** No listed tile's centre is nearer, nor an earlier one's as near. */
  ghost predicate FirstNearest(boxes: Boxes, k: nat, p: (real, real)) {
    && k < |boxes|
    && (forall i :: 0 <= i < |boxes| ==> SquareAway(boxes[k].1, p) <= SquareAway(boxes[i].1, p))
    && forall i :: 0 <= i < k ==> SquareAway(boxes[k].1, p) < SquareAway(boxes[i].1, p)
  }

  /** A new window splits the tile of the window named for it, if that is another that is
      there; else the tile its pointer is in; else the tile nearest its pointer, or the
      first tile's corner. */
  lemma TargetRule(t: Tree, id: Id, named: Option<Id>, at: Option<(real, real)>, area: Rect, r: Rules) returns (k: nat)
    requires t.Proper()
    ensures var boxes := Layout(t, area, r);
            var target := SplitTarget(t, id, named, at, boxes);
            && target in t.Slots() && Node(t, target).Leaf?
            && k < |boxes| && boxes[k].0 == Node(t, target).id
            && if named.Some? && named.value != id && named.value in t.Ids() then boxes[k].0 == named.value
               else if at.Some? && exists i :: 0 <= i < |boxes| && Over(boxes[i].1, at.value) then
                 FirstOver(boxes, k, at.value)
               else FirstNearest(boxes, k, if at.Some? then at.value else (boxes[0].1.x, boxes[0].1.y))
  {
    var boxes := Layout(t, area, r);
    var rect := area.Inset(r.Gap());
    hide Place, Under, NearestTile, LeafSlot, FirstNearest, FirstOver, Node;
    TargetIsLeaf(t, id, named, at, rect, r);
    PlacesWindows(t, rect, r);
    WindowsOf(t);
    var p := if at.Some? then at.value else (boxes[0].1.x, boxes[0].1.y);
    k := 0;
    if named.Some? && named.value != id && named.value in t.Ids() {
      LeafSlotFinds(t, named.value);
      k := Listed(t, rect, r, named.value);
    } else {
      if named.Some? { LeafSlotFinds(t, named.value); }
      var i := UnderIsFirst(boxes, p);
      if at.Some? && Under(boxes, p).Some? {
        k := i;
      } else {
        k := NearestTile(boxes, p);
        NearestIsFirst(boxes, p);
      }
      LeafSlotFinds(t, boxes[k].0);
    }
  }

  lemma NearestIsFirst(boxes: Boxes, p: (real, real))
    requires boxes != []
    ensures FirstNearest(boxes, NearestTile(boxes, p), p)
  {
    hide NearestTile, Squared, Distance;
    forall i | 0 <= i < |boxes| ensures SquareAway(boxes[i].1, p) == Distance(boxes[i].1, p) { SquareAwayIs(boxes[i].1, p); }
  }

  lemma SquareAwayIs(tile: Rect, p: (real, real))
    ensures SquareAway(tile, p) == Distance(tile, p)
  {}

  /** A window of the tree is listed. */
  lemma {:induction false} Listed(t: Tree, rect: Rect, r: Rules, id: Id) returns (k: nat)
    requires id in t.Ids()
    ensures k < |Place(t, rect, r)| && Place(t, rect, r)[k].0 == id
  {
    k := 0;
    if t.Split? {
      var (one, two) := Halves(t, rect, r);
      hide Halves;
      if id in t.first.Ids() {
        k := Listed(t.first, one, r, id);
      } else {
        k := Listed(t.second, two, r, id);
        k := |Place(t.first, one, r)| + k;
      }
    }
  }
}
