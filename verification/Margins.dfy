/** The margin around a layout: a gap on every side, with a window up against it. */
module Margins {
  import opened Geometry
  import opened Dwindle
  import opened Seams

  /** An area that a gap all round leaves a pixel of, both ways. */
  predicate Fits(area: Rect, gap: real) { gap >= 0.0 && area.w - 2.0 * gap >= 1.0 && area.h - 2.0 * gap >= 1.0 }

  /** Every tile is a gap or more inside the area. */
  lemma InsideMargin(t: Tree, area: Rect, r: Rules)
    requires Fits(area, r.Gap()) && CutsHaveRoom(t, area.Inset(r.Gap()), r)
    ensures forall i :: 0 <= i < |Layout(t, area, r)| ==>
              var tile := Layout(t, area, r)[i].1;
              && tile.x >= area.x + r.Gap() && tile.x + tile.w <= area.x + area.w - r.Gap()
              && tile.y >= area.y + r.Gap() && tile.y + tile.h <= area.y + area.h - r.Gap()
  {
    LayoutTiles(t, area.Inset(r.Gap()), r);
  }

  lemma {:induction false} TileFlush(t: Tree, rect: Rect, r: Rules, edge: Edge) returns (i: nat)
    requires CutsHaveRoom(t, rect, r) && r.Gap() >= 0.0
    ensures i < |Place(t, rect, r)| && edge.Of(Place(t, rect, r)[i].1) == edge.Of(rect)
  {
    i := 0;
    if t.Split? {
      var (one, two) := Halves(t, rect, r);
      CutTiles(t, rect, r);
      hide Halves;
      if t.axis == edge.Axis() && edge.Child() == 0 {
        i := TileFlush(t.second, two, r, edge);
        i := |Place(t.first, one, r)| + i;
      } else {
        i := TileFlush(t.first, one, r, edge);
      }
    }
  }

  /** And on each side some tile is no further in than that. */
  lemma ReachesMargin(t: Tree, area: Rect, r: Rules) returns (left: nat, right: nat, top: nat, bottom: nat)
    requires Fits(area, r.Gap()) && CutsHaveRoom(t, area.Inset(r.Gap()), r)
    ensures var out := Layout(t, area, r);
            && left < |out| && out[left].1.x == area.x + r.Gap()
            && right < |out| && out[right].1.x + out[right].1.w == area.x + area.w - r.Gap()
            && top < |out| && out[top].1.y == area.y + r.Gap()
            && bottom < |out| && out[bottom].1.y + out[bottom].1.h == area.y + area.h - r.Gap()
  {
    hide CutsHaveRoom, Place;
    left := TileFlush(t, area.Inset(r.Gap()), r, Left);
    right := TileFlush(t, area.Inset(r.Gap()), r, Right);
    top := TileFlush(t, area.Inset(r.Gap()), r, Top);
    bottom := TileFlush(t, area.Inset(r.Gap()), r, Bottom);
  }
}
