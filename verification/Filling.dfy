/** How a strip fills its view: a column's rows the height, columns side by side, each as
    narrow as its share and floors let it be. */
module Filling {
  import opened Basics
  import opened Geometry
  import opened Strips

  /** The rows of a column and the gaps between them are the view's height, from its top to
      its bottom, where each has a pixel. */
  lemma RowsFill(column: Column, x: real, width: real, view: Rect, gap: real)
    requires var rows := |column.windows|; rows >= 1 && view.h >= gap * (rows as real - 1.0) + rows as real
    ensures var out := Stack(column, x, width, view, gap);
            && |out| == |column.windows|
            && out[0].1.y == view.y && out[|out| - 1].1.y + out[|out| - 1].1.h == view.y + view.h
            && forall r :: 0 <= r < |out| ==>
                 && out[r].0 == column.windows[r] && out[r].1.x == x && out[r].1.w == width && out[r].1.h == out[0].1.h
                 && (r > 0 ==> out[r].1.y == out[r - 1].1.y + out[r - 1].1.h + gap)
  {
    hide RowHeight, RowY;
    var height := RowHeight(|column.windows|, view, gap);
    RowsMeet(|column.windows|, view, gap);
  }

  /** The tops of a column's rows. */
  lemma RowsMeet(rows: nat, view: Rect, gap: real)
    requires rows >= 1 && view.h >= gap * (rows as real - 1.0) + rows as real
    ensures var height := RowHeight(rows, view, gap);
            && RowY(0, height, view, gap) == view.y && RowY(rows - 1, height, view, gap) + height == view.y + view.h
            && forall r: nat :: r > 0 ==> RowY(r, height, view, gap) == RowY(r - 1, height, view, gap) + height + gap
  {
    hide Times;
    var height := RowHeight(rows, view, gap);
    HeightIs(rows as real, view.h, gap);
    hide RowHeight;
    TimesNone(height + gap);
    TimesLast(rows as real, height, gap);
    forall r: nat | r > 0
      ensures RowY(r, height, view, gap) == RowY(r - 1, height, view, gap) + height + gap
    {
      TimesNext(r as real, height + gap);
    }
  }

  lemma HeightIs(rows: real, h: real, gap: real)
    requires rows >= 1.0 && h >= gap * (rows - 1.0) + rows
    ensures var height := (h - gap * (rows - 1.0)) / rows; height >= 1.0 && rows * height == h - gap * (rows - 1.0)
  {
    var rest := h - gap * (rows - 1.0);
    Quotient(rest, rows);
    if rest / rows < 1.0 { Scale(rest / rows, 1.0, rows); }
  }

  lemma TimesNone(step: real)
    ensures Times(0.0, step) == 0.0
  {}

  lemma TimesNext(r: real, step: real)
    ensures Times(r, step) == Times(r - 1.0, step) + step
  {}

  lemma TimesLast(rows: real, height: real, gap: real)
    ensures Times(rows - 1.0, height + gap) + height == rows * height + gap * (rows - 1.0)
  {}

  lemma NextStart(columns: seq<Column>, c: nat, floors: Floors, view: Rect, gap: real)
    requires c < |columns|
    ensures ColumnX(columns, 0, floors, view, gap) == 0.0
    ensures ColumnX(columns, c + 1, floors, view, gap)
         == ColumnX(columns, c, floors, view, gap) + ColumnWidth(columns[c], floors, view) + gap
  {
    hide ColumnWidth;
  }

  /** The first column is drawn from where the view's origin puts it, and each other a gap
      right of the one before. */
  lemma ColumnsMeet(columns: seq<Column>, c: nat, r: nat, s: nat, floors: Floors, view: Rect, origin: real, gap: real)
    returns (tile: (Id, Rect), next: (Id, Rect))
    requires c + 1 < |columns| && r < |columns[c].windows| && s < |columns[c + 1].windows|
    ensures var out := Tiles(columns, |columns|, floors, view, origin, gap); tile in out && next in out
    ensures tile.0 == columns[c].windows[r] && next.0 == columns[c + 1].windows[s]
    ensures next.1.x == tile.1.x + tile.1.w + gap
    ensures c == 0 ==> tile.1.x == view.x - origin
  {
    hide Tiles, ColumnWidth, ColumnX, RowY, RowHeight;
    ColumnIsDrawn(columns, |columns|, c, r, floors, view, origin, gap);
    ColumnIsDrawn(columns, |columns|, c + 1, s, floors, view, origin, gap);
    NextStart(columns, c, floors, view, gap);
    tile := Stack(columns[c], view.x + ColumnX(columns, c, floors, view, gap) - origin,
                  ColumnWidth(columns[c], floors, view), view, gap)[r];
    next := Stack(columns[c + 1], view.x + ColumnX(columns, c + 1, floors, view, gap) - origin,
                  ColumnWidth(columns[c + 1], floors, view), view, gap)[s];
  }

  /** A column is just as wide as it must be: its share of the view, a pixel, and every floor
      inside. */
  lemma WidthIsLeast(column: Column, floors: Floors, view: Rect, width: real)
    ensures width >= ColumnWidth(column, floors, view) <==>
              && width >= Times(view.w, column.width) && width >= 1.0
              && forall id :: id in column.windows ==> width >= FloorOf(floors, id).w
  {
    hide FloorOf, Times, WidestFloor;
    if width >= 1.0 && forall id :: id in column.windows ==> width >= FloorOf(floors, id).w {
      WidestIsLeast(column.windows, floors, width);
    }
  }

  lemma {:induction false} WidestIsLeast(windows: seq<Id>, floors: Floors, width: real)
    requires width >= 0.0 && forall id :: id in windows ==> width >= FloorOf(floors, id).w
    ensures width >= WidestFloor(windows, floors)
  {
    hide FloorOf;
    if windows != [] { WidestIsLeast(windows[..|windows| - 1], floors, width); }
  }

  /** A view shows a column with a gap each side of it, or in its middle where there is no
      room for that. */
  lemma ShowsPlainly(at: real, viewWidth: real, x: real, width: real, gap: real)
    requires gap >= 0.0 && viewWidth >= width
    ensures var (left, right) := (x - at, at + viewWidth - (x + width));
            Shows(at, viewWidth, x, width, gap) <==>
              if viewWidth >= width + 2.0 * gap then left >= gap && right >= gap else left == right
  {}
}
