/** A strip of columns: where each lies, where the view goes to show one, and where
    every window is drawn. */
module Strips {
  import opened Basics
  import opened Geometry

  datatype Column = Column(windows: seq<Id>, active: nat, width: real)

  // ---- Where columns lie ----

  /** The widest floor among some windows, or zero. */
  function WidestFloor(windows: seq<Id>, floors: Floors): (widest: real)
    ensures widest >= 0.0 && forall id :: id in windows ==> FloorOf(floors, id).w <= widest
  {
    if windows == [] then 0.0
    else Max(WidestFloor(windows[..|windows| - 1], floors), FloorOf(floors, windows[|windows| - 1]).w)
  }

  /** How wide a column is drawn: its share, raised to one pixel and to every floor inside. */
  function ColumnWidth(column: Column, floors: Floors, view: Rect): (width: real)
    ensures width >= 1.0 && forall id :: id in column.windows ==> FloorOf(floors, id).w <= width
  {
    Max(Max(Times(view.w, column.width), 1.0), WidestFloor(column.windows, floors))
  }

  /** The left edge of column `index`, measured from the first column's. */
  function ColumnX(columns: seq<Column>, index: nat, floors: Floors, view: Rect, gap: real): real {
    if index == 0 then 0.0
    else if index > |columns| then ColumnX(columns, index - 1, floors, view, gap)
    else ColumnX(columns, index - 1, floors, view, gap) + ColumnWidth(columns[index - 1], floors, view) + gap
  }

  lemma {:induction false} SameStart(one: seq<Column>, two: seq<Column>, index: nat, floors: Floors, view: Rect,
                                     gap: real)
    requires index <= |one| && index <= |two| && one[..index] == two[..index]
    ensures ColumnX(one, index, floors, view, gap) == ColumnX(two, index, floors, view, gap)
  {
    if index > 0 {
      assert one[..index][index - 1] == two[..index][index - 1];
      assert one[..index][..index - 1] == one[..index - 1] && two[..index][..index - 1] == two[..index - 1];
      SameStart(one, two, index - 1, floors, view, gap);
    }
  }

  // ---- Where the view goes ----

  function Abs(a: real): real { if a < 0.0 then -a else a }

  /** The room left beside a column in the view: half of what it leaves, up to the gap. */
  function Padding(viewWidth: real, width: real, gap: real): real
    requires gap >= 0.0
  {
    Clamp((viewWidth - width) / 2.0, 0.0, gap)
  }

  /** Where the view sits from the column so that it shows: the rule in order. */
  function Fit(current: real, viewWidth: real, x: real, width: real, gap: real): real
    requires gap >= 0.0
  {
    if viewWidth <= width then 0.0
    else
      var left, right := x - Padding(viewWidth, width, gap), x + width + Padding(viewWidth, width, gap);
      if current <= left && right <= current + viewWidth then current - x
      else if Abs(current - left) <= Abs(current + viewWidth - right) then left - x
      else right - viewWidth - x
  }

  /** Whether a view at `at` shows a column with its padding on both sides. */
  predicate Shows(at: real, viewWidth: real, x: real, width: real, gap: real)
    requires gap >= 0.0
  {
    at <= x - Padding(viewWidth, width, gap) && x + width + Padding(viewWidth, width, gap) <= at + viewWidth
  }

  /** Where a view from `current` belongs: at a column as wide as it or wider, and
      else at the nearest place that shows the column with its padding. */
  ghost predicate Settled(at: real, current: real, viewWidth: real, x: real, width: real, gap: real)
    requires gap >= 0.0
  {
    if viewWidth <= width then at == x
    else
      && Shows(at, viewWidth, x, width, gap)
      && forall other :: Shows(other, viewWidth, x, width, gap) ==> Abs(at - current) <= Abs(other - current)
  }

  /** `Fit` is that place, and there is no other. */
  lemma FitSettles(current: real, viewWidth: real, x: real, width: real, gap: real, at: real)
    requires gap >= 0.0
    ensures Settled(at, current, viewWidth, x, width, gap) <==> at == x + Fit(current, viewWidth, x, width, gap)
  {
    var best := x + Fit(current, viewWidth, x, width, gap);
    if viewWidth > width {
      assert Shows(best, viewWidth, x, width, gap);
      if Settled(at, current, viewWidth, x, width, gap) {
        assert Abs(at - current) <= Abs(best - current);
      }
    }
  }

  // ---- Where windows are drawn ----

  function RowHeight(rows: nat, view: Rect, gap: real): real
    requires rows >= 1
  {
    Max((view.h - gap * (rows as real - 1.0)) / rows as real, 1.0)
  }

  function RowY(row: nat, height: real, view: Rect, gap: real): real { view.y + Times(row as real, height + gap) }

  /** One column's windows, top to bottom. */
  function Stack(column: Column, x: real, width: real, view: Rect, gap: real): seq<(Id, Rect)> {
    var rows := |column.windows|;
    seq(rows, r requires 0 <= r < rows =>
      (column.windows[r], Rect(x, RowY(r, RowHeight(rows, view, gap), view, gap), width, RowHeight(rows, view, gap))))
  }

  /** The first `n` columns' windows, drawn with the view at `origin`. */
  function Tiles(columns: seq<Column>, n: nat, floors: Floors, view: Rect, origin: real, gap: real): seq<(Id, Rect)>
    requires n <= |columns|
  {
    if n == 0 then []
    else
      Tiles(columns, n - 1, floors, view, origin, gap)
      + Stack(columns[n - 1], view.x + ColumnX(columns, n - 1, floors, view, gap) - origin,
              ColumnWidth(columns[n - 1], floors, view), view, gap)
  }

  lemma RowsApart(one: nat, two: nat, height: real, view: Rect, gap: real)
    requires one < two && height >= 1.0 && gap >= 0.0
    ensures RowY(one, height, view, gap) + height + gap <= RowY(two, height, view, gap)
  {
    var step, k := height + gap, (two - one) as real;
    assert Times(two as real, step) == Times(one as real, step) + k * step;
    assert k * step >= step;
  }

  /** Everything drawn so far ends a gap short of the next column. */
  lemma {:induction false} TilesEnd(columns: seq<Column>, n: nat, floors: Floors, view: Rect, origin: real, gap: real)
    requires n <= |columns| && gap >= 0.0
    ensures forall t :: t in Tiles(columns, n, floors, view, origin, gap) ==>
              t.1.x + t.1.w + gap <= view.x + ColumnX(columns, n, floors, view, gap) - origin
  {
    hide ColumnWidth;
    if n > 0 { TilesEnd(columns, n - 1, floors, view, origin, gap); }
  }

  ghost predicate AllApart(tiles: seq<(Id, Rect)>, gap: real) {
    forall i, j :: 0 <= i < j < |tiles| ==> Apart(tiles[i].1, tiles[j].1, gap)
  }

  /** No two windows are drawn over one another, or nearer than the gap. */
  lemma {:induction false} TilesApart(columns: seq<Column>, n: nat, floors: Floors, view: Rect, origin: real, gap: real)
    requires n <= |columns| && gap >= 0.0
    ensures AllApart(Tiles(columns, n, floors, view, origin, gap), gap)
  {
    hide ColumnWidth, RowY, RowHeight;
    if n > 0 {
      TilesApart(columns, n - 1, floors, view, origin, gap);
      TilesEnd(columns, n - 1, floors, view, origin, gap);
      var before, column := Tiles(columns, n - 1, floors, view, origin, gap), columns[n - 1];
      var stack := Stack(column, view.x + ColumnX(columns, n - 1, floors, view, gap) - origin,
                         ColumnWidth(column, floors, view), view, gap);
      var tiles := Tiles(columns, n, floors, view, origin, gap);
      forall i, j | 0 <= i < j < |tiles|
        ensures Apart(tiles[i].1, tiles[j].1, gap)
      {
        if j >= |before| && i < |before| {
          assert tiles[i] in before && tiles[j] == stack[j - |before|];
        } else if i >= |before| {
          assert tiles[i] == stack[i - |before|] && tiles[j] == stack[j - |before|];
          HeightIsReal(|column.windows|, view, gap);
          RowsApart(i - |before|, j - |before|, RowHeight(|column.windows|, view, gap), view, gap);
        } else {
          assert tiles[i] == before[i] && tiles[j] == before[j] && Apart(before[i].1, before[j].1, gap);
        }
      }
    }
  }

  lemma HeightIsReal(rows: nat, view: Rect, gap: real)
    requires rows >= 1
    ensures RowHeight(rows, view, gap) >= 1.0
  {}

  /** Each window of a column is drawn. */
  lemma {:induction false} ColumnIsDrawn(columns: seq<Column>, n: nat, c: nat, r: nat, floors: Floors, view: Rect,
                                         origin: real, gap: real)
    requires c < n <= |columns| && r < |columns[c].windows|
    ensures var width := ColumnWidth(columns[c], floors, view);
            Stack(columns[c], view.x + ColumnX(columns, c, floors, view, gap) - origin, width, view,
                  gap)[r] in Tiles(columns, n, floors, view, origin, gap)
  {
    if c < n - 1 { ColumnIsDrawn(columns, n - 1, c, r, floors, view, origin, gap); }
  }

  // ---- What a strip holds ----

  ghost predicate Solo(windows: seq<Id>) { forall i, j :: 0 <= i < j < |windows| ==> windows[i] != windows[j] }

  ghost predicate Disjoint(a: seq<Id>, b: seq<Id>) { forall id :: id in a ==> id !in b }

  /** No column empty, and no window in the strip twice. */
  ghost predicate Arranged(columns: seq<Column>) {
    && (forall c :: 0 <= c < |columns| ==> columns[c].windows != [] && Solo(columns[c].windows))
    && forall c, d :: 0 <= c < d < |columns| ==> Disjoint(columns[c].windows, columns[d].windows)
  }

  ghost function Ids(columns: seq<Column>): set<Id> { set c, id | 0 <= c < |columns| && id in columns[c].windows :: id }

  /** Each column's own focus is one of its windows. */
  predicate RowsInRange(columns: seq<Column>) {
    forall c :: 0 <= c < |columns| ==> columns[c].active < |columns[c].windows|
  }

  /** What has the focus, or none when an index is out of range. */
  function FocusedIn(columns: seq<Column>, active: nat): Option<Id> {
    if active < |columns| && columns[active].active < |columns[active].windows| then
      Some(columns[active].windows[columns[active].active])
    else None
  }

  ghost function Named(tiles: seq<(Id, Rect)>): set<Id> { set i | 0 <= i < |tiles| :: tiles[i].0 }

  lemma NamedJoin(a: seq<(Id, Rect)>, b: seq<(Id, Rect)>)
    ensures Named(a + b) == Named(a) + Named(b)
  {
    assert forall i :: 0 <= i < |a| ==> (a + b)[i] == a[i];
    forall id | id in Named(b) ensures id in Named(a + b) {
      var i :| 0 <= i < |b| && b[i].0 == id;
      assert (a + b)[|a| + i].0 == id;
    }
  }

  lemma StackNamed(column: Column, x: real, width: real, view: Rect, gap: real)
    ensures Named(Stack(column, x, width, view, gap)) == set id | id in column.windows
  {
    hide RowY, RowHeight;
    var stack := Stack(column, x, width, view, gap);
    forall id | id in column.windows ensures id in Named(stack) {
      var r :| 0 <= r < |column.windows| && column.windows[r] == id;
      assert stack[r].0 == id;
    }
  }

  lemma IdsOneMore(columns: seq<Column>, n: nat)
    requires n < |columns|
    ensures Ids(columns[..n + 1]) == Ids(columns[..n]) + set id | id in columns[n].windows
  {
    var more, fewer := columns[..n + 1], columns[..n];
    assert more[n] == columns[n] && forall c :: 0 <= c < n ==> more[c] == fewer[c];
  }

  lemma EarlierDisjoint(columns: seq<Column>, n: nat, id: Id)
    requires n < |columns| && Arranged(columns) && id in Ids(columns[..n])
    ensures id !in columns[n].windows
  {
    var c :| 0 <= c < n && id in columns[..n][c].windows;
    assert Disjoint(columns[c].windows, columns[n].windows);
  }

  /** Each window of a strip is drawn once. */
  lemma {:induction false} EachWindowOnce(columns: seq<Column>, n: nat, floors: Floors, view: Rect, origin: real,
                                          gap: real)
    requires n <= |columns| && Arranged(columns)
    ensures var tiles := Tiles(columns, n, floors, view, origin, gap);
            && (forall i, j :: 0 <= i < j < |tiles| ==> tiles[i].0 != tiles[j].0)
            && Named(tiles) == Ids(columns[..n])
  {
    hide ColumnWidth, ColumnX, RowY, RowHeight, Ids;
    if n == 0 {
      assert columns[..0] == [];
      NoIds();
    } else {
      EachWindowOnce(columns, n - 1, floors, view, origin, gap);
      var before, column := Tiles(columns, n - 1, floors, view, origin, gap), columns[n - 1];
      var x, width := view.x + ColumnX(columns, n - 1, floors, view, gap) - origin, ColumnWidth(column, floors, view);
      var stack := Stack(column, x, width, view, gap);
      assert Solo(column.windows);
      NamedJoin(before, stack);
      StackNamed(column, x, width, view, gap);
      IdsOneMore(columns, n - 1);
      forall i, j | 0 <= i < |before| && 0 <= j < |stack| ensures before[i].0 != stack[j].0 {
        assert before[i].0 in Named(before);
        EarlierDisjoint(columns, n - 1, before[i].0);
        assert stack[j].0 == column.windows[j];
      }
      assert forall i, j :: 0 <= i < j < |stack| ==> stack[i].0 != stack[j].0;
    }
  }

  lemma NoIds()
    ensures Ids([]) == {}
  {}

  // ---- Changing the columns ----

  function Added(columns: seq<Column>, at: nat, column: Column): (more: seq<Column>)
    requires at <= |columns|
    ensures |more| == |columns| + 1 && more[at] == column
    ensures forall c :: 0 <= c < at ==> more[c] == columns[c]
    ensures forall c :: at <= c < |columns| ==> more[c + 1] == columns[c]
    ensures forall c :: at < c < |more| ==> more[c] == columns[c - 1]
  {
    columns[..at] + [column] + columns[at..]
  }

  lemma ColumnAdded(columns: seq<Column>, at: nat, column: Column)
    requires at <= |columns| && Arranged(columns) && column.windows != [] && Solo(column.windows)
    requires forall id :: id in column.windows ==> id !in Ids(columns)
    ensures var more := Added(columns, at, column);
            Arranged(more) && Ids(more) == Ids(columns) + set id | id in column.windows
  {
    hide Added;
    var more := Added(columns, at, column);
    forall c | 0 <= c < |columns| ensures Disjoint(columns[c].windows, column.windows)
        && Disjoint(column.windows, columns[c].windows) {
      assert forall id :: id in columns[c].windows ==> id in Ids(columns);
    }
    AddedIds(columns, at, column);
  }

  lemma AddedIds(columns: seq<Column>, at: nat, column: Column)
    requires at <= |columns|
    ensures Ids(Added(columns, at, column)) == Ids(columns) + set id | id in column.windows
  {
    hide Added;
    var more := Added(columns, at, column);
    forall id | id in Ids(columns) ensures id in Ids(more) {
      var c :| 0 <= c < |columns| && id in columns[c].windows;
      assert id in more[if c < at then c else c + 1].windows;
    }
    assert forall id :: id in more[at].windows ==> id in Ids(more);
  }

  lemma ColumnDropped(columns: seq<Column>, at: nat)
    requires at < |columns| && Arranged(columns)
    ensures var fewer := columns[..at] + columns[at + 1..];
            Arranged(fewer) && Ids(fewer) == Ids(columns) - set id | id in columns[at].windows
  {
    var fewer := columns[..at] + columns[at + 1..];
    assert forall c :: 0 <= c < |fewer| ==> fewer[c] == columns[if c < at then c else c + 1];
    forall id | id in Ids(columns) && id !in columns[at].windows
      ensures id in Ids(fewer)
    {
      var c :| 0 <= c < |columns| && id in columns[c].windows;
      assert id in fewer[if c < at then c else c - 1].windows;
    }
    forall id | id in Ids(fewer)
      ensures id in Ids(columns) && id !in columns[at].windows
    {
      var c :| 0 <= c < |fewer| && id in fewer[c].windows;
      var d := if c < at then c else c + 1;
      assert id in columns[d].windows;
      assert d < at ==> Disjoint(columns[d].windows, columns[at].windows);
      assert at < d ==> Disjoint(columns[at].windows, columns[d].windows);
    }
  }

  /** A column's windows changed for some of its own and others that were not there. */
  lemma ColumnChanged(columns: seq<Column>, at: nat, column: Column)
    requires at < |columns| && Arranged(columns) && column.windows != [] && Solo(column.windows)
    requires forall id :: id in column.windows ==> id in columns[at].windows || id !in Ids(columns)
    ensures Arranged(columns[at := column])
    ensures Ids(columns[at := column])
        == Ids(columns) - (set id | id in columns[at].windows) + set id | id in column.windows
  {
    var more := columns[at := column];
    forall c, d | 0 <= c < d < |more| ensures Disjoint(more[c].windows, more[d].windows) {
      assert Disjoint(columns[c].windows, columns[d].windows);
      assert forall id :: id in columns[c].windows || id in columns[d].windows ==> id in Ids(columns);
    }
    assert forall c :: 0 <= c < |columns| && c != at ==> more[c] == columns[c];
    forall id | id in Ids(columns) && id !in columns[at].windows
      ensures id in Ids(more)
    {
      var c :| 0 <= c < |columns| && id in columns[c].windows;
      assert id in more[c].windows;
    }
    forall id | id in Ids(more) && id !in column.windows
      ensures id in Ids(columns) && id !in columns[at].windows
    {
      var c :| 0 <= c < |more| && id in more[c].windows;
      assert Disjoint(columns[if c < at then c else at].windows, columns[if c < at then at else c].windows);
    }
    assert more[at] == column;
  }
}
