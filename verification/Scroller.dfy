/** The scrolling strip: columns changed in place, and a view anchored to the active
    one, over every run. */
module Scrolling {
  import opened Basics
  import opened Geometry
  import opened Strips
  import opened Columns

  const PRESETS: seq<real> := [1.0 / 3.0, 0.5, 2.0 / 3.0]

  /** Where a focus moves by some steps, held to the ends. */
  function Along(from: nat, go: int, last: nat): (to: nat)
    ensures to <= last
  {
    if from + go < 0 then 0 else if from + go > last then last else from + go
  }

  function Far(a: int, b: int): nat { if a >= b then a - b else b - a }

  /** No place up to the last is nearer. */
  ghost predicate NearestPlace(to: nat, sent: int, last: nat) {
    to <= last && forall k: nat :: k <= last ==> Far(to, sent) <= Far(k, sent)
  }

  /** It is the nearest there is to where it was sent. */
  lemma AlongIsNearest(from: nat, go: int, last: nat, to: nat)
    ensures to == Along(from, go, last) <==> NearestPlace(to, from + go, last)
  {
    assert NearestPlace(Along(from, go, last), from + go, last);
    if NearestPlace(to, from + go, last) { assert Far(to, from + go) <= Far(Along(from, go, last), from + go); }
  }

  function Positioned(columns: seq<Column>, active: nat, offset: real, floors: Floors, area: Rect, gap: real): real {
    ColumnX(columns, active, floors, area.Inset(gap), gap) + offset
  }

  /** The view where it belongs for the active column, come from `from`. */
  ghost predicate Shown(columns: seq<Column>, active: nat, offset: real, floors: Floors, from: real, area: Rect,
                        gap: real)
    requires gap >= 0.0
  {
    var view := area.Inset(gap);
    active < |columns|
    && Settled(Positioned(columns, active, offset, floors, area, gap), from, view.w,
               ColumnX(columns, active, floors, view, gap), ColumnWidth(columns[active], floors, view), gap)
  }

  /** Then every window of the active column is drawn wholly inside the view, or from
      its left edge where the column is as wide as the view or wider. */
  lemma ShownIsInView(columns: seq<Column>, active: nat, offset: real, floors: Floors, from: real, area: Rect,
                      gap: real, r: nat)
    requires gap >= 0.0 && Shown(columns, active, offset, floors, from, area, gap) && r < |columns[active].windows|
    ensures var (view, origin) := (area.Inset(gap), Positioned(columns, active, offset, floors, area, gap));
            exists rect: Rect ::
              && (columns[active].windows[r], rect) in Tiles(columns, |columns|, floors, view, origin, gap)
              && (if rect.w >= view.w then rect.x == view.x else view.x <= rect.x && rect.x + rect.w <= view.x + view.w)
  {
    hide ColumnWidth, ColumnX, RowY, RowHeight, Tiles;
    var view, origin := area.Inset(gap), Positioned(columns, active, offset, floors, area, gap);
    ColumnIsDrawn(columns, |columns|, active, r, floors, view, origin, gap);
    var tile := Stack(columns[active], view.x + ColumnX(columns, active, floors, view, gap) - origin,
                      ColumnWidth(columns[active], floors, view), view, gap)[r];
    assert (columns[active].windows[r], tile.1) in Tiles(columns, |columns|, floors, view, origin, gap);
  }

  /** The least share a column may have: what its widest floor takes, up to the view. */
  function LeastShare(floor: real, viewWidth: real): real {
    Clamp(floor / Max(viewWidth, 1.0), 0.1, 1.0)
  }

  function Widened(share: real, growth: real, least: real): real
    requires least <= 1.0
  {
    Clamp(Max(share, least) + growth, least, 1.0)
  }

  /** A column narrower than the view and made wider is drawn wider at once, however
      its floor held it; made narrower it is not drawn under a floor the view holds. */
  lemma WideningShows(column: Column, growth: real, floors: Floors, view: Rect)
    requires view.w >= 10.0
    ensures var floor := WidestFloor(column.windows, floors);
            var after := column.(width := Widened(column.width, growth, LeastShare(floor, view.w)));
            && (growth > 0.0 && ColumnWidth(column, floors, view) < view.w ==>
                  ColumnWidth(after, floors, view) > ColumnWidth(column, floors, view))
            && (floor <= view.w ==> Times(view.w, after.width) >= floor)
            && ColumnWidth(after, floors, view) <= Max(view.w, floor)
  {
    var floor := WidestFloor(column.windows, floors);
    var least := LeastShare(floor, view.w);
    var share := Widened(column.width, growth, least);
    hide WidestFloor;
    Shares(view.w, floor);
    TimesMore(view.w, least, share);
    TimesMore(view.w, share, 1.0);
    TimesMore(view.w, 0.1, least);
    TimesMore(view.w, column.width, Max(column.width, least));
    TimesMore(view.w, least, Max(column.width, least));
    TimesMore(view.w, Max(column.width, least), share);
    TimesOne(view.w);
  }

  /** By just its share of the view, between the view and its floor or a tenth of the view. */
  lemma WidenedBy(column: Column, growth: real, floors: Floors, view: Rect)
    requires view.w >= 10.0 && view.w / 10.0 <= ColumnWidth(column, floors, view) <= view.w
    ensures var (w, floor) := (view.w, WidestFloor(column.windows, floors));
            var after := column.(width := Widened(column.width, growth, LeastShare(floor, w)));
            ColumnWidth(after, floors, view)
              == Clamp(ColumnWidth(column, floors, view) + Times(w, growth), Max(floor, w / 10.0), w)
  {
    var (w, floor) := (view.w, WidestFloor(column.windows, floors));
    hide WidestFloor, Times, LeastShare;
    var least := LeastShare(floor, w);
    LeastIsShare(floor, w);
    LeastIs(w, floor);
    TimesMax(w, column.width, least);
    TimesSum(w, Max(column.width, least), growth);
    TimesClamp(w, Max(column.width, least) + growth, least);
  }

  lemma TimesMax(a: real, b: real, c: real)
    requires a > 0.0
    ensures Times(a, Max(b, c)) == Max(Times(a, b), Times(a, c))
  {
    TimesMore(a, b, c);
    TimesMore(a, c, b);
  }

  lemma TimesSum(a: real, b: real, c: real)
    ensures Times(a, b + c) == Times(a, b) + Times(a, c)
  {}

  lemma TimesClamp(a: real, b: real, low: real)
    requires a > 0.0 && low <= 1.0
    ensures Times(a, Clamp(b, low, 1.0)) == Clamp(Times(a, b), Times(a, low), a)
  {
    TimesOne(a);
    hide Times;
    TimesMore(a, b, low);
    TimesMore(a, low, b);
    TimesMore(a, b, 1.0);
    TimesMore(a, 1.0, b);
    TimesMore(a, low, 1.0);
  }

  lemma LeastIs(viewWidth: real, floor: real)
    requires viewWidth >= 10.0 && floor <= viewWidth
    ensures Times(viewWidth, LeastShare(floor, viewWidth)) == Max(floor, viewWidth / 10.0)
  {
    var quotient := floor / viewWidth;
    assert Times(viewWidth, quotient) == floor;
    TimesOne(viewWidth);
    TimesMore(viewWidth, quotient, 0.1);
    TimesMore(viewWidth, 0.1, quotient);
    TimesMore(viewWidth, 1.0, quotient);
  }

  lemma Shares(viewWidth: real, floor: real)
    requires viewWidth >= 10.0
    ensures floor <= viewWidth ==> Times(viewWidth, LeastShare(floor, viewWidth)) >= floor
  {
    var quotient := floor / viewWidth;
    assert quotient * viewWidth == floor;
    TimesMore(viewWidth, quotient, LeastShare(floor, viewWidth));
    assert floor <= viewWidth ==> quotient <= 1.0 by { TimesMore(viewWidth, 1.0, quotient); }
  }

  lemma TimesMore(a: real, b: real, c: real)
    requires a > 0.0
    ensures b <= c ==> Times(a, b) <= Times(a, c)
    ensures b < c ==> Times(a, b) < Times(a, c)
  {}

  lemma TimesOne(a: real)
    ensures Times(a, 1.0) == a && Times(a, 0.1) == a / 10.0
  {}

  lemma TradedHolds(columns: seq<Column>, a: nat, b: nat)
    requires a < |columns| && b < |columns| && Arranged(columns)
    ensures var after := columns[a := columns[b]][b := columns[a]];
            && Arranged(after) && Ids(after) == Ids(columns) && after[a := after[b]][b := after[a]] == columns
            && (RowsInRange(columns) ==> RowsInRange(after))
  {
    var after := columns[a := columns[b]][b := columns[a]];
    forall c, d | 0 <= c < d < |after| ensures Disjoint(after[c].windows, after[d].windows) {
      var p, q := if c == a then b else if c == b then a else c, if d == a then b else if d == b then a else d;
      assert Disjoint(columns[if p < q then p else q].windows, columns[if p < q then q else p].windows);
    }
    forall id | id in Ids(columns) ensures id in Ids(after) {
      var c :| 0 <= c < |columns| && id in columns[c].windows;
      assert id in after[if c == a then b else if c == b then a else c].windows;
    }
  }

  /** A column changed in anything but its windows. */
  lemma RestyledHolds(columns: seq<Column>, c: nat, column: Column)
    requires c < |columns| && Arranged(columns) && column.windows == columns[c].windows
    ensures Arranged(columns[c := column]) && Ids(columns[c := column]) == Ids(columns)
    ensures RowsInRange(columns) && column.active < |column.windows| ==> RowsInRange(columns[c := column])
  {
    ColumnChanged(columns, c, column);
  }

  // ---- Runs ----

  datatype Op =
    | Open(id: Id) | OpenStacked(id: Id) | Close(id: Id) | Focus(id: Id) | Sideways(go: int) | Vertically(go: int)
    | MoveWindow(go: int) | MoveColumn(go: int) | Pull | Push | DropOnto(id: Id, target: Id)
    | Widen(id: Id, growth: real)
    | CycleWidth | Scroll(delta: real) | Floored(floors: Floors)

  function AfterOp(held: set<Id>, op: Op): set<Id> {
    match op
    case Open(id) => held + {id}
    case OpenStacked(id) => held + {id}
    case Close(id) => held - {id}
    case _ => held
  }

  /** An operation, and the screen it is made on. */
  datatype Call = Call(op: Op, area: Rect, settings: Settings)

  /** The windows a run leaves in the strip. */
  function AfterCalls(held: set<Id>, calls: seq<Call>): set<Id> {
    if calls == [] then held else AfterOp(AfterCalls(held, calls[..|calls| - 1]), calls[|calls| - 1].op)
  }

  class Scroller {
    var columns: seq<Column>
    var active: nat
    var viewOffset: real
    var widths: seq<real>
    var preset: nat
    var floors: Floors

    ghost predicate Sound()
      reads this
    {
      Arranged(columns) && widths != [] && preset < |widths|
    }

    ghost predicate Valid()
      reads this
    {
      Sound() && ActiveInRange(columns, active)
    }

    constructor ()
      ensures Valid() && columns == [] && widths == PRESETS && preset == 0 && viewOffset == 0.0 && floors == map[]
    {
      columns, active, viewOffset, widths, preset, floors := [], 0, 0.0, PRESETS, 0, map[];
    }

    constructor WithWidths(widths: seq<real>, start: nat)
      ensures Valid() && columns == [] && viewOffset == 0.0 && floors == map[]
      ensures this.widths == if widths == [] then PRESETS else widths
      ensures preset == LeastOf(start, |this.widths| - 1)
    {
      var usable := if widths == [] then PRESETS else widths;
      this.widths, preset := usable, LeastOf(start, |usable| - 1);
      columns, active, viewOffset, floors := [], 0, 0.0, map[];
    }

    function WidthNow(): real
      requires Valid()
      reads this
    {
      widths[preset]
    }

    function Focused(): Option<Id>
      reads this
    {
      FocusedIn(columns, active)
    }

    predicate Contains(id: Id)
      reads this
    {
      ColumnOf(columns, id).Some?
    }

    function Position(area: Rect, settings: Settings): real
      reads this
    {
      Positioned(columns, active, viewOffset, floors, area, settings.gap)
    }

    ghost predicate ShownFrom(from: real, area: Rect, settings: Settings)
      requires settings.gap >= 0.0
      reads this
    {
      Shown(columns, active, viewOffset, floors, from, area, settings.gap)
    }

    method SetFloors(floors: Floors)
      requires Valid()
      modifies this`floors
      ensures Valid() && this.floors == floors
    {
      this.floors := floors;
    }

    /** Make a column active. The view goes to the nearest place that shows it. */
    method FocusColumn(index: nat, area: Rect, settings: Settings)
      requires Sound() && settings.gap >= 0.0
      modifies this`active, this`viewOffset
      ensures columns == [] ==> active == old(active) && viewOffset == old(viewOffset)
      ensures columns != [] ==>
          active == LeastOf(index, |columns| - 1) && ShownFrom(old(Position(area, settings)), area, settings)
    {
      if columns == [] { return; }
      var to := LeastOf(index, |columns| - 1);
      var view := area.Inset(settings.gap);
      var oldX, newX := ColumnX(columns, active, floors, view, settings.gap),
        ColumnX(columns, to, floors, view, settings.gap);
      viewOffset := viewOffset + (oldX - newX);
      active := to;
      var width, current := ColumnWidth(columns[to], floors, view), newX + viewOffset;
      viewOffset := Fit(current, view.w, newX, width, settings.gap);
      FitSettles(current, view.w, newX, width, settings.gap, newX + viewOffset);
    }

    /** A new window gets its own column, next after the active one, and the focus. */
    method Insert(id: Id, area: Rect, settings: Settings)
      requires Valid() && settings.gap >= 0.0
      modifies this`columns, this`active, this`viewOffset
      ensures Valid() && Ids(columns) == old(Ids(columns)) + {id}
          && (old(RowsInRange(columns)) ==> RowsInRange(columns))
      ensures old(Contains(id)) ==> unchanged(this)
      ensures !old(Contains(id)) ==>
                && active == (if old(columns) == [] then 0 else old(active) + 1)
                && columns == Added(old(columns), active, Column([id], 0, old(WidthNow())))
                && Focused() == Some(id) && ShownFrom(old(Position(area, settings)), area, settings)
    {
      hide ColumnWidth, Arranged, Settled;
      if Contains(id) { return; }
      var at := if columns == [] then 0 else active + 1;
      var column := Column([id], 0, WidthNow());
      ColumnAdded(columns, at, column);
      SameStart(columns, Added(columns, at, column), active, floors, area.Inset(settings.gap), settings.gap);
      columns := columns[..at] + [column] + columns[at..];
      FocusColumn(at, area, settings);
    }

    /** A new window goes at the bottom of the active column, and gets the focus. */
    method InsertIntoActive(id: Id, area: Rect, settings: Settings)
      requires Valid() && settings.gap >= 0.0
      modifies this`columns, this`active, this`viewOffset
      ensures Valid() && Ids(columns) == old(Ids(columns)) + {id}
          && (old(RowsInRange(columns)) ==> RowsInRange(columns))
      ensures old(Contains(id)) ==> unchanged(this)
      ensures !old(Contains(id)) ==> Focused() == Some(id)
      ensures !old(Contains(id)) && old(columns) != [] ==>
                && active == old(active) && viewOffset == old(viewOffset)
                && var column := old(columns[active]);
                   columns
                       == old(columns)[active := column.(windows := column.windows + [id], active := |column.windows|)]
      ensures !old(Contains(id)) && old(columns) == [] ==> columns == [Column([id], 0, old(WidthNow()))]
    {
      if Contains(id) { return; }
      if columns == [] {
        Insert(id, area, settings);
        return;
      }
      GivenLast(columns, active, id);
      var column := columns[active];
      columns := columns[active := column.(windows := column.windows + [id], active := |column.windows|)];
    }

    method Remove(id: Id)
      requires Valid()
      modifies this`columns, this`active
      ensures Valid() && Ids(columns) == old(Ids(columns)) - {id}
          && (old(RowsInRange(columns)) ==> RowsInRange(columns))
      ensures (columns, active) == Removed(old(columns), old(active), id)
    {
      RemovedHolds(columns, active, id);
      var at := ColumnOf(columns, id);
      if at.None? { return; }
      var c, column := at.value, columns[at.value];
      var left := Others(column.windows, id);
      if left == [] {
        columns := columns[..c] + columns[c + 1..];
        if active >= |columns| { active := if |columns| == 0 then 0 else |columns| - 1; }
      } else {
        columns := columns[c := column.(windows := left, active := LeastOf(column.active, |left| - 1))];
      }
    }

    /** Focus by id; an id that is not there does nothing. */
    method FocusWindow(id: Id, area: Rect, settings: Settings)
      requires Valid() && settings.gap >= 0.0
      modifies this`columns, this`active, this`viewOffset
      ensures Valid() && Ids(columns) == old(Ids(columns)) && (old(RowsInRange(columns)) ==> RowsInRange(columns))
      ensures !old(Contains(id)) ==> unchanged(this)
      ensures old(Contains(id)) ==>
                && Focused() == Some(id) && active < |old(columns)|
                && columns == old(columns)[active := old(columns)[active].(active := columns[active].active)]
                && ShownFrom(Positioned(columns, old(active), old(viewOffset), floors, area, settings.gap), area,
                             settings)
    {
      hide ColumnWidth, Arranged, Settled;
      var at := ColumnOf(columns, id);
      if at.None? { return; }
      var c, row := at.value, RowOf(columns[at.value].windows, id);
      if row.Some? {
        RestyledHolds(columns, c, columns[c].(active := row.value));
        columns := columns[c := columns[c].(active := row.value)];
      }
      FocusColumn(c, area, settings);
    }

    /** Focus by columns, stopping at either end of the strip. */
    method FocusSideways(go: int, area: Rect, settings: Settings)
      requires Valid() && settings.gap >= 0.0
      modifies this`active, this`viewOffset
      ensures Valid()
      ensures columns == [] ==> unchanged(this)
      ensures columns != [] ==>
          active == Along(old(active), go, |columns| - 1) && ShownFrom(old(Position(area, settings)), area, settings)
    {
      hide ColumnWidth, Arranged, Settled;
      if columns == [] { return; }
      FocusColumn(Along(active, go, |columns| - 1), area, settings);
    }

    /** Focus by rows, stopping at the top and the bottom. */
    method FocusVertically(go: int)
      requires Valid()
      modifies this`columns
      ensures Valid() && Ids(columns) == old(Ids(columns)) && (old(RowsInRange(columns)) ==> RowsInRange(columns))
      ensures columns == if old(columns) == [] then [] else
                old(columns)[active := old(columns[active]).(
                  active := Along(old(columns[active].active), go, |old(columns[active].windows)| - 1))]
      ensures columns != [] ==> Focused().Some?
    {
      if columns == [] { return; }
      var column := columns[active];
      ColumnSolo(columns, active);
      var row := Along(column.active, go, |column.windows| - 1);
      RestyledHolds(columns, active, column.(active := row));
      columns := columns[active := column.(active := row)];
    }

    /** Trade the focused window with one above or below it; `None` where the trade
        indexes past the column. */
    method MoveVertically(go: int) returns (moved: Option<bool>)
      requires Valid()
      modifies this`columns
      ensures Valid() && Ids(columns) == old(Ids(columns))
          && (old(RowsInRange(columns)) ==> RowsInRange(columns) && moved.Some?)
      ensures moved != Some(true) ==> columns == old(columns)
      ensures moved.None? <==> old(columns) != [] && Nudged(old(columns[active]), go) == OutOfBounds
      ensures moved == Some(true) ==>
                && old(columns) != [] && old(Focused()).Some? && Focused() == old(Focused())
                && Nudged(old(columns[active]), go) == Swapped(columns[active])
                    && columns == old(columns)[active := columns[active]]
    {
      if columns == [] { return Some(false); }
      var column := columns[active];
      var to := column.active + go;
      if to < 0 || to >= |column.windows| || to == column.active { return Some(false); }
      if column.active >= |column.windows| { return None; }
      NudgedHolds(columns, active, go);
      var row, other := column.windows[column.active], column.windows[to];
      columns := columns[active := column.(windows := column.windows[column.active := other][to := row], active := to)];
      return Some(true);
    }

    /** Swap the active column with the one `go` places along; false where there is none to swap with. */
    method MoveColumn(go: int, area: Rect, settings: Settings) returns (moved: bool)
      requires Valid() && settings.gap >= 0.0
      modifies this`columns, this`active, this`viewOffset
      ensures Valid() && Ids(columns) == old(Ids(columns)) && (old(RowsInRange(columns)) ==> RowsInRange(columns))
      ensures moved <==> |old(columns)| >= 2 && Along(old(active), go, |old(columns)| - 1) != old(active)
      ensures !moved ==> unchanged(this)
      ensures moved ==>
                && active == Along(old(active), go, |old(columns)| - 1) && Focused() == old(Focused())
                && columns == old(columns)[old(active) := old(columns)[active]][active := old(columns)[old(active)]]
                && ShownFrom(Positioned(columns, old(active), old(viewOffset), floors, area, settings.gap), area,
                             settings)
    {
      hide ColumnWidth, Arranged, Settled;
      if |columns| < 2 { return false; }
      var to := Along(active, go, |columns| - 1);
      if to == active { return false; }
      TradedHolds(columns, active, to);
      columns := columns[active := columns[to]][to := columns[active]];
      FocusColumn(to, area, settings);
      return true;
    }

    /** Take the right neighbour's focused window. An emptied neighbour goes away. */
    method Consume()
      requires Valid()
      modifies this`columns
      ensures Valid() && Ids(columns) == old(Ids(columns)) && columns == Consumed(old(columns), active)
    {
      ConsumedHolds(columns, active);
      var next := active + 1;
      if next >= |columns| || columns[next].windows == [] { return; }
      var donor := columns[next];
      var row := LeastOf(donor.active, |donor.windows| - 1);
      var taken, left := donor.windows[row], donor.windows[..row] + donor.windows[row + 1..];
      columns := columns[next := donor.(windows := left)];
      if left == [] {
        assert columns[..next] + columns[next + 1..] == Dropped(old(columns), next);
        columns := columns[..next] + columns[next + 1..];
      }
      var column := columns[active];
      columns := columns[active := column.(windows := column.windows + [taken], active := |column.windows|)];
    }

    /** The reverse: the focused window leaves for a new column to the right. */
    method Expel(area: Rect, settings: Settings)
      requires Valid() && settings.gap >= 0.0
      modifies this`columns, this`active, this`viewOffset
      ensures Valid() && Ids(columns) == old(Ids(columns)) && columns == Expelled(old(columns), old(active))
      ensures old(RowsInRange(columns)) ==> RowsInRange(columns) && Focused() == old(Focused())
      ensures columns == old(columns) ==> unchanged(this)
      ensures columns != old(columns) ==>
          active == old(active) + 1 && ShownFrom(old(Position(area, settings)), area, settings)
    {
      hide ColumnWidth, Arranged, Settled, Added, Taken;
      if columns == [] { return; }
      var column := columns[active];
      if |column.windows| < 2 { return; }
      ExpelledHolds(columns, active);
      var after := Expelled(columns, active);
      SameStart(columns, after, active, floors, area.Inset(settings.gap), settings.gap);
      var row := LeastOf(column.active, |column.windows| - 1);
      var taken, left := column.windows[row], Taken(column.windows, row);
      columns := columns[active := column.(windows := left, active := RowIn(column.active, |left|))];
      columns := Added(columns, active + 1, Column([taken], 0, column.width));
      FocusColumn(active + 1, area, settings);
    }

    /** Place one window under another, whichever columns the two are in. */
    method MoveToColumnOf(id: Id, target: Id, area: Rect, settings: Settings)
      requires Valid() && settings.gap >= 0.0
      modifies this`columns, this`active, this`viewOffset
      ensures Valid() && Ids(columns) == old(Ids(columns)) && (old(RowsInRange(columns)) ==> RowsInRange(columns))
      ensures MovedTo(old(columns), id, target).None? ==> unchanged(this)
      ensures MovedTo(old(columns), id, target).Some? ==>
                && (columns, active) == MovedTo(old(columns), id, target).value && Focused() == Some(id)
                && ShownFrom(Positioned(columns, old(active), old(viewOffset), floors, area, settings.gap), area,
                             settings)
    {
      hide ColumnWidth, ColumnX, Arranged, Settled, Placed, Shown, Positioned, Others, RowsInRange, Ids, RowOf;
      MovedToHolds(columns, id, target);
      if id == target { return; }
      var to, from := ColumnOf(columns, target), ColumnOf(columns, id);
      if to.None? || from.None? || from == to { return; }
      var column := columns[from.value];
      var left := Others(column.windows, id);
      var emptied := left == [];
      var fewer := if emptied then columns[..from.value] + columns[from.value + 1..]
                   else columns[from.value := column.(windows := left, active := RowIn(column.active, |left|))];
      var now := if emptied && to.value > from.value then to.value - 1 else to.value;
      var row := RowOf(fewer[now].windows, target);
      var at := if row.Some? then row.value + 1 else |fewer[now].windows|;
      columns := fewer[now := fewer[now].(windows := Placed(fewer[now].windows, at, id), active := at)];
      FocusColumn(now, area, settings);
    }

    /** Change a column's share by `growth`, held to its bounds, and show the column. */
    method WidenColumn(id: Id, growth: real, area: Rect, settings: Settings)
      requires Valid() && settings.gap >= 0.0
      modifies this`columns, this`active, this`viewOffset
      ensures Valid() && Ids(columns) == old(Ids(columns)) && (old(RowsInRange(columns)) ==> RowsInRange(columns))
      ensures !old(Contains(id)) ==> unchanged(this)
      ensures old(Contains(id)) ==>
                var c := ColumnOf(old(columns), id).value;
                var column := old(columns)[c];
                && columns == old(columns)[c := column.(width :=
                     Widened(column.width, growth, LeastShare(WidestFloor(column.windows, floors), area.Inset(settings.gap).w)))]
                && active == c
                    && ShownFrom(Positioned(columns, old(active), old(viewOffset), floors, area, settings.gap), area, settings)
    {
      hide ColumnWidth, Arranged, Settled, Widened, LeastShare;
      var at := ColumnOf(columns, id);
      if at.None? { return; }
      var c, column := at.value, columns[at.value];
      var least := LeastShare(WidestFloor(column.windows, floors), area.Inset(settings.gap).w);
      LeastIsShare(WidestFloor(column.windows, floors), area.Inset(settings.gap).w);
      var wider := column.(width := Widened(column.width, growth, least));
      RestyledHolds(columns, c, wider);
      columns := columns[c := wider];
      FocusColumn(c, area, settings);
    }

    /** Give the active column the next preset, starting over after the last. */
    method CycleColumn(area: Rect, settings: Settings)
      requires Valid() && settings.gap >= 0.0
      modifies this`columns, this`active, this`viewOffset, this`preset
      ensures Valid() && Ids(columns) == old(Ids(columns)) && (old(RowsInRange(columns)) ==> RowsInRange(columns))
      ensures preset == (old(preset) + 1) % |widths| && active == old(active)
      ensures old(columns) == [] ==> columns == [] && viewOffset == old(viewOffset)
      ensures old(columns) != [] ==>
                && columns == old(columns)[active := old(columns[active]).(width := widths[preset])]
                && ShownFrom(old(Position(area, settings)), area, settings)
    {
      hide ColumnWidth, Arranged, Settled;
      preset := (preset + 1) % |widths|;
      if active < |columns| {
        var column := columns[active].(width := WidthNow());
        RestyledHolds(columns, active, column);
        SameStart(columns, columns[active := column], active, floors, area.Inset(settings.gap), settings.gap);
        columns := columns[active := column];
      }
      FocusColumn(active, area, settings);
    }

    /** Copy the presets and the starting one; columns and view are untouched. */
    method ConfigureLike(like: Scroller)
      requires Valid() && like.Valid()
      modifies this`widths, this`preset
      ensures Valid() && widths == old(like.widths) && preset == old(like.preset)
    {
      widths, preset := like.widths, like.preset;
    }

    method ScrollBy(delta: real)
      requires Valid()
      modifies this`viewOffset
      ensures Valid() && viewOffset == old(viewOffset) + delta
      ensures forall area, settings: Settings :: Position(area, settings) == old(Position(area, settings)) + delta
    {
      viewOffset := viewOffset + delta;
    }

    /** The tiles of the whole strip as seen through the view. */
    method Layout(area: Rect, settings: Settings) returns (out: seq<(Id, Rect)>)
      requires Valid()
      ensures out == Tiles(columns, |columns|, floors, area.Inset(settings.gap), Position(area, settings), settings.gap)
    {
      hide ColumnWidth, RowY, RowHeight, Arranged;
      ColumnsHaveWindows();
      var view, origin := area.Inset(settings.gap), Position(area, settings);
      out := [];
      for c := 0 to |columns|
        invariant out == Tiles(columns, c, floors, view, origin, settings.gap)
      {
        var column := columns[c];
        var x, width := view.x + ColumnX(columns, c, floors, view, settings.gap) - origin,
          ColumnWidth(column, floors, view);
        var rows := if |column.windows| > 1 then |column.windows| else 1;
        var height := RowHeight(rows, view, settings.gap);
        ghost var stack := Stack(column, x, width, view, settings.gap);
        ghost var before := out;
        for r := 0 to |column.windows|
          invariant out == before + stack[..r]
        {
          out := out + [(column.windows[r], Rect(x, RowY(r, height, view, settings.gap), width, height))];
        }
        assert stack[..|column.windows|] == stack;
      }
    }

    lemma ColumnsHaveWindows()
      requires Valid()
      ensures forall c :: 0 <= c < |columns| ==> columns[c].windows != []
    {}

    /** One operation; `false` where it indexes past a column. */
    method Apply(op: Op, area: Rect, settings: Settings) returns (ran: bool)
      requires Valid() && settings.gap >= 0.0
      modifies this
      ensures Valid() && Ids(columns) == (if ran then AfterOp(old(Ids(columns)), op) else old(Ids(columns)))
      ensures !ran ==> op.MoveWindow? && !old(RowsInRange(columns))
      ensures old(RowsInRange(columns)) && !op.Pull? ==> RowsInRange(columns)
    {
      hide Shown, Arranged, Ids, RowsInRange, Positioned, Added, Removed, Consumed, Expelled, MovedTo, Nudged, ColumnOf,
        FocusedIn, Widened, LeastShare;
      ran := true;
      match op
      case Open(id) => Insert(id, area, settings);
      case OpenStacked(id) => InsertIntoActive(id, area, settings);
      case Close(id) => Remove(id);
      case Focus(id) => FocusWindow(id, area, settings);
      case Sideways(go) => FocusSideways(go, area, settings);
      case Vertically(go) => FocusVertically(go);
      case MoveWindow(go) =>
        var moved := MoveVertically(go);
        ran := moved.Some?;
      case MoveColumn(go) =>
        var _ := MoveColumn(go, area, settings);
      case Pull => Consume();
      case Push => Expel(area, settings);
      case DropOnto(id, target) => MoveToColumnOf(id, target, area, settings);
      case Widen(id, growth) => WidenColumn(id, growth, area, settings);
      case CycleWidth => CycleColumn(area, settings);
      case Scroll(delta) => ScrollBy(delta);
      case Floored(floors) => SetFloors(floors);
    }

    /** Every run keeps the strip in order: the active column in range, no column
        empty, no window twice, and just the windows opened and not closed. One that
        pulls no window in keeps each column's own focus too, and never stops. */
    method Replay(calls: seq<Call>) returns (ran: nat)
      requires Valid() && forall call :: call in calls ==> call.settings.gap >= 0.0
      modifies this
      ensures Valid() && ran <= |calls| && Ids(columns) == AfterCalls(old(Ids(columns)), calls[..ran])
      ensures ran < |calls| ==> calls[ran].op.MoveWindow?
      ensures old(RowsInRange(columns)) && (forall call :: call in calls ==> !call.op.Pull?) ==>
          ran == |calls| && RowsInRange(columns)
    {
      hide Valid, Ids, RowsInRange;
      ran := 0;
      while ran < |calls|
        invariant Valid() && ran <= |calls| && Ids(columns) == AfterCalls(old(Ids(columns)), calls[..ran])
        invariant old(RowsInRange(columns)) && (forall call :: call in calls ==> !call.op.Pull?) ==>
            RowsInRange(columns)
      {
        assert calls[..ran + 1][..ran] == calls[..ran];
        var fine := Apply(calls[ran].op, calls[ran].area, calls[ran].settings);
        if !fine { return; }
        ran := ran + 1;
      }
    }
  }

  lemma LeastIsShare(floor: real, viewWidth: real)
    ensures 0.1 <= LeastShare(floor, viewWidth) <= 1.0
  {}
}
