/** What each operation makes of a strip's columns, and what it keeps. */
module Columns {
  import opened Basics
  import opened Geometry
  import opened Strips

  function LeastOf(a: nat, b: nat): nat { if a <= b then a else b }

  /** A row held to those of a column of `rows`. */
  function RowIn(row: nat, rows: nat): nat { if rows == 0 then 0 else LeastOf(row, rows - 1) }

  // ---- Finding a window ----

  function ColumnFrom(columns: seq<Column>, id: Id, from: nat): (found: Option<nat>)
    ensures found.Some? ==> from <= found.value < |columns| && id in columns[found.value].windows
    ensures found.None? ==> forall c :: from <= c < |columns| ==> id !in columns[c].windows
    decreases |columns| - from
  {
    if from >= |columns| then None
    else if id in columns[from].windows then Some(from)
    else ColumnFrom(columns, id, from + 1)
  }

  /** The index of the column that holds a window. */
  function ColumnOf(columns: seq<Column>, id: Id): (found: Option<nat>)
    ensures found.Some? ==> found.value < |columns| && id in columns[found.value].windows
    ensures found.Some? <==> id in Ids(columns)
  {
    ColumnFrom(columns, id, 0)
  }

  function RowFrom(windows: seq<Id>, id: Id, from: nat): (found: Option<nat>)
    ensures found.Some? ==> from <= found.value < |windows| && windows[found.value] == id
    ensures found.None? ==> forall r :: from <= r < |windows| ==> windows[r] != id
    decreases |windows| - from
  {
    if from >= |windows| then None else if windows[from] == id then Some(from) else RowFrom(windows, id, from + 1)
  }

  /** Its place in that column. */
  function RowOf(windows: seq<Id>, id: Id): (found: Option<nat>)
    ensures found.Some? ==> found.value < |windows| && windows[found.value] == id
    ensures found.Some? <==> id in windows
  {
    RowFrom(windows, id, 0)
  }

  // ---- Windows of one column ----

  /** All of them but `id`. */
  function Others(windows: seq<Id>, id: Id): seq<Id> {
    if windows == [] then []
    else Others(windows[..|windows| - 1], id) + if windows[|windows| - 1] == id then [] else [windows[|windows| - 1]]
  }

  function Taken(windows: seq<Id>, row: nat): seq<Id>
    requires row < |windows|
  {
    windows[..row] + windows[row + 1..]
  }

  function Placed(windows: seq<Id>, row: nat, id: Id): seq<Id>
    requires row <= |windows|
  {
    windows[..row] + [id] + windows[row..]
  }

  lemma {:induction false} OthersAbsent(windows: seq<Id>, id: Id)
    requires id !in windows
    ensures Others(windows, id) == windows
  {
    if windows != [] {
      var front := windows[..|windows| - 1];
      OthersAbsent(front, id);
      assert front + [windows[|windows| - 1]] == windows;
    }
  }

  lemma {:induction false} OthersAre(windows: seq<Id>, row: nat)
    requires row < |windows| && Solo(windows)
    ensures Others(windows, windows[row]) == Taken(windows, row)
  {
    var front := windows[..|windows| - 1];
    if row == |windows| - 1 {
      OthersAbsent(front, windows[row]);
      assert Taken(windows, row) == front;
    } else {
      OthersAre(front, row);
      assert Taken(windows, row) == Taken(front, row) + [windows[|windows| - 1]];
    }
  }

  lemma TakenHolds(windows: seq<Id>, row: nat)
    requires row < |windows| && Solo(windows)
    ensures Solo(Taken(windows, row)) && |Taken(windows, row)| == |windows| - 1
    ensures (set id | id in Taken(windows, row)) == (set id | id in windows) - {windows[row]}
  {
    var fewer := Taken(windows, row);
    assert forall r :: 0 <= r < |fewer| ==> fewer[r] == windows[if r < row then r else r + 1];
    forall id | id in windows && id != windows[row] ensures id in fewer {
      var r :| 0 <= r < |windows| && windows[r] == id;
      assert fewer[if r < row then r else r - 1] == id;
    }
  }

  lemma PlacedHolds(windows: seq<Id>, row: nat, id: Id)
    requires row <= |windows| && Solo(windows) && id !in windows
    ensures Solo(Placed(windows, row, id)) && Placed(windows, row, id)[row] == id
    ensures (set w | w in Placed(windows, row, id)) == (set w | w in windows) + {id}
    ensures row > 0 ==> Placed(windows, row, id)[row - 1] == windows[row - 1]
  {
    var more := Placed(windows, row, id);
    assert forall r :: 0 <= r < |more| ==>
        more[r] == if r < row then windows[r] else if r == row then id else windows[r - 1];
    forall w | w in windows ensures w in more {
      var r :| 0 <= r < |windows| && windows[r] == w;
      assert more[if r < row then r else r + 1] == w;
    }
  }

  // ---- Taking a window out ----

  function Dropped(columns: seq<Column>, at: nat): seq<Column>
    requires at < |columns|
  {
    columns[..at] + columns[at + 1..]
  }

  /** A column with its window in a row taken, or no column when it was the last. */
  function WithoutRow(columns: seq<Column>, c: nat, row: nat, active: nat): seq<Column>
    requires c < |columns| && row < |columns[c].windows|
  {
    var left := Taken(columns[c].windows, row);
    if left == [] then Dropped(columns, c) else columns[c := columns[c].(windows := left, active := active)]
  }

  lemma WithoutRowHolds(columns: seq<Column>, c: nat, row: nat, active: nat)
    requires c < |columns| && row < |columns[c].windows| && Arranged(columns)
    ensures var fewer := WithoutRow(columns, c, row, active);
            Arranged(fewer) && Ids(fewer) == Ids(columns) - {columns[c].windows[row]}
  {
    hide Arranged, Ids;
    ColumnSolo(columns, c);
    var column, id := columns[c], columns[c].windows[row];
    var left := Taken(column.windows, row);
    TakenHolds(column.windows, row);
    hide Solo, Taken;
    if left == [] {
      assert (set w | w in column.windows) == {id} by { assert (set w | w in left) == {}; }
      ColumnDropped(columns, c);
    } else {
      assert forall w :: w in left ==> w in (set v | v in left);
      ColumnChanged(columns, c, column.(windows := left, active := active));
      SetsAgree(Ids(columns), (set w | w in column.windows), id);
    }
  }

  lemma SetsAgree(all: set<Id>, mine: set<Id>, id: Id)
    requires mine <= all && id in mine
    ensures all - mine + (mine - {id}) == all - {id}
  {}

  lemma ColumnSolo(columns: seq<Column>, c: nat)
    requires c < |columns| && Arranged(columns)
    ensures Solo(columns[c].windows) && columns[c].windows != []
    ensures (set w | w in columns[c].windows) <= Ids(columns)
  {}

  /** A window's columns once it is removed, and the active one. */
  function Removed(columns: seq<Column>, active: nat, id: Id): (seq<Column>, nat) {
    var at := ColumnOf(columns, id);
    if at.None? then (columns, active)
    else
      var column := columns[at.value];
      var left := Others(column.windows, id);
      if left == [] then
        var fewer := Dropped(columns, at.value);
        (fewer, if active < |fewer| then active else if fewer == [] then 0 else |fewer| - 1)
      else (columns[at.value := column.(windows := left, active := RowIn(column.active, |left|))], active)
  }

  predicate ActiveInRange(columns: seq<Column>, active: nat) {
    active < |columns| || (columns == [] && active == 0)
  }

  lemma OneColumn(columns: seq<Column>, c: nat, d: nat, id: Id)
    requires c < |columns| && d < |columns| && Arranged(columns) && id in columns[c].windows && id in columns[d].windows
    ensures c == d
  {
    assert c < d ==> Disjoint(columns[c].windows, columns[d].windows);
    assert d < c ==> Disjoint(columns[d].windows, columns[c].windows);
  }

  lemma RemovedIs(columns: seq<Column>, active: nat, c: nat, row: nat)
    requires c < |columns| && row < |columns[c].windows| && Arranged(columns)
    ensures var column := columns[c];
            && Removed(columns, active, column.windows[row]).0
                == WithoutRow(columns, c, row, RowIn(column.active, |column.windows| - 1))
            && ColumnOf(columns, column.windows[row]) == Some(c)
  {
    var id := columns[c].windows[row];
    OneColumn(columns, ColumnOf(columns, id).value, c, id);
    OthersAre(columns[c].windows, row);
  }

  lemma RemovedHolds(columns: seq<Column>, active: nat, id: Id)
    requires Arranged(columns) && ActiveInRange(columns, active)
    ensures var (fewer, now) := Removed(columns, active, id);
            && Arranged(fewer) && ActiveInRange(fewer, now) && Ids(fewer) == Ids(columns) - {id}
            && (RowsInRange(columns) ==> RowsInRange(fewer))
  {
    var at := ColumnOf(columns, id);
    if at.Some? {
      var row := RowOf(columns[at.value].windows, id).value;
      RemovedIs(columns, active, at.value, row);
      WithoutRowHolds(columns, at.value, row, RowIn(columns[at.value].active, |columns[at.value].windows| - 1));
    }
  }

  /** Where removing another window leaves the focus on the same one: not before it
      in its own column, nor alone in a column before it, but at the end of which
      the focus has nowhere else to go. */
  predicate FocusStays(columns: seq<Column>, active: nat, c: nat, row: nat)
    requires c < |columns| && active < |columns|
  {
    if c == active then row > columns[c].active || columns[c].active == |columns[c].windows| - 1
    else |columns[c].windows| > 1 || c > active || active == |columns| - 1
  }

  /** Removing another window keeps the focus exactly there. */
  lemma RemoveKeepsFocus(columns: seq<Column>, active: nat, c: nat, row: nat)
    requires Arranged(columns) && RowsInRange(columns) && active < |columns|
    requires c < |columns| && row < |columns[c].windows| && Some(columns[c].windows[row]) != FocusedIn(columns, active)
    ensures var (fewer, now) := Removed(columns, active, columns[c].windows[row]);
            FocusedIn(fewer, now) == FocusedIn(columns, active) <==> FocusStays(columns, active, c, row)
  {
    var id, focus := columns[c].windows[row], columns[active].active;
    RemovedIs(columns, active, c, row);
    OthersAre(columns[c].windows, row);
    ColumnSolo(columns, active);
    ColumnSolo(columns, c);
    var (fewer, now) := Removed(columns, active, id);
    if c == active {
      assert row != focus;
      var left := Taken(columns[c].windows, row);
      assert fewer[c].windows == left && now == active;
      assert forall r :: 0 <= r < |left| ==> left[r] == columns[c].windows[if r < row then r else r + 1];
    } else if |columns[c].windows| == 1 {
      assert forall k :: 0 <= k < |fewer| ==> fewer[k] == columns[if k < c then k else k + 1];
      if c < active && active < |columns| - 1 {
        assert fewer[now] == columns[active + 1];
        assert Disjoint(columns[active].windows, columns[active + 1].windows);
        assert columns[active + 1].windows[columns[active + 1].active] in columns[active + 1].windows;
      }
    }
  }

  function Lone(id: Id): Column { Column([id], 0, 0.5) }

  /** A strip where it moves: closing the first of three columns hands the focus of the
      second to the third. */
  lemma RemovedMovesFocus()
    ensures var columns := [Lone(1), Lone(2), Lone(3)];
            var (fewer, now) := Removed(columns, 1, 1);
            && Arranged(columns) && RowsInRange(columns)
            && FocusedIn(columns, 1) == Some(2) && FocusedIn(fewer, now) == Some(3)
  {
    hide Removed, Arranged;
    LoneRemoved();
    LoneArranged();
  }

  lemma LoneArranged()
    ensures Arranged([Lone(1), Lone(2), Lone(3)])
  {
    hide Disjoint, Solo;
    LonesApart(1, 2);
    LonesApart(1, 3);
    LonesApart(2, 3);
  }

  lemma LonesApart(id: Id, other: Id)
    requires id != other
    ensures Disjoint(Lone(id).windows, Lone(other).windows) && Solo(Lone(id).windows) && Solo(Lone(other).windows)
  {}

  lemma LoneRemoved()
    ensures Removed([Lone(1), Lone(2), Lone(3)], 1, 1) == ([Lone(2), Lone(3)], 1)
  {
    hide Arranged, RowsInRange;
    var columns := [Lone(1), Lone(2), Lone(3)];
    assert ColumnOf(columns, 1) == Some(0);
    assert Others([1], 1) == [];
    assert Dropped(columns, 0) == [Lone(2), Lone(3)];
  }

  // ---- Pulling a window in ----

  function Consumed(columns: seq<Column>, active: nat): seq<Column> {
    if active + 1 >= |columns| || columns[active + 1].windows == [] then columns
    else
      var donor := columns[active + 1];
      var row := RowIn(donor.active, |donor.windows|);
      var fewer := WithoutRow(columns, active + 1, row, donor.active);
      fewer[active := fewer[active].(windows := fewer[active].windows + [donor.windows[row]],
                                     active := |fewer[active].windows|)]
  }

  /** Pulling a window in keeps every window, and focuses the one it took. */
  lemma ConsumedHolds(columns: seq<Column>, active: nat)
    requires Arranged(columns) && ActiveInRange(columns, active)
    ensures var after := Consumed(columns, active);
            && Arranged(after) && ActiveInRange(after, active) && Ids(after) == Ids(columns)
            && (active + 1 < |columns| && columns[active + 1].active < |columns[active + 1].windows| ==>
                  FocusedIn(after, active) == FocusedIn(columns, active + 1))
  {
    if active + 1 < |columns| {
      var donor := columns[active + 1];
      ColumnSolo(columns, active + 1);
      ColumnSolo(columns, active);
      var row := RowIn(donor.active, |donor.windows|);
      var id, fewer := donor.windows[row], WithoutRow(columns, active + 1, row, donor.active);
      WithoutRowHolds(columns, active + 1, row, donor.active);
      assert fewer[active] == columns[active];
      assert id !in columns[active].windows by { assert Disjoint(columns[active].windows, donor.windows); }
      assert id in Ids(columns);
      GivenLast(fewer, active, id);
    }
  }

  /** A column given a window that is nowhere in the strip. */
  lemma GivenLast(columns: seq<Column>, c: nat, id: Id)
    requires c < |columns| && Arranged(columns) && id !in Ids(columns)
    ensures var column := columns[c];
            var after := columns[c := column.(windows := column.windows + [id], active := |column.windows|)];
            Arranged(after) && Ids(after) == Ids(columns) + {id}
  {
    var column := columns[c];
    assert Placed(column.windows, |column.windows|, id) == column.windows + [id];
    GivenAt(columns, c, |column.windows|, id);
  }

  lemma GivenAt(columns: seq<Column>, c: nat, row: nat, id: Id)
    requires c < |columns| && Arranged(columns) && id !in Ids(columns) && row <= |columns[c].windows|
    ensures var after := columns[c := columns[c].(windows := Placed(columns[c].windows, row, id), active := row)];
            Arranged(after) && Ids(after) == Ids(columns) + {id}
  {
    hide Arranged;
    var column := columns[c];
    ColumnSolo(columns, c);
    assert id !in column.windows;
    PlacedHolds(column.windows, row, id);
    hide Placed, Ids, Solo;
    var more := column.(windows := Placed(column.windows, row, id), active := row);
    forall w | w in more.windows ensures w in column.windows || w !in Ids(columns) {
      assert w in (set v | v in more.windows);
    }
    assert more.windows[row] == id;
    ColumnChanged(columns, c, more);
  }

  /** Whether pulling a window in leaves the donor's own focus on a window of it. */
  predicate DonorKeepsRow(columns: seq<Column>, active: nat) {
    active + 1 >= |columns| || |columns[active + 1].windows| == 1
        || columns[active + 1].active < |columns[active + 1].windows| - 1
  }

  /** The donor's focus is not held in range: it is only where the window taken was
      alone in its column, or not the last of it. */
  lemma ConsumeKeepsRows(columns: seq<Column>, active: nat)
    requires Arranged(columns) && RowsInRange(columns) && ActiveInRange(columns, active)
    ensures RowsInRange(Consumed(columns, active)) <==> DonorKeepsRow(columns, active)
  {
    hide Arranged, Solo, Ids;
    if active + 1 < |columns| {
      var donor, after := columns[active + 1], Consumed(columns, active);
      ColumnSolo(columns, active + 1);
      if |donor.windows| == 1 {
        assert forall c :: 0 <= c < |after| && c != active ==> after[c] == columns[if c <= active then c else c + 1];
        assert after[active].active == |after[active].windows| - 1;
      } else {
        assert forall c :: 0 <= c < |after| && c != active && c != active + 1 ==> after[c] == columns[c];
        assert |after[active + 1].windows| == |donor.windows| - 1 && after[active + 1].active == donor.active;
      }
    }
  }

  // ---- Moving a window in its column ----

  datatype Nudge = Stuck | Swapped(column: Column) | OutOfBounds

  /** The focused window traded with one above or below; a focus that is on no
      window is an index the swap has no place for. */
  function Nudged(column: Column, go: int): Nudge {
    var to := column.active + go;
    if to < 0 || to >= |column.windows| || to == column.active then Stuck
    else if column.active >= |column.windows| then OutOfBounds
    else Swapped(column.(windows := column.windows[column.active := column.windows[to]]
                                                  [to := column.windows[column.active]],
                         active := to))
  }

  lemma NudgedHolds(columns: seq<Column>, c: nat, go: int)
    requires c < |columns| && Arranged(columns) && Nudged(columns[c], go).Swapped?
    ensures var after := columns[c := Nudged(columns[c], go).column];
            && Arranged(after) && Ids(after) == Ids(columns) && FocusedIn(after, c) == FocusedIn(columns, c)
            && (RowsInRange(columns) ==> RowsInRange(after))
            && Nudged(after[c], -go) == Swapped(columns[c])
  {
    var column, more := columns[c], Nudged(columns[c], go).column;
    ColumnSolo(columns, c);
    var to := column.active + go;
    forall id | id in column.windows ensures id in more.windows {
      var r :| 0 <= r < |column.windows| && column.windows[r] == id;
      assert more.windows[if r == to then column.active else if r == column.active then to else r] == id;
    }
    assert (set id | id in more.windows) == set id | id in column.windows;
    ColumnChanged(columns, c, more);
    assert Nudged(more, -go).column.windows == column.windows;
  }

  /** The last window of a column of two pulled out of it, and the one left moved up:
      the swap is out of bounds, and nothing there is focused. */
  lemma ConsumedThenOutOfBounds()
    ensures var columns := [Column([1], 0, 0.5), Column([2, 3], 1, 0.5)];
            var after := Consumed(columns, 0);
            && Arranged(columns) && RowsInRange(columns)
            && after[1] == Column([2], 1, 0.5) && FocusedIn(after, 1) == None && Nudged(after[1], -1) == OutOfBounds
  {}

  // ---- Pushing a window out ----

  function Expelled(columns: seq<Column>, active: nat): seq<Column> {
    if active >= |columns| || |columns[active].windows| < 2 then columns
    else
      var column := columns[active];
      var row := RowIn(column.active, |column.windows|);
      var left := Taken(column.windows, row);
      Added(columns[active := column.(windows := left, active := RowIn(column.active, |left|))], active + 1,
            Column([column.windows[row]], 0, column.width))
  }

  lemma ExpelledHolds(columns: seq<Column>, active: nat)
    requires Arranged(columns) && active < |columns| && |columns[active].windows| >= 2
    ensures var after := Expelled(columns, active);
            && Arranged(after) && Ids(after) == Ids(columns) && |after| == |columns| + 1
                && after[..active] == columns[..active]
            && (RowsInRange(columns) ==>
                  RowsInRange(after) && FocusedIn(after, active + 1) == FocusedIn(columns, active))
  {
    var column := columns[active];
    var row := RowIn(column.active, |column.windows|);
    var left, id := Taken(column.windows, row), column.windows[row];
    var fewer := WithoutRow(columns, active, row, RowIn(column.active, |left|));
    WithoutRowHolds(columns, active, row, RowIn(column.active, |left|));
    ColumnSolo(columns, active);
    assert id in Ids(columns);
    var out := Column([id], 0, column.width);
    ColumnAdded(fewer, active + 1, out);
    assert (set w | w in out.windows) == {id};
  }

  /** The two columns an expelled window leaves. */
  lemma ExpelledInto(columns: seq<Column>, active: nat)
    requires active < |columns| && |columns[active].windows| >= 2 && columns[active].active < |columns[active].windows|
    ensures var (column, out) := (columns[active], Expelled(columns, active));
            && |out| == |columns| + 1 && out[active].windows == Taken(column.windows, column.active)
            && out[active] == column.(windows := out[active].windows, active := out[active].active)
            && out[active + 1] == Column([column.windows[column.active]], 0, column.width)
            && (forall c :: 0 <= c < active ==> out[c] == columns[c])
            && forall c :: active < c < |columns| ==> out[c + 1] == columns[c]
  {}

  lemma TakenLess(windows: seq<Id>, row: nat)
    requires row < |windows|
    ensures |Taken(windows, row)| == |windows| - 1
  {}

  /** A window pushed out and pulled back is last in its column. */
  lemma PulledBack(columns: seq<Column>, active: nat)
    requires active < |columns| && |columns[active].windows| >= 2 && columns[active].active < |columns[active].windows|
    ensures var column := columns[active];
            var back := Taken(column.windows, column.active) + [column.windows[column.active]];
            Consumed(Expelled(columns, active), active)
              == columns[active := column.(windows := back, active := |column.windows| - 1)]
  {
    var out := Expelled(columns, active);
    ExpelledInto(columns, active);
    hide Expelled, Taken;
    TakenLess(columns[active].windows, columns[active].active);
    var after := Consumed(out, active);
    assert |after| == |columns| && forall c :: 0 <= c < |after| && c != active ==> after[c] == columns[c];
  }

  /** Pushing a window out and pulling it back is nothing, if it was its column's last. */
  lemma ConsumeUndoesExpel(columns: seq<Column>, active: nat)
    requires Arranged(columns) && RowsInRange(columns) && active < |columns| && |columns[active].windows| >= 2
    ensures Consumed(Expelled(columns, active), active) == columns <==>
        columns[active].active == |columns[active].windows| - 1
  {
    hide Arranged, Consumed, Expelled;
    PulledBack(columns, active);
    var column := columns[active];
    if column.active == |column.windows| - 1 {
      assert Taken(column.windows, column.active) + [column.windows[column.active]] == column.windows;
    }
  }

  // ---- Moving a window to another's column ----

  /** Where dropping a window onto another leaves the columns and the active one. */
  function MovedTo(columns: seq<Column>, id: Id, target: Id): Option<(seq<Column>, nat)> {
    var (to, from) := (ColumnOf(columns, target), ColumnOf(columns, id));
    if id == target || to.None? || from.None? || from == to then None
    else
      var column := columns[from.value];
      var left := Others(column.windows, id);
      var fewer := if left == [] then Dropped(columns, from.value)
                   else columns[from.value := column.(windows := left, active := RowIn(column.active, |left|))];
      var now := if left == [] && to.value > from.value then to.value - 1 else to.value;
      if now >= |fewer| then None
      else
        var row := RowOf(fewer[now].windows, target);
        var at := if row.Some? then row.value + 1 else |fewer[now].windows|;
        Some((fewer[now := fewer[now].(windows := Placed(fewer[now].windows, at, id), active := at)], now))
  }

  /** It lands right below the other, focused, and every window is kept. */
  lemma MovedToHolds(columns: seq<Column>, id: Id, target: Id)
    requires Arranged(columns)
    ensures var moved := MovedTo(columns, id, target);
            && (moved.None? <==> id == target || id !in Ids(columns) || target !in Ids(columns)
                                 || ColumnOf(columns, id) == ColumnOf(columns, target))
            && (moved.Some? ==>
                  var (after, now) := moved.value;
                  && now < |after| && Arranged(after) && Ids(after) == Ids(columns) && FocusedIn(after, now) == Some(id)
                  && after[now].active > 0 && after[now].windows[after[now].active - 1] == target
                  && (RowsInRange(columns) ==> RowsInRange(after)))
  {
    hide Arranged, Ids, Others, ColumnOf, RowOf, Dropped, WithoutRow, Placed, RowIn;
    var (to, from) := (ColumnOf(columns, target), ColumnOf(columns, id));
    if id != target && to.Some? && from.Some? && from != to {
      var (c, row) := (from.value, RowOf(columns[from.value].windows, id).value);
      var active := RowIn(columns[c].active, |columns[c].windows| - 1);
      MovedFrom(columns, c, row, to.value);
      WithoutRowHolds(columns, c, row, active);
      var fewer, now := WithoutRow(columns, c, row, active), NowAt(columns, c, to.value);
      var at := RowOf(fewer[now].windows, target).value + 1;
      PlacedAt(fewer[now].windows, at, id);
      GivenAt(fewer, now, at, id);
      RowsKept(columns, c, row, active, now, at, id);
    }
  }

  function NowAt(columns: seq<Column>, from: nat, to: nat): nat
    requires from < |columns|
  {
    if |columns[from].windows| == 1 && to > from then to - 1 else to
  }

  lemma PlacedAt(windows: seq<Id>, row: nat, id: Id)
    requires row <= |windows|
    ensures var more := Placed(windows, row, id);
            |more| == |windows| + 1 && more[row] == id && (row > 0 ==> more[row - 1] == windows[row - 1])
  {}

  /** The columns with a window taken: the one it goes to as it was, where it is now. */
  lemma MovedFrom(columns: seq<Column>, c: nat, row: nat, to: nat)
    requires c < |columns| && row < |columns[c].windows| && Arranged(columns) && to < |columns| && to != c
    ensures var column := columns[c];
            var left := Others(column.windows, column.windows[row]);
            var fewer := WithoutRow(columns, c, row, RowIn(column.active, |column.windows| - 1));
            && (left == [] <==> |column.windows| == 1)
            && fewer == (if left == [] then Dropped(columns, c)
                         else columns[c := column.(windows := left, active := RowIn(column.active, |left|))])
            && NowAt(columns, c, to) < |fewer| && fewer[NowAt(columns, c, to)] == columns[to]
  {
    OthersAre(columns[c].windows, row);
  }

  lemma RowsKept(columns: seq<Column>, c: nat, row: nat, active: nat, now: nat, at: nat, id: Id)
    requires c < |columns| && row < |columns[c].windows| && active == RowIn(columns[c].active, |columns[c].windows| - 1)
    requires var fewer := WithoutRow(columns, c, row, active); now < |fewer| && at <= |fewer[now].windows|
    ensures var fewer := WithoutRow(columns, c, row, active);
            var after := fewer[now := fewer[now].(windows := Placed(fewer[now].windows, at, id), active := at)];
            RowsInRange(columns) ==> RowsInRange(after)
  {
    PlacedAt(WithoutRow(columns, c, row, active)[now].windows, at, id);
    hide Placed;
    assert forall d :: 0 <= d < |Dropped(columns, c)| ==> Dropped(columns, c)[d] == columns[if d < c then d else d + 1];
  }
}
