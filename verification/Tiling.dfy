/** The dwindle layout as it is kept: an arena of slots updated in place, and the
    one tree it encodes. */
module Tilings {
  import opened Basics
  import opened Geometry
  import opened Dwindle
  import opened Seams
  import opened Inserting
  import opened Choosing
  import opened Refusing
  import opened Arena

  /** `u` is `t` with window `id` hung beside a leaf, with room for both. */
  ghost predicate Accepted(t: Tree, u: Tree, n: nat, target: nat, box: Rect, id: Id, at: Option<(real, real)>, area: Rect,
                           r: Rules)
    requires target in t.Slots() && Node(t, target).Leaf?
  {
    var (slack, beside) := (SLACK + Cost(t.Depth() + 1, r), Node(t, target).id);
    && HungWithRoom(t, u, n, target, box, id, at, r)
    && beside in t.Ids() && u.Ids() == t.Ids() + {id}
    && GivesRoom(u, area.Inset(r.Gap()), r, id, slack) && GivesRoom(u, area.Inset(r.Gap()), r, beside, slack)
    && Without(u, id) == Some(t)
  }

  /** `u` is `t` with window `id` hung beside the window it was to split, across
      the longer side of that window's own tile. */
  ghost predicate Opened(t: Tree, u: Tree, n: nat, id: Id, named: Option<Id>, at: Option<(real, real)>, area: Rect,
                         r: Rules) {
    var target := SplitTarget(t, id, named, at, Layout(t, area, r));
    var rect := BoxOf(t, area.Inset(r.Gap()), r, target);
    && target in t.Slots() && Node(t, target).Leaf? && rect.Some?
    && u.Ids() == t.Ids() + {id} && Without(u, id) == Some(t)
    && var axis := if rect.value.w >= rect.value.h then Vertical else Horizontal;
       u == Hung(t, target, n + 1, n, id, axis, r.settings.split, GoesSecond(at, rect.value, axis))
  }

  lemma {:induction false} OpenedHolds(nodes: Nodes, t: Tree, target: nat, rect: Rect, id: Id, named: Option<Id>,
                                       at: Option<(real, real)>, area: Rect, r: Rules)
    requires Arena.Holds(nodes, t) && t.Proper() && id !in t.Ids()
    requires target == SplitTarget(t, id, named, at, Layout(t, area, r)) && target in t.Slots() && Node(t, target).Leaf?
    requires BoxOf(t, area.Inset(r.Gap()), r, target) == Some(rect)
    ensures var n, axis := |nodes|, Axis.Longer(rect);
            var u := Hung(t, target, n + 1, n, id, axis, r.settings.split, GoesSecond(at, rect, axis));
            Opened(t, u, n, id, named, at, area, r) && u.Ids() == t.Ids() + {id}
  {
    hide Hung, SplitTarget, Layout, GoesSecond, BoxOf, Without, Arena.Holds;
    SlotsInArena(nodes, t);
    var n, axis := |nodes|, Axis.Longer(rect);
    HungShape(t, target, n + 1, n, id, axis, r.settings.split, GoesSecond(at, rect, axis));
    AddThenRemove(t, target, n + 1, n, id, axis, r.settings.split, GoesSecond(at, rect, axis));
  }

  lemma RoomFits(rect: Rect, staying: Minimum, joining: Minimum, at: Option<(real, real)>, settings: Settings)
    ensures var axis := RoomIn(rect, staying, joining, at, settings);
            axis.Some? ==> FitsAcross(axis.value, rect, staying, joining, at, settings)
  {
    hide FitsAcross;
  }

  /** So beside a window named by its tile, with no pointer. */
  ghost predicate AcceptedIn(t: Tree, u: Tree, n: nat, tile: (Id, Rect), id: Id, area: Rect, r: Rules) {
    var target := LeafSlot(t, tile.0);
    && target.Some? && target.value in t.Slots() && Node(t, target.value) == Leaf(target.value, tile.0)
    && Accepted(t, u, n, target.value, tile.1, id, None, area, r)
  }

  lemma {:induction false} AcceptedHolds(nodes: Nodes, t: Tree, u: Tree, target: nat, rect: Rect, id: Id, axis: Axis,
                                         at: Option<(real, real)>, area: Rect, r: Rules)
    requires Arena.Holds(nodes, t) && t.Proper() && id !in t.Ids() && r.Gap() >= 0.0
    requires target in t.Slots() && Node(t, target).Leaf?
    requires BoxOf(t, area.Inset(r.Gap()), r, target) == Some(rect)
    requires TileRoom((Node(t, target).id, rect), id, at, r) == Some(axis)
    requires u == Hung(t, target, |nodes| + 1, |nodes|, id, axis, r.settings.split, GoesSecond(at, rect, axis))
    ensures Accepted(t, u, |nodes|, target, rect, id, at, area, r)
  {
    var n, leaf := |nodes|, Node(t, target);
    assert n !in t.Slots() && n + 1 !in t.Slots() by { SlotsInArena(nodes, t); }
    assert leaf.id in t.Ids() by { SlotOfLeaf(t, target); }
    RoomFits(rect, FloorOf(r.floors, leaf.id), FloorOf(r.floors, id), at, r.settings);
    RoomTells((leaf.id, rect), id, at, r);
    assert HungWithRoom(t, u, n, target, rect, id, at, r);
    hide *;
    HungShape(t, target, n + 1, n, id, axis, r.settings.split, GoesSecond(at, rect, axis));
    AddThenRemove(t, target, n + 1, n, id, axis, r.settings.split, GoesSecond(at, rect, axis));
    AcceptedFits(t, target, rect, n + 1, n, id, axis, at, area.Inset(r.Gap()), r);
    AcceptedIs(t, u, n, target, rect, id, at, area, r);
  }

  lemma AcceptedIs(t: Tree, u: Tree, n: nat, target: nat, box: Rect, id: Id, at: Option<(real, real)>, area: Rect, r: Rules)
    requires target in t.Slots() && Node(t, target).Leaf? && HungWithRoom(t, u, n, target, box, id, at, r)
    requires Node(t, target).id in t.Ids() && u.Ids() == t.Ids() + {id} && Without(u, id) == Some(t)
    requires GivesRoom(u, area.Inset(r.Gap()), r, id, SLACK + Cost(t.Depth() + 1, r))
    requires GivesRoom(u, area.Inset(r.Gap()), r, Node(t, target).id, SLACK + Cost(t.Depth() + 1, r))
    ensures Accepted(t, u, n, target, box, id, at, area, r)
  {
    hide Without, GivesRoom, Cost, HungWithRoom;
  }

  datatype Op =
    | Open(id: Id, named: Option<Id>, at: Option<(real, real)>)
    | OpenFitting(id: Id, named: Option<Id>, at: Option<(real, real)>)
    | OpenLargest(id: Id)
    | Close(id: Id)
    | Trade(a: Id, b: Id)
    | Drag(id: Id, edge: Edge, edgeAt: (real, real))
    | Press(id: Id, axis: Axis, growth: real)
    | Floors(floors: Floors)

  /** An operation, and the area and settings it is made with. */
  datatype Call = Call(op: Op, area: Rect, settings: Settings)

  ghost function HeldIn(tree: Option<Tree>): set<Id> {
    if tree.Some? then tree.value.Ids() else {}
  }

  ghost function AfterOne(held: set<Id>, op: Op, done: bool): set<Id> {
    match op
    case Open(id, _, _) => held + {id}
    case OpenFitting(id, _, _) => if done then held + {id} else held
    case OpenLargest(id) => if done then held + {id} else held
    case Close(id) => held - {id}
    case _ => held
  }

  /** The windows held after a run, given which insertions were accepted. */
  ghost function After(held: set<Id>, calls: seq<Call>, answers: seq<bool>): set<Id>
    requires |answers| == |calls|
  {
    if calls == [] then held
    else
      var n := |calls| - 1;
      AfterOne(After(held, calls[..n], answers[..n]), calls[n].op, answers[n])
  }

  class Tiling {
    var nodes: Nodes
    var root: Option<nat>
    var floors: Floors
    ghost var tree: Option<Tree>

    ghost predicate Valid()
      reads this
    {
      Encodes(nodes, root, tree)
    }

    constructor ()
      ensures Valid() && tree == None && floors == map[]
    {
      nodes, root, floors, tree := [], None, map[], None;
    }

    function Under(settings: Settings): Rules
      reads this
    {
      Rules(floors, settings)
    }

    method SetFloors(floors: Floors)
      requires Valid()
      modifies this`floors
      ensures Valid() && this.floors == floors
    {
      this.floors := floors;
    }

    predicate Contains(id: Id)
      reads this
    {
      LeafFrom(nodes, id, 0).Some?
    }

    lemma ContainsIs(id: Id)
      requires Valid()
      ensures Contains(id) <==> tree.Some? && id in tree.value.Ids()
    {
      LeafIsFound(nodes, root, tree, id);
      if tree.Some? { LeafSlotFinds(tree.value, id); }
    }

    /** The tiles of the whole tree, read from the arena. */
    function Boxes(area: Rect, settings: Settings): (out: Boxes)
      requires Valid()
      reads this
      ensures out == if tree.Some? then Layout(tree.value, area, Under(settings)) else []
    {
      if root.None? then []
      else PlaceAt(nodes, root.value, area.Inset(settings.gap), Under(settings), tree.value)
    }

    method Push(cell: Cell) returns (at: nat)
      modifies this`nodes
      ensures at == old(|nodes|) && nodes == old(nodes) + [Some(cell)]
    {
      nodes := nodes + [Some(cell)];
      at := |nodes| - 1;
    }

    /** Point the one link that led to `what` at `with`: the root's, or the parent's. */
    method Attach(parent: Option<nat>, what: nat, with: nat)
      modifies this`nodes, this`root
      ensures parent.None? ==> nodes == old(nodes) && root == if old(root) == Some(what) then Some(with) else old(root)
      ensures parent.Some? ==> root == old(root) && nodes == Rehung(old(nodes), parent.value, what, with)
    {
      if parent.None? {
        if root == Some(what) { root := Some(with); }
        return;
      }
      if parent.value < |nodes| && nodes[parent.value].Some? && nodes[parent.value].value.Branch? {
        var cell := nodes[parent.value].value;
        if cell.one == what { cell := cell.(one := with); }
        if cell.two == what && nodes[parent.value].value.two == what { cell := cell.(two := with); }
        nodes := nodes[parent.value := Some(cell)];
      }
    }

    /** Hang window `id` beside the leaf in slot `target`. */
    method SplitTile(id: Id, target: nat, rect: Rect, axis: Axis, at: Option<(real, real)>, settings: Settings)
      requires Valid() && tree.Some? && id !in tree.value.Ids()
      requires target in tree.value.Slots() && Node(tree.value, target).Leaf?
      modifies this`nodes, this`root, this`tree
      ensures Valid()
      ensures tree
          == Some(Hung(old(tree.value), target, old(|nodes|) + 1, old(|nodes|), id, axis, settings.split,
                       GoesSecond(at, rect, axis)))
    {
      hide Hung, GoesSecond, Cut;
      ghost var t := tree.value;
      ghost var n := |nodes|;
      var second := GoesSecond(at, rect, axis);
      SplittingEncodes(nodes, root, t, target, id, axis, settings.split, second);
      var leaf := Push(Window(id));
      HoldsElsewhere(old(nodes), nodes, t);
      ParentIsFound(nodes, t, target);
      var hungFrom := ParentFrom(nodes, target, 0);
      var (one, two) := if second then (target, leaf) else (leaf, target);
      var branch := Push(Cell.Branch(axis, Held(settings.split), one, two));
      assert nodes == Pushed(old(nodes), target, id, axis, settings.split, second);
      Attach(hungFrom, target, branch);
      ParentSlotIs(t, target);
      tree := Some(Hung(t, target, n + 1, n, id, axis, settings.split, second));
    }

    /** Insertion that never refuses, whatever room there is. */
    method Insert(id: Id, named: Option<Id>, at: Option<(real, real)>, area: Rect, settings: Settings)
      requires Valid()
      modifies this`nodes, this`root, this`tree
      ensures Valid()
      ensures tree.Some? && tree.value.Ids() == (if old(tree).Some? then old(tree.value).Ids() else {}) + {id}
      ensures old(tree).Some? && id in old(tree.value).Ids() ==> tree == old(tree) && nodes == old(nodes)
      ensures old(tree).None? ==> tree.value.Leaf?
      ensures old(tree).Some? && id !in old(tree.value).Ids() ==>
                Opened(old(tree.value), tree.value, old(|nodes|), id, named, at, area, old(Under(settings)))
    {
      hide Opened, Hung, SplitTarget, Layout, GoesSecond;
      ContainsIs(id);
      if Contains(id) { return; }
      if root.None? {
        var leaf := Push(Window(id));
        root := Some(leaf);
        tree := Some(Leaf(leaf, id));
        return;
      }
      var target, rect := TargetAndBox(id, named, at, area, settings);
      OpenedHolds(nodes, tree.value, target, rect, id, named, at, area, Under(settings));
      SplitTile(id, target, rect, Axis.Longer(rect), at, settings);
    }

    /** The target of an insertion, with its box in the layout as it stands. */
    method TargetAndBox(id: Id, named: Option<Id>, at: Option<(real, real)>, area: Rect, settings: Settings)
      returns (target: nat, rect: Rect)
      requires Valid() && tree.Some?
      ensures target == SplitTarget(tree.value, id, named, at, Layout(tree.value, area, Under(settings)))
      ensures target in tree.value.Slots() && Node(tree.value, target).Leaf?
      ensures BoxOf(tree.value, area.Inset(settings.gap), Under(settings), target) == Some(rect)
    {
      var boxes := Boxes(area, settings);
      target := Target(id, named, at, boxes);
      TargetIsLeaf(tree.value, id, named, at, area.Inset(settings.gap), Under(settings));
      HoldsNode(nodes, tree.value, target);
      TileIsBox(tree.value, area.Inset(settings.gap), Under(settings), target);
      BoxOfElsewhere(tree.value, area.Inset(settings.gap), Under(settings), target);
      var tile := TileOf(boxes, nodes[target].value.id);
      rect := if tile.Some? then tile.value else area;
    }

    function Target(id: Id, named: Option<Id>, at: Option<(real, real)>, boxes: Boxes): (target: nat)
      requires Valid() && tree.Some?
      reads this
      ensures target == SplitTarget(tree.value, id, named, at, boxes)
    {
      assert forall w :: LeafFrom(nodes, w, 0) == LeafSlot(tree.value, w) by {
        forall w ensures LeafFrom(nodes, w, 0) == LeafSlot(tree.value, w) { LeafIsFound(nodes, root, tree, w); }
      }
      var byName := if named.Some? && named.value != id then LeafFrom(nodes, named.value, 0) else None;
      if byName.Some? then byName.value else
      var under := if at.Some? then Choosing.Under(boxes, at.value) else None;
      var byPoint := if under.Some? then LeafFrom(nodes, under.value, 0) else None;
      if byPoint.Some? then byPoint.value else
      if boxes == [] then root.value else
      var p := if at.Some? then at.value else (boxes[0].1.x, boxes[0].1.y);
      var byDistance := LeafFrom(nodes, boxes[NearestTile(boxes, p)].0, 0);
      if byDistance.Some? then byDistance.value else root.value
    }

    /** Insert only where both windows then have room; otherwise change nothing. */
    method InsertFitting(id: Id, named: Option<Id>, at: Option<(real, real)>, area: Rect, settings: Settings)
      returns (done: bool)
      requires Valid() && settings.gap >= 0.0
      modifies this`nodes, this`root, this`tree
      ensures Valid()
      ensures !done ==> tree == old(tree) && nodes == old(nodes) && root == old(root)
      ensures done ==> tree.Some? && tree.value.Ids() == (if old(tree).Some? then old(tree.value).Ids() else {}) + {id}
      ensures old(tree).None? || id in old(tree.value).Ids() ==> done
      ensures old(tree).Some? && id in old(tree.value).Ids() ==> tree == old(tree) && nodes == old(nodes)
      ensures old(tree).Some? && id !in old(tree.value).Ids() ==>
                var t := old(tree.value);
                var r := old(Under(settings));
                var target := SplitTarget(t, id, named, at, Layout(t, area, r));
                var rect := BoxOf(t, area.Inset(settings.gap), r, target);
                && target in t.Slots() && Node(t, target).Leaf? && rect.Some?
                && (!done <==> NoRoom((Node(t, target).id, rect.value), id, at, r))
                && (done ==> Accepted(t, tree.value, old(|nodes|), target, rect.value, id, at, area, r))
    {
      ContainsIs(id);
      if Contains(id) { return true; }
      if root.None? {
        var leaf := Push(Window(id));
        root := Some(leaf);
        tree := Some(Leaf(leaf, id));
        return true;
      }
      ghost var t := tree.value;
      var target, rect := TargetAndBox(id, named, at, area, settings);
      HoldsNode(nodes, t, target);
      var axis := TileRoom((nodes[target].value.id, rect), id, at, Under(settings));
      RoomTells((nodes[target].value.id, rect), id, at, Under(settings));
      if axis.None? { return false; }
      SplitAccepted(id, target, rect, axis.value, at, area, settings);
      return true;
    }

    /** Split a tile that was found to have room. */
    method SplitAccepted(id: Id, target: nat, rect: Rect, axis: Axis, at: Option<(real, real)>, area: Rect,
                         settings: Settings)
      requires Valid() && tree.Some? && id !in tree.value.Ids() && settings.gap >= 0.0
      requires target in tree.value.Slots() && Node(tree.value, target).Leaf?
      requires BoxOf(tree.value, area.Inset(settings.gap), Under(settings), target) == Some(rect)
      requires TileRoom((Node(tree.value, target).id, rect), id, at, Under(settings)) == Some(axis)
      modifies this`nodes, this`root, this`tree
      ensures Valid() && tree.Some?
      ensures Accepted(old(tree.value), tree.value, old(|nodes|), target, rect, id, at, area, old(Under(settings)))
    {
      ghost var t, was := tree.value, nodes;
      SplitTile(id, target, rect, axis, at, settings);
      AcceptedHolds(was, t, tree.value, target, rect, id, axis, at, area, Under(settings));
    }

    /** The largest tile with room, trying each in order of area. */
    method LargestTile(id: Id, boxes: Boxes, r: Rules) returns (found: Option<nat>)
      ensures found.Some? ==> found.value < |boxes| && LargestRoom(boxes, found.value, id, r)
      ensures found.Some? ==> TileRoom(boxes[found.value], id, None, r).Some?
      ensures found.None? ==> forall j :: 0 <= j < |boxes| ==> NoRoom(boxes[j], id, None, r)
    {
      hide TileRoom, Cramps;
      var order := ByArea(boxes, |boxes|);
      for p := 0 to |order|
        invariant forall q :: 0 <= q < p ==> NoRoom(boxes[order[q]], id, None, r)
      {
        RoomTells(boxes[order[p]], id, None, r);
        if TileRoom(boxes[order[p]], id, None, r).Some? {
          forall j | 0 <= j < |boxes| && Before(boxes, j, order[p])
            ensures NoRoom(boxes[j], id, None, r)
          {
            assert j in order;
          }
          return Some(order[p]);
        }
      }
      forall j | 0 <= j < |boxes|
        ensures NoRoom(boxes[j], id, None, r)
      {
        assert j in order;
      }
      found := None;
    }

    /** Insertion by room and not by place: refuses only when nothing can be split. */
    method InsertLargest(id: Id, area: Rect, settings: Settings) returns (done: bool)
      requires Valid() && settings.gap >= 0.0
      modifies this`nodes, this`root, this`tree
      ensures Valid()
      ensures !done ==> tree == old(tree) && nodes == old(nodes) && root == old(root)
      ensures done ==> tree.Some? && tree.value.Ids() == (if old(tree).Some? then old(tree.value).Ids() else {}) + {id}
      ensures old(tree).None? || id in old(tree.value).Ids() ==> done
      ensures old(tree).Some? && id in old(tree.value).Ids() ==> tree == old(tree) && nodes == old(nodes)
      ensures old(tree).Some? && id !in old(tree.value).Ids() ==>
                var t := old(tree.value);
                var r := old(Under(settings));
                var boxes := Layout(t, area, r);
                && (!done ==> forall j :: 0 <= j < |boxes| ==> NoRoom(boxes[j], id, None, r))
                && (done ==> exists k :: 0 <= k < |boxes| && LargestRoom(boxes, k, id, r)
                                         && AcceptedIn(t, tree.value, old(|nodes|), boxes[k], id, area, r))
    {
      ContainsIs(id);
      if Contains(id) { return true; }
      if root.None? {
        var leaf := Push(Window(id));
        root := Some(leaf);
        tree := Some(Leaf(leaf, id));
        return true;
      }
      var r := Under(settings);
      var boxes := Boxes(area, settings);
      var found := LargestTile(id, boxes, r);
      if found.None? { return false; }
      TileAt(tree.value, area.Inset(settings.gap), r, found.value);
      LeafIsFound(nodes, root, tree, boxes[found.value].0);
      var target := LeafFrom(nodes, boxes[found.value].0, 0);
      hide TileRoom, BoxOf, Layout;
      SplitAccepted(id, target.value, boxes[found.value].1, TileRoom(boxes[found.value], id, None, r).value, None, area,
                    settings);
      done := true;
    }

    /** Write each id into the other's cell. */
    method Swap(a: Id, b: Id) returns (done: bool)
      requires Valid()
      modifies this`nodes, this`tree
      ensures Valid()
      ensures done <==> old(tree).Some? && a in old(tree.value).Ids() && b in old(tree.value).Ids()
      ensures done ==> tree == Some(Traded(old(tree.value), a, b))
      ensures !done ==> tree == old(tree) && nodes == old(nodes)
    {
      LeafIsFound(nodes, root, tree, a);
      LeafIsFound(nodes, root, tree, b);
      if tree.Some? {
        LeafSlotFinds(tree.value, a);
        LeafSlotFinds(tree.value, b);
      }
      var first, second := LeafFrom(nodes, a, 0), LeafFrom(nodes, b, 0);
      if first.None? || second.None? { return false; }
      TradingEncodes(nodes, root, tree.value, a, b);
      nodes := nodes[first.value := Some(Window(b))];
      nodes := nodes[second.value := Some(Window(a))];
      tree := Some(Traded(tree.value, a, b));
      done := true;
    }

    /** Empty a window's cell and its parent's, and hang the sibling where the parent was. */
    method Remove(id: Id)
      requires Valid()
      modifies this`nodes, this`root, this`tree
      ensures Valid()
      ensures tree == if old(tree).Some? then Without(old(tree.value), id) else None
    {
      LeafIsFound(nodes, root, tree, id);
      if tree.Some? { LeafSlotFinds(tree.value, id); }
      var leaf := LeafFrom(nodes, id, 0);
      if leaf.None? {
        if tree.Some? { WithoutAbsent(tree.value, id); }
        return;
      }
      ghost var t := tree.value;
      HoldsNode(nodes, t, leaf.value);
      ParentIsFound(nodes, t, leaf.value);
      ParentSlotIs(t, leaf.value);
      var parent := ParentFrom(nodes, leaf.value, 0);
      if parent.None? {
        nodes := nodes[leaf.value := None];
        root := None;
        tree := None;
        return;
      }
      HoldsNode(nodes, t, parent.value);
      WithoutIsGrown(t, leaf.value);
      var cell := nodes[parent.value].value;
      var sibling := if cell.one == leaf.value then cell.two else cell.one;
      assert sibling == Sibling(t, leaf.value).at;
      nodes := nodes[leaf.value := None];
      ParentWithout(old(nodes), nodes, root, t, leaf.value, parent.value);
      ParentSlotIs(t, parent.value);
      var above := ParentFrom(nodes, parent.value, 0);
      Attach(above, parent.value, sibling);
      nodes := nodes[parent.value := None];
      RemovingEncodes(old(nodes), old(root), t, leaf.value, nodes);
      tree := Without(t, id);
    }

    /** Climb from a leaf to the first split that owns the edge. */
    method SeamOf(leaf: nat, edge: Edge) returns (seam: Option<nat>)
      requires Valid() && tree.Some? && leaf in tree.value.Slots()
      ensures seam == SeamBeside(tree.value, leaf, edge)
    {
      ghost var t := tree.value;
      var node := leaf;
      ParentIsFound(nodes, t, node);
      ParentSlotIs(t, node);
      var parent := ParentFrom(nodes, node, 0);
      while parent.Some?
        invariant node in t.Slots() && parent == ParentSlot(t, node)
        invariant SeamBeside(t, leaf, edge) == SeamBeside(t, node, edge)
        decreases Height(t, node)
      {
        ParentSlotIs(t, node);
        SeamStep(t, node, edge);
        HoldsNode(nodes, t, parent.value);
        var cell := nodes[parent.value].value;
        if cell.axis == edge.Axis() && (if edge.Child() == 0 then cell.one else cell.two) == node {
          return parent;
        }
        node := parent.value;
        ParentIsFound(nodes, t, node);
        parent := ParentFrom(nodes, node, 0);
      }
      ParentSlotIs(t, node);
      NoSeamAtTop(t, edge);
      seam := None;
    }

    /** Write a seam's ratio. */
    method SetSeam(seam: nat, ratio: real)
      requires Valid() && tree.Some? && seam in tree.value.Slots() && Node(tree.value, seam).Split?
      requires 0.05 <= ratio <= 0.95
      modifies this`nodes, this`tree
      ensures Valid() && tree == Some(SetRatio(old(tree.value), seam, ratio))
    {
      ghost var t := tree.value;
      HoldsNode(nodes, t, seam);
      RatioHolds(nodes, t, seam, ratio);
      SetRatioKeeps(t, seam, ratio);
      nodes := nodes[seam := Some(nodes[seam].value.(ratio := ratio))];
      tree := Some(SetRatio(t, seam, ratio));
    }

    /** A pointer drag: the seam beside the edge goes to the place given, within its room. */
    method DragSeam(id: Id, edge: Edge, edgeAt: (real, real), area: Rect, settings: Settings)
      requires Valid()
      modifies this`nodes, this`tree
      ensures Valid()
      ensures old(tree).None? || id !in old(tree.value).Ids() ==> tree == old(tree)
      ensures old(tree).Some? && id in old(tree.value).Ids() ==>
                var t := old(tree.value);
                var leaf := LeafSlot(t, id);
                leaf.Some? && tree == Some(Dragged(t, leaf.value, edge, edgeAt, area, Under(settings)))
    {
      LeafIsFound(nodes, root, tree, id);
      if tree.Some? { LeafSlotFinds(tree.value, id); }
      var leaf := LeafFrom(nodes, id, 0);
      if leaf.None? { return; }
      ghost var t := tree.value;
      var seam := SeamOf(leaf.value, edge);
      if seam.None? { return; }
      SeamIsAbove(t, leaf.value, edge);
      HoldsNode(nodes, t, seam.value);
      var r := Under(settings);
      var rect := FindBox(nodes, root.value, area.Inset(settings.gap), seam.value, r, t);
      if rect.None? { return; }
      var ratio := Wanted(edge, edge.At(edgeAt), rect.value, settings.gap);
      var (low, high) := RoomAt(nodes, seam.value, rect.value, r, Node(t, seam.value));
      NodeSlots(t, seam.value);
      SetSeam(seam.value, Within(ratio, low, high, nodes[seam.value].value.ratio));
    }

    /** The seam a keypress moves: the trailing one, else the leading one with the
        sign turned round. */
    method SeamToPress(leaf: nat, axis: Axis, growth: real) returns (moved: Option<(nat, real)>)
      requires Valid() && tree.Some? && leaf in tree.value.Slots()
      ensures moved == PressSeam(tree.value, leaf, axis, growth)
    {
      var seam := SeamOf(leaf, if axis.Vertical? then Right else Bottom);
      if seam.Some? { return Some((seam.value, growth)); }
      seam := SeamOf(leaf, if axis.Vertical? then Left else Top);
      if seam.Some? { return Some((seam.value, -growth)); }
      moved := None;
    }

    /** Grow a window along an axis by a share, moving one seam. */
    method Resize(id: Id, axis: Axis, growth: real, area: Rect, settings: Settings)
      requires Valid()
      modifies this`nodes, this`tree
      ensures Valid()
      ensures old(tree).None? || id !in old(tree.value).Ids() ==> tree == old(tree)
      ensures old(tree).Some? && id in old(tree.value).Ids() ==>
                var t := old(tree.value);
                var leaf := LeafSlot(t, id);
                leaf.Some? && tree == Some(Pressed(t, leaf.value, axis, growth, area, Under(settings)))
    {
      LeafIsFound(nodes, root, tree, id);
      if tree.Some? { LeafSlotFinds(tree.value, id); }
      var leaf := LeafFrom(nodes, id, 0);
      if leaf.None? { return; }
      PressLeaf(leaf.value, axis, growth, area, settings);
    }

    method PressLeaf(leaf: nat, axis: Axis, growth: real, area: Rect, settings: Settings)
      requires Valid() && tree.Some? && leaf in tree.value.Slots()
      modifies this`nodes, this`tree
      ensures Valid() && tree == Some(Pressed(old(tree.value), leaf, axis, growth, area, Under(settings)))
    {
      ghost var t := tree.value;
      var r := Under(settings);
      var moved := SeamToPress(leaf, axis, growth);
      if moved.None? { return; }
      var (seam, towards) := moved.value;
      PressSeamIs(t, leaf, axis, growth);
      HoldsNode(nodes, t, seam);
      NodeSlots(t, seam);
      var found := FindBox(nodes, root.value, area.Inset(r.Gap()), seam, r, t);
      var rect := if found.Some? then found.value else area;
      var (low, high) := RoomAt(nodes, seam, rect, r, Node(t, seam));
      var shown := ShareAt(nodes, seam, rect, r, Node(t, seam));
      hide PressSeam, Pressed, BoxOf, Drawn, Room, SetRatio;
      var ratio := Within(shown + towards, low, high, nodes[seam].value.ratio);
      PressedIs(t, leaf, axis, growth, area, r, seam, towards, rect, ratio);
      SetSeam(seam, ratio);
    }

    /** Any run of operations: the arena still encodes one tree, and the windows in
        it are those added and not taken out. */
    method Replay(calls: seq<Call>) returns (answers: seq<bool>)
      requires Valid() && forall call :: call in calls ==> call.settings.gap >= 0.0
      modifies this
      ensures Valid() && |answers| == |calls|
      ensures HeldIn(tree) == After(HeldIn(old(tree)), calls, answers)
    {
      answers := [];
      for k := 0 to |calls|
        invariant Valid() && |answers| == k && HeldIn(tree) == After(HeldIn(old(tree)), calls[..k], answers)
      {
        var done := Apply(calls[k].op, calls[k].area, calls[k].settings);
        assert calls[..k + 1][..k] == calls[..k] && (answers + [done])[..k] == answers;
        answers := answers + [done];
      }
      assert calls[..|calls|] == calls;
    }

    method Apply(op: Op, area: Rect, settings: Settings) returns (done: bool)
      requires Valid() && settings.gap >= 0.0
      modifies this
      ensures Valid() && HeldIn(tree) == AfterOne(HeldIn(old(tree)), op, done)
    {
      ghost var before := tree;
      done := true;
      match op
      case Open(id, named, at) => Insert(id, named, at, area, settings);
      case OpenFitting(id, named, at) => done := InsertFitting(id, named, at, area, settings);
      case OpenLargest(id) => done := InsertLargest(id, area, settings);
      case Close(id) =>
        Remove(id);
        if before.Some? {
          if id in before.value.Ids() { WithoutProper(before.value, id); } else { WithoutAbsent(before.value, id); }
        }
      case Trade(a, b) =>
        done := Swap(a, b);
        if done { TradedProper(before.value, a, b); }
      case Drag(id, edge, edgeAt) =>
        DragSeam(id, edge, edgeAt, area, settings);
        if before.Some? && id in before.value.Ids() {
          MovesKeepWindows(before.value, LeafSlot(before.value, id).value, area, Under(settings));
        }
      case Press(id, axis, growth) =>
        Resize(id, axis, growth, area, settings);
        if before.Some? && id in before.value.Ids() {
          MovesKeepWindows(before.value, LeafSlot(before.value, id).value, area, Under(settings));
        }
      case Floors(floors) => SetFloors(floors);
    }
  }
}
