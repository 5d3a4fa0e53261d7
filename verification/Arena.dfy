/** The arena the tree is kept in: slots holding windows and branches, read by
    index, and what each reading says about the tree they encode. */
module Arena {
  import opened Basics
  import opened Geometry
  import opened Dwindle
  import opened Seams
  import opened Inserting
  import opened Choosing

  datatype Cell =
    | Window(id: Id)
    | Branch(axis: Axis, ratio: real, one: nat, two: nat)

  type Nodes = seq<Option<Cell>>

  function CellOf(t: Tree): Cell {
    if t.Leaf? then Window(t.id) else Cell.Branch(t.axis, t.ratio, t.first.at, t.second.at)
  }

  /** The arena holds the subtree, cell by cell. */
  ghost predicate Holds(nodes: Nodes, t: Tree) {
    && t.at < |nodes| && nodes[t.at] == Some(CellOf(t))
    && (t.Split? ==> Holds(nodes, t.first) && Holds(nodes, t.second))
  }

  /** The live slots are exactly the nodes of the one tree. */
  ghost predicate Encodes(nodes: Nodes, root: Option<nat>, tree: Option<Tree>) {
    && root == (if tree.Some? then Some(tree.value.at) else None)
    && (tree.Some? ==> tree.value.Proper() && Holds(nodes, tree.value))
    && forall i :: 0 <= i < |nodes| ==> (nodes[i].Some? <==> tree.Some? && i in tree.value.Slots())
  }

  /** The first slot from `i` on holding window `id`. */
  function LeafFrom(nodes: Nodes, id: Id, i: nat): (found: Option<nat>)
    ensures found.Some? ==> i <= found.value < |nodes| && nodes[found.value] == Some(Window(id))
    ensures found.None? ==> forall k :: i <= k < |nodes| ==> nodes[k] != Some(Window(id))
    decreases |nodes| - i
  {
    if i >= |nodes| then None
    else if nodes[i] == Some(Window(id)) then Some(i)
    else LeafFrom(nodes, id, i + 1)
  }

  predicate IsParent(cell: Option<Cell>, child: nat) {
    cell.Some? && cell.value.Branch? && (cell.value.one == child || cell.value.two == child)
  }

  /** The first slot from `i` on holding a branch with `child` under it. */
  function ParentFrom(nodes: Nodes, child: nat, i: nat): (found: Option<nat>)
    ensures found.Some? ==> i <= found.value < |nodes| && IsParent(nodes[found.value], child)
    ensures found.None? ==> forall k :: i <= k < |nodes| ==> !IsParent(nodes[k], child)
    decreases |nodes| - i
  {
    if i >= |nodes| then None
    else if IsParent(nodes[i], child) then Some(i)
    else ParentFrom(nodes, child, i + 1)
  }

  /** The slot of the branch a node hangs from. */
  function ParentSlot(t: Tree, at: nat): Option<nat> {
    if t.Leaf? then None
    else if t.first.at == at || t.second.at == at then Some(t.at)
    else if at in t.first.Slots() then ParentSlot(t.first, at)
    else ParentSlot(t.second, at)
  }

  /** What a subtree asks, read from the arena. */
  function NeedAt(nodes: Nodes, index: nat, axis: Axis, r: Rules, ghost t: Tree): (need: Need)
    requires Holds(nodes, t) && t.at == index
    ensures need == Ask(t, axis, r)
    decreases t
  {
    match nodes[index].value
    case Window(id) => NeedOf(FloorOf(r.floors, id), axis, r.settings)
    case Branch(on, _, one, two) =>
      var first := NeedAt(nodes, one, axis, r, t.first);
      var second := NeedAt(nodes, two, axis, r, t.second);
      if on == axis then Both(first, second, r.Gap()) else Either(first, second)
  }

  function ShareAt(nodes: Nodes, index: nat, rect: Rect, r: Rules, ghost t: Tree): (ratio: real)
    requires Holds(nodes, t) && t.at == index && t.Split?
    ensures ratio == Drawn(t, rect, r)
  {
    var cell := nodes[index].value;
    if r.floors == map[] then cell.ratio
    else Shared(cell.axis, cell.ratio, NeedAt(nodes, cell.one, cell.axis, r, t.first),
                NeedAt(nodes, cell.two, cell.axis, r, t.second), rect, r.settings)
  }

  function PlaceAt(nodes: Nodes, index: nat, rect: Rect, r: Rules, ghost t: Tree): (out: Boxes)
    requires Holds(nodes, t) && t.at == index
    ensures out == Place(t, rect, r)
    decreases t
  {
    match nodes[index].value
    case Window(id) => [(id, rect)]
    case Branch(axis, _, one, two) =>
      var (first, second) := Cut(rect, axis, ShareAt(nodes, index, rect, r, t), r.Gap());
      PlaceAt(nodes, one, first, r, t.first) + PlaceAt(nodes, two, second, r, t.second)
  }

  function FindBox(nodes: Nodes, index: nat, rect: Rect, wanted: nat, r: Rules, ghost t: Tree): (found: Option<Rect>)
    requires Holds(nodes, t) && t.at == index
    ensures found == BoxOf(t, rect, r, wanted)
    decreases t
  {
    if index == wanted then Some(rect) else
    match nodes[index].value
    case Window(_) => None
    case Branch(axis, _, one, two) =>
      var (first, second) := Cut(rect, axis, ShareAt(nodes, index, rect, r, t), r.Gap());
      var inFirst := FindBox(nodes, one, first, wanted, r, t.first);
      if inFirst.Some? then inFirst else FindBox(nodes, two, second, wanted, r, t.second)
  }

  function FloorAt(nodes: Nodes, index: nat, axis: Axis, least: real, gap: real, ghost t: Tree): (floor: real)
    requires Holds(nodes, t) && t.at == index
    ensures floor == FloorAlong(t, axis, least, gap)
    decreases t
  {
    match nodes[index].value
    case Window(_) => least
    case Branch(on, ratio, one, two) =>
      var first := FloorAt(nodes, one, axis, least, gap, t.first);
      var second := FloorAt(nodes, two, axis, least, gap, t.second);
      if on == axis then gap + Max(first / Held(ratio), second / (1.0 - Held(ratio))) else Max(first, second)
  }

  /** The ratios the seam in slot `seam` may take, as the drag computes them. */
  function RoomAt(nodes: Nodes, seam: nat, rect: Rect, r: Rules, ghost t: Tree): (room: (real, real))
    requires Holds(nodes, t) && t.at == seam && t.Split?
    ensures room == Room(t, rect, r)
  {
    var cell := nodes[seam].value;
    var current := ShareAt(nodes, seam, rect, r, t);
    var span := Span(cell.axis, rect, r.Gap());
    var least := cell.axis.Of(r.settings.minimum);
    var low := if least <= 0.0 then 0.05
               else Max(0.05, FloorAt(nodes, cell.one, cell.axis, least, r.Gap(), t.first) / span);
    var high := if least <= 0.0 then 0.95
                else Min(0.95, 1.0 - FloorAt(nodes, cell.two, cell.axis, least, r.Gap(), t.second) / span);
    var first := NeedAt(nodes, cell.one, cell.axis, r, t.first);
    var second := NeedAt(nodes, cell.two, cell.axis, r, t.second);
    var low' := if r.floors != map[] && first.pull > 0.0 then Max(low, first.pull / span) else low;
    var high' := if r.floors != map[] && second.pull > 0.0 then Min(high, 1.0 - second.pull / span) else high;
    (Max(Min(low', current), 0.05), Min(Max(high', current), 0.95))
  }

  // ---- Readings of the arena are readings of the tree ----

  lemma {:induction false} HoldsNode(nodes: Nodes, t: Tree, at: nat)
    requires Holds(nodes, t) && t.Proper() && at in t.Slots()
    ensures Node(t, at).at == at < |nodes| && nodes[at] == Some(CellOf(Node(t, at))) && Holds(nodes, Node(t, at))
  {
    if t.at != at {
      if at in t.first.Slots() { HoldsNode(nodes, t.first, at); } else { HoldsNode(nodes, t.second, at); }
    }
  }

  /** Cells outside a subtree's slots do not matter to it. */
  lemma HoldsElsewhere(nodes: Nodes, nodes': Nodes, t: Tree)
    requires Holds(nodes, t)
    requires forall i :: i in t.Slots() && i < |nodes| ==> i < |nodes'| && nodes'[i] == nodes[i]
    ensures Holds(nodes', t)
  {}

  lemma SlotsInArena(nodes: Nodes, t: Tree)
    requires Holds(nodes, t)
    ensures forall i :: i in t.Slots() ==> i < |nodes|
  {}

  /** The scan for a window finds its one leaf. */
  lemma LeafIsFound(nodes: Nodes, root: Option<nat>, tree: Option<Tree>, id: Id)
    requires Encodes(nodes, root, tree)
    ensures LeafFrom(nodes, id, 0) == if tree.Some? then LeafSlot(tree.value, id) else None
  {
    var found := LeafFrom(nodes, id, 0);
    if tree.Some? {
      var t := tree.value;
      LeafSlotFinds(t, id);
      if found.Some? {
        HoldsNode(nodes, t, found.value);
        SlotOfLeaf(t, found.value);
      }
      if LeafSlot(t, id).Some? {
        HoldsNode(nodes, t, LeafSlot(t, id).value);
      }
    }
  }

  lemma {:induction false} ParentHolds(t: Tree, p: nat, child: nat)
    requires t.Proper() && p in t.Slots() && Node(t, p).Split?
    requires Node(t, p).first.at == child || Node(t, p).second.at == child
    ensures child in t.Slots() && child != t.at && ParentSlot(t, child) == Some(p)
  {
    TopSlot(t.first);
    TopSlot(t.second);
    if t.at != p {
      if p in t.first.Slots() { ParentHolds(t.first, p, child); } else { ParentHolds(t.second, p, child); }
    }
  }

  lemma TopSlot(t: Tree)
    ensures t.at in t.Slots()
  {}

  lemma NoParentElsewhere(t: Tree, child: nat)
    requires child !in t.Slots()
    ensures ParentSlot(t, child).None?
  {
    if t.Split? {
      TopSlot(t.first);
      TopSlot(t.second);
    }
  }

  lemma {:induction false} ParentSlotIs(t: Tree, child: nat)
    requires t.Proper() && child in t.Slots()
    ensures ParentSlot(t, child).None? <==> child == t.at
    ensures ParentSlot(t, child).Some? ==>
              var p := ParentSlot(t, child).value;
              && p in t.Slots() && p != child && Node(t, p).Split?
              && (Node(t, p).first.at == child || Node(t, p).second.at == child)
  {
    if t.Split? {
      TopSlot(t.first);
      TopSlot(t.second);
      NoParentElsewhere(t.second, t.at);
      if child in t.first.Slots() && child != t.first.at {
        ParentSlotIs(t.first, child);
      } else if child in t.second.Slots() && child != t.second.at {
        ParentSlotIs(t.second, child);
      }
    }
  }

  /** The scan for a parent finds the one branch a node hangs from, whatever else
      than branches is in the arena beside the tree. */
  lemma ParentIsFound(nodes: Nodes, t: Tree, child: nat)
    requires t.Proper() && Holds(nodes, t) && child in t.Slots()
    requires forall i :: 0 <= i < |nodes| && nodes[i].Some? && nodes[i].value.Branch? ==> i in t.Slots()
    ensures ParentFrom(nodes, child, 0) == ParentSlot(t, child)
  {
    var found := ParentFrom(nodes, child, 0);
    ParentSlotIs(t, child);
    if found.Some? {
      HoldsNode(nodes, t, found.value);
      ParentHolds(t, found.value, child);
    } else if ParentSlot(t, child).Some? {
      HoldsNode(nodes, t, ParentSlot(t, child).value);
    }
  }

  // ---- Walking up to a seam ----

  /** How many branches a node hangs under. */
  ghost function Height(t: Tree, at: nat): nat {
    if t.Leaf? || t.at == at then 0
    else if at in t.first.Slots() then 1 + Height(t.first, at)
    else 1 + Height(t.second, at)
  }

  /** One step of the walk: the parent is the seam if it is cut on the edge's axis
      with the node on the far side, and otherwise the walk goes on from it. */
  lemma {:induction false} SeamStep(t: Tree, node: nat, edge: Edge)
    requires t.Proper() && node in t.Slots() && node != t.at
    ensures var p := ParentSlot(t, node);
            && p.Some? && p.value in t.Slots() && Node(t, p.value).Split?
            && Height(t, p.value) < Height(t, node)
            && SeamBeside(t, node, edge) ==
                 (var n := Node(t, p.value);
                  if n.axis == edge.Axis() && (if edge.Child() == 0 then n.first.at else n.second.at) == node then p
                  else SeamBeside(t, p.value, edge))
  {
    TopSlot(t.first);
    TopSlot(t.second);
    ParentSlotIs(t, node);
    NoSeamAtTop(t.first, edge);
    NoSeamAtTop(t.second, edge);
    NoSeamAtTop(t, edge);
    if node in t.first.Slots() {
      if node != t.first.at { SeamStep(t.first, node, edge); ParentSlotIs(t.first, node); }
    } else {
      if node != t.second.at { SeamStep(t.second, node, edge); ParentSlotIs(t.second, node); }
    }
  }

  lemma NoSeamAtTop(t: Tree, edge: Edge)
    requires t.Proper()
    ensures SeamBeside(t, t.at, edge).None?
  {}

  // ---- Hanging a subtree where a node was ----

  /** The arena with `with` under `parent` wherever `what` was. */
  function Rehung(nodes: Nodes, parent: nat, what: nat, with: nat): Nodes {
    if parent < |nodes| && nodes[parent].Some? && nodes[parent].value.Branch? then
      var cell := nodes[parent].value;
      nodes[parent := Some(cell.(one := if cell.one == what then with else cell.one,
                                 two := if cell.two == what then with else cell.two))]
    else nodes
  }

  /** Rewriting one child link replaces the subtree that hung there. */
  lemma {:induction false} RehungHolds(nodes: Nodes, t: Tree, what: nat, sub: Tree)
    requires Holds(nodes, t) && t.Proper() && what in t.Slots() && what != t.at && Holds(nodes, sub)
    requires ParentSlot(t, what).Some? && ParentSlot(t, what).value !in sub.Slots()
    ensures Holds(Rehung(nodes, ParentSlot(t, what).value, what, sub.at), Grown(t, what, sub))
  {
    if ParentSlot(t, what).value == t.at {
      RehungHere(nodes, t, what, sub);
    } else {
      RehungBelow(t, what);
      if what in t.first.Slots() {
        RehungHolds(nodes, t.first, what, sub);
      } else {
        RehungHolds(nodes, t.second, what, sub);
      }
      RehungAround(nodes, t, what, sub);
    }
  }

  /** The parent of a node that is no child of the top is the one in its own half. */
  lemma RehungBelow(t: Tree, what: nat)
    requires t.Proper() && what in t.Slots() && what != t.at
    requires ParentSlot(t, what).Some? && ParentSlot(t, what).value != t.at
    ensures what in t.first.Slots() ==> what != t.first.at && ParentSlot(t.first, what) == ParentSlot(t, what)
    ensures what !in t.first.Slots() ==>
              what in t.second.Slots() && what != t.second.at && ParentSlot(t.second, what) == ParentSlot(t, what)
  {
    TopSlot(t.first);
    TopSlot(t.second);
    ParentSlotIs(t, what);
    if what in t.first.Slots() { ParentSlotIs(t.first, what); } else { ParentSlotIs(t.second, what); }
  }

  lemma RehungHere(nodes: Nodes, t: Tree, what: nat, sub: Tree)
    requires Holds(nodes, t) && t.Proper() && what in t.Slots() && what != t.at && Holds(nodes, sub)
    requires ParentSlot(t, what) == Some(t.at) && t.at !in sub.Slots()
    ensures Holds(Rehung(nodes, t.at, what, sub.at), Grown(t, what, sub))
  {
    TopSlot(t.first);
    TopSlot(t.second);
    ParentSlotIs(t, what);
    var nodes' := Rehung(nodes, t.at, what, sub.at);
    GrownElsewhere(t.first, what, sub);
    GrownElsewhere(t.second, what, sub);
    HoldsElsewhere(nodes, nodes', sub);
    if what == t.first.at { HoldsElsewhere(nodes, nodes', t.second); } else { HoldsElsewhere(nodes, nodes', t.first); }
  }

  /** The half a link is rewritten in, rehung, and the other half as it was. */
  lemma RehungAround(nodes: Nodes, t: Tree, what: nat, sub: Tree)
    requires Holds(nodes, t) && t.Proper() && what in t.Slots() && what != t.at
    requires ParentSlot(t, what).Some? && ParentSlot(t, what).value != t.at
    requires var half := if what in t.first.Slots() then t.first else t.second;
             Holds(Rehung(nodes, ParentSlot(t, what).value, what, sub.at), Grown(half, what, sub))
    ensures Holds(Rehung(nodes, ParentSlot(t, what).value, what, sub.at), Grown(t, what, sub))
  {
    var p := ParentSlot(t, what).value;
    RehungBelow(t, what);
    var nodes' := Rehung(nodes, p, what, sub.at);
    GrownElsewhere(t.first, what, sub);
    GrownElsewhere(t.second, what, sub);
    if what in t.first.Slots() {
      ParentSlotIs(t.first, what);
      GrownTop(t.first, what, sub);
      HoldsElsewhere(nodes, nodes', t.second);
    } else {
      ParentSlotIs(t.second, what);
      GrownTop(t.second, what, sub);
      HoldsElsewhere(nodes, nodes', t.first);
    }
  }

  lemma GrownTop(t: Tree, what: nat, sub: Tree)
    requires what != t.at
    ensures Grown(t, what, sub).at == t.at
  {}

  // ---- What each operation's writes do to the tree ----

  /** The arena after a window was hung beside a leaf: two cells pushed, and the
      link to the leaf now to the branch. */
  function Pushed(nodes: Nodes, target: nat, id: Id, axis: Axis, split: real, second: bool): Nodes {
    var n := |nodes|;
    nodes + [Some(Window(id)),
             Some(Cell.Branch(axis, Held(split), if second then target else n, if second then n else target))]
  }

  function Splitting(nodes: Nodes, parent: Option<nat>, target: nat, id: Id, axis: Axis, split: real,
                     second: bool): Nodes {
    var pushed := Pushed(nodes, target, id, axis, split, second);
    if parent.Some? then Rehung(pushed, parent.value, target, |nodes| + 1) else pushed
  }

  lemma PushedHolds(nodes: Nodes, t: Tree, target: nat, id: Id, axis: Axis, split: real, second: bool)
    requires Holds(nodes, t) && t.Proper() && target in t.Slots() && Node(t, target).Leaf?
    ensures var pushed := Pushed(nodes, target, id, axis, split, second);
            && Holds(pushed, t)
            && Holds(pushed, Inserting.Branch(Node(t, target), |nodes| + 1, |nodes|, id, axis, split, second))
  {
    var n, pushed := |nodes|, Pushed(nodes, target, id, axis, split, second);
    SlotsInArena(nodes, t);
    HoldsElsewhere(nodes, pushed, t);
    HoldsNode(pushed, t, target);
    var sub := Inserting.Branch(Node(t, target), n + 1, n, id, axis, split, second);
    assert Holds(pushed, sub.first) && Holds(pushed, sub.second);
  }

  lemma SplittingHolds(nodes: Nodes, t: Tree, target: nat, id: Id, axis: Axis, split: real, second: bool)
    requires Holds(nodes, t) && t.Proper() && target in t.Slots() && Node(t, target).Leaf?
    ensures Holds(Splitting(nodes, ParentSlot(t, target), target, id, axis, split, second),
                  Hung(t, target, |nodes| + 1, |nodes|, id, axis, split, second))
  {
    var sub := Inserting.Branch(Node(t, target), |nodes| + 1, |nodes|, id, axis, split, second);
    SlotsInArena(nodes, t);
    PushedHolds(nodes, t, target, id, axis, split, second);
    ParentSlotIs(t, target);
    NodeSlots(t, target);
    if target != t.at {
      hide Pushed;
      RehungHolds(Pushed(nodes, target, id, axis, split, second), t, target, sub);
    }
  }

  /** A tree with a window hung beside a leaf: two more slots and one more window. */
  lemma HungShape(t: Tree, target: nat, at: nat, slot: nat, id: Id, axis: Axis, split: real, second: bool)
    requires t.Proper() && target in t.Slots() && Node(t, target).Leaf?
    requires id !in t.Ids() && at !in t.Slots() && slot !in t.Slots() && at != slot
    ensures var u := Hung(t, target, at, slot, id, axis, split, second);
            u.Proper() && u.Slots() == t.Slots() + {at, slot} && u.Ids() == t.Ids() + {id}
    ensures Hung(t, target, at, slot, id, axis, split, second).at == if target == t.at then at else t.at
  {
    NodeSlots(t, target);
    SlotOfLeaf(t, target);
    GrownProper(t, target, Inserting.Branch(Node(t, target), at, slot, id, axis, split, second));
  }

  lemma {:induction false} SplittingEncodes(nodes: Nodes, root: Option<nat>, t: Tree, target: nat, id: Id, axis: Axis,
                                            split: real, second: bool)
    requires Encodes(nodes, root, Some(t)) && target in t.Slots() && Node(t, target).Leaf? && id !in t.Ids()
    ensures var parent := ParentSlot(t, target);
            var n := |nodes|;
            Encodes(Splitting(nodes, parent, target, id, axis, split, second), if parent.Some? then root else Some(n + 1),
                    Some(Hung(t, target, n + 1, n, id, axis, split, second)))
  {
    hide Holds, Hung, Splitting;
    var n := |nodes|;
    SlotsInArena(nodes, t);
    SplittingHolds(nodes, t, target, id, axis, split, second);
    HungShape(t, target, n + 1, n, id, axis, split, second);
    ParentSlotIs(t, target);
    SplittingLives(nodes, ParentSlot(t, target), target, id, axis, split, second);
  }

  /** Two cells more are live, and those that were. */
  lemma SplittingLives(nodes: Nodes, parent: Option<nat>, target: nat, id: Id, axis: Axis, split: real, second: bool)
    ensures var after := Splitting(nodes, parent, target, id, axis, split, second);
            && |after| == |nodes| + 2 && after[|nodes|].Some? && after[|nodes| + 1].Some?
            && forall i :: 0 <= i < |nodes| ==> (after[i].Some? <==> nodes[i].Some?)
  {
    var pushed := Pushed(nodes, target, id, axis, split, second);
    assert forall i :: 0 <= i < |nodes| ==> pushed[i] == nodes[i];
  }

  function Reseamed(nodes: Nodes, seam: nat, ratio: real): Nodes {
    if seam < |nodes| && nodes[seam].Some? && nodes[seam].value.Branch? then
      nodes[seam := Some(nodes[seam].value.(ratio := ratio))]
    else nodes
  }

  lemma {:induction false} RatioHolds(nodes: Nodes, t: Tree, seam: nat, ratio: real)
    requires Holds(nodes, t) && t.Proper() && seam in t.Slots() && Node(t, seam).Split?
    ensures Holds(Reseamed(nodes, seam, ratio), SetRatio(t, seam, ratio))
  {
    HoldsNode(nodes, t, seam);
    var nodes' := Reseamed(nodes, seam, ratio);
    SetRatioKeeps(t.first, seam, ratio);
    SetRatioKeeps(t.second, seam, ratio);
    if seam in t.first.Slots() {
      RatioHolds(nodes, t.first, seam, ratio);
      HoldsElsewhere(nodes, nodes', t.second);
    } else if seam in t.second.Slots() {
      RatioHolds(nodes, t.second, seam, ratio);
      HoldsElsewhere(nodes, nodes', t.first);
    } else {
      HoldsElsewhere(nodes, nodes', t.first);
      HoldsElsewhere(nodes, nodes', t.second);
    }
  }

  function TradedCell(cell: Option<Cell>, a: Id, b: Id): Option<Cell> {
    if cell == Some(Window(a)) then Some(Window(b)) else if cell == Some(Window(b)) then Some(Window(a)) else cell
  }

  lemma TradedHolds(nodes: Nodes, nodes': Nodes, t: Tree, a: Id, b: Id)
    requires Holds(nodes, t) && |nodes'| == |nodes|
    requires forall i :: i in t.Slots() && i < |nodes| ==> nodes'[i] == TradedCell(nodes[i], a, b)
    ensures Holds(nodes', Traded(t, a, b)) && Traded(t, a, b).at == t.at
  {}

  /** Writing each window's id into the other's leaf trades the two. */
  lemma TradingEncodes(nodes: Nodes, root: Option<nat>, t: Tree, a: Id, b: Id)
    requires Encodes(nodes, root, Some(t)) && LeafSlot(t, a).Some? && LeafSlot(t, b).Some?
    ensures var (first, second) := (LeafSlot(t, a).value, LeafSlot(t, b).value);
            first < |nodes| && second < |nodes| &&
            Encodes(nodes[first := Some(Window(b))][second := Some(Window(a))], root, Some(Traded(t, a, b)))
  {
    LeafSlotFinds(t, a);
    LeafSlotFinds(t, b);
    var first, second := LeafSlot(t, a).value, LeafSlot(t, b).value;
    HoldsNode(nodes, t, first);
    HoldsNode(nodes, t, second);
    var nodes' := nodes[first := Some(Window(b))][second := Some(Window(a))];
    forall i | i in t.Slots() && i < |nodes|
      ensures nodes'[i] == TradedCell(nodes[i], a, b)
    {
      HoldsNode(nodes, t, i);
      if Node(t, i).Leaf? { SlotOfLeaf(t, i); }
    }
    TradedHolds(nodes, nodes', t, a, b);
    TradedProper(t, a, b);
  }

  /** The sibling a closing window leaves its parent's place to. */
  function Sibling(t: Tree, leaf: nat): Tree
    requires ParentSlot(t, leaf).Some? && ParentSlot(t, leaf).value in t.Slots()
        && Node(t, ParentSlot(t, leaf).value).Split?
  {
    var p := Node(t, ParentSlot(t, leaf).value);
    if p.first.at == leaf then p.second else p.first
  }

  /** Taking a window out is putting its sibling where its parent was. */
  lemma {:induction false} WithoutIsGrown(t: Tree, leaf: nat)
    requires t.Proper() && leaf in t.Slots() && Node(t, leaf).Leaf? && leaf != t.at
    ensures var p := ParentSlot(t, leaf);
            && p.Some? && p.value in t.Slots() && p.value != leaf && Node(t, p.value).Split?
            && var u := Grown(t, p.value, Sibling(t, leaf));
            && Without(t, Node(t, leaf).id) == Some(u)
            && u.Slots() == t.Slots() - {p.value, leaf}
            && Sibling(t, leaf).at in u.Slots() && leaf !in Sibling(t, leaf).Slots()
                && p.value !in Sibling(t, leaf).Slots()
            && Sibling(t, leaf).Slots() <= t.Slots()
  {
    TopSlot(t.first);
    TopSlot(t.second);
    ParentSlotIs(t, leaf);
    SlotOfLeaf(t, leaf);
    var p := ParentSlot(t, leaf).value;
    var id := Node(t, leaf).id;
    if p == t.at {
      TopSlot(Sibling(t, leaf));
    } else if leaf in t.first.Slots() {
      SlotOfLeaf(t.first, leaf);
      WithoutIsGrown(t.first, leaf);
      GrownElsewhere(t.second, p, Sibling(t, leaf));
    } else {
      SlotOfLeaf(t.second, leaf);
      WithoutIsGrown(t.second, leaf);
      GrownElsewhere(t.first, p, Sibling(t, leaf));
    }
  }

  /** The arena after a window was taken out of a split: its cell and the split's
      empty, and the link to the split now to the sibling. */
  lemma RemovingEncodes(nodes: Nodes, root: Option<nat>, t: Tree, leaf: nat, nodes': Nodes)
    requires Encodes(nodes, root, Some(t)) && leaf in t.Slots() && Node(t, leaf).Leaf? && leaf != t.at
    requires ParentSlot(t, leaf).Some? && ParentSlot(t, leaf).value in t.Slots()
        && Node(t, ParentSlot(t, leaf).value).Split?
    requires var p := ParentSlot(t, leaf).value;
             var above := ParentSlot(t, p);
             var hung := if above.Some? then Rehung(nodes, above.value, p, Sibling(t, leaf).at) else nodes;
             && |nodes'| == |nodes| == |hung|
             && forall i :: 0 <= i < |nodes| ==> nodes'[i] == if i == leaf || i == p then None else hung[i]
    ensures var p := ParentSlot(t, leaf).value;
            Encodes(nodes', if p == t.at then Some(Sibling(t, leaf).at) else root, Without(t, Node(t, leaf).id))
  {
    var p := ParentSlot(t, leaf).value;
    var sibling := Sibling(t, leaf);
    WithoutIsGrown(t, leaf);
    ParentSlotIs(t, p);
    SlotOfLeaf(t, leaf);
    WithoutProper(t, Node(t, leaf).id);
    HoldsNode(nodes, t, p);
    var u := Grown(t, p, sibling);
    SlotsInArena(nodes, t);
    if p == t.at {
      HoldsElsewhere(nodes, nodes', sibling);
    } else {
      AboveSibling(t, leaf);
      RehungHolds(nodes, t, p, sibling);
      HoldsElsewhere(Rehung(nodes, ParentSlot(t, p).value, p, sibling.at), nodes', u);
    }
  }

  /** What a split hangs from is not under it. */
  lemma {:induction false} AboveSibling(t: Tree, leaf: nat)
    requires t.Proper() && leaf in t.Slots() && Node(t, leaf).Leaf? && leaf != t.at
    requires ParentSlot(t, leaf).Some? && ParentSlot(t, leaf).value in t.Slots() && ParentSlot(t, leaf).value != t.at
    requires Node(t, ParentSlot(t, leaf).value).Split?
    ensures var p := ParentSlot(t, leaf).value;
            ParentSlot(t, p).Some? && ParentSlot(t, p).value !in Sibling(t, leaf).Slots()
                && ParentSlot(t, p).value != leaf
  {
    var p := ParentSlot(t, leaf).value;
    TopSlot(t.first);
    TopSlot(t.second);
    ParentSlotIs(t, p);
    ParentSlotIs(t, leaf);
    NodeSlots(t, p);
    if p != t.first.at && p != t.second.at {
      if leaf in t.first.Slots() {
        ParentSlotIs(t.first, leaf);
        AboveSibling(t.first, leaf);
      } else {
        ParentSlotIs(t.second, leaf);
        AboveSibling(t.second, leaf);
      }
    }
  }

  /** A split's own parent is still found when the cell of a leaf is empty. */
  lemma ParentWithout(nodes: Nodes, nodes': Nodes, root: Option<nat>, t: Tree, leaf: nat, child: nat)
    requires Encodes(nodes, root, Some(t)) && leaf in t.Slots() && Node(t, leaf).Leaf? && child in t.Slots()
    requires leaf < |nodes| && nodes' == nodes[leaf := None]
    ensures ParentFrom(nodes', child, 0) == ParentSlot(t, child)
  {
    HoldsNode(nodes, t, leaf);
    ParentSlotIs(t, child);
    if ParentSlot(t, child).Some? {
      HoldsNode(nodes, t, ParentSlot(t, child).value);
      assert IsParent(nodes'[ParentSlot(t, child).value], child);
    }
    var found := ParentFrom(nodes', child, 0);
    if found.Some? {
      HoldsNode(nodes, t, found.value);
      ParentHolds(t, found.value, child);
    }
  }
}
