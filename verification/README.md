# Layouts and effect plans, verified

A Dafny model of the two hardest parts of Solium and of two smaller ones, with
proofs of what they promise. `dafny verify dfyconfig.toml` checks all of it.

**The tiling tree** (`crates/layout/src/tree.rs`). A dwindle layout keeps its
windows in an arena that encodes a binary tree. `Dwindle` is the tree as a value:
what a subtree asks of the room, the ratio a seam is drawn at when window floors
move it, and the tiles that follow. `FloorsMet`, `Margins`, `Seams`, `Wide`,
`Pressing`, `Growing`, `Squeeze`, `Inserting` and `Refusing` prove what layout,
dragging, resizing and splits accepted or refused promise about it; `Choosing` and
`Targets` say which tile a new window splits. `Arena` reads the same things from the
arena's cells and shows that each is the tree's, and `Tilings` is the class that
changes the arena in place, with the tree as a ghost field. Lengths are reals.

**The effect plan compiler** (`crates/effects/src/stage.rs`). An effect's stages
(passes, `repeat`, scoped `save` and `get`, `use` of other effects, cached states)
are flattened into a list of passes. `Pictures` is the executor's run of a plan: a
texture is a free term over the passes that made it, so that two plans mean the same
only if they draw the same, and a size is a term over the padded box. `Interpreter`
plays the stages directly, with no feeds and no step lists; of places it keeps only
the list of all that was drawn. `Flattening` is the compiler, classes and loops as
in the source, and `MadeSoFar` says what each stage adds; the main theorem is that
the two agree. `Unrolling` says what each step of a plan must be, from the stages
alone, with no part of the compiler, and `Limits` what an effect is refused for.
`Handing` reads from the stages whether a run of the plan hands on what they mean.
`Sizes`, `Chaining`, `Slots`, `Memos` and `Keys` are the passes over finished plans:
integer sizes with ceilings, composition, render target allocation, the split into a
shared prefix and a per-part suffix, and chained content keys. `Cutting` says where
that prefix ends, and `Bits` what one byte does to a hash. `Nesting` and `Fractions`
are the arithmetic of rounding up twice, `MemoSizes` what it makes of a split plan's
sizes, and `TextBytes` the UTF-8 that keys are hashed from.

**The scrolling strip** (`crates/layout/src/scroller.rs`). `Strips` is where columns
lie and where the view goes, `Filling` how they fill it, `Columns` what each
operation makes of them, and `Scrolling` the class.

**The near miss** (`crates/effects/src/spec.rs`). `Nearest` is the edit distance
behind a suggestion, one row overwritten in place.

## Where the code and its promises part

- `flatten` drops the feed that `bound` returns (`crates/effects/src/stage.rs:989`)
  and a run hands on its last step. An effect that ends in `get` may hand on
  something else than its stages mean (`Flattening.GetIsLost`). The meaning theorem
  is about the dropped feed, and `Handing.HandsOnItsResult` is exactly when the two
  are one.
- `room` says that no tile on either side of a seam is made smaller than the
  minimum. It measures the sides with their seams where they are, and a layout may
  then rebalance inside a side for a window's floor: `Squeezed.SqueezedByAFloor` is a
  drag that squeezes a tile so. A side is spared when, at every split along the
  seam's axis, a box of just the length that split needs leaves both its children
  what they need (`Squeeze.Spared`, read from the tree before the drag); then no drag
  squeezes it by more than a SLACK for each such split that a floor may move
  (`Squeeze.DragNeverSqueezes`). Where no child pulls it is always so and nothing is
  lost; for a split of such subtrees it is exactly when (`Squeeze.SparesExactly`). For
  any tree at all the two ends of the room tell (`Squeeze.EndsTell`).
- `within` says that a seam's room always includes its ratio
  (`crates/layout/src/tree.rs:1190-1192`). A seam that floors have driven past 95%
  or under 5% has none (`Seams.NoRoomPastTheCut`), and then a drag or a keypress
  leaves it; `Seams.RoomExactly` is exactly when it has.
- `Scroller::consume` does not hold the donor column's own focus in range
  (`crates/layout/src/scroller.rs:368-383`). `Columns.ConsumeKeepsRows` is exactly
  when it stays there, and `Columns.ConsumedThenOutOfBounds` a strip where it does
  not and the next `move_vertically` indexes past the column.
- `Scroller::remove` keeps the index of the active column and not the window:
  `Columns.RemoveKeepsFocus` is exactly when closing another window leaves the
  focus where it was, and `Columns.RemovedMovesFocus` a strip where it does not.
- `cut` holds every ratio to 5..95%, so floors that fit a box may still not be met
  (`FloorsMet.FloorPastTheCut`); `FloorsMet.ServesAllExactly` is exactly when every
  subtree has what its floors add up to.
- A suffix sized from the box by its shares need not have the whole plan's sizes
  (`MemoSizes.RoundingDiffers`). It has, on every box, exactly where its steps that
  take their size from a prefix step meet the whole plan's (`MemoSizes.SplitSizesMeet`).
  Where the chains of scales down to those prefix steps nest, that is, for fractions
  coarse enough to show, exactly where each scale put on one divides by a whole number or
  there was nothing to round
  (`MemoSizes.SplitSizesExactly`, `Nesting.NestsExactly`); a chain with an inner scale
  that does not nest may still agree (`MemoSizes.InnerMissMeets`).
- A chained key hashes the first input's bare name, and a later key a text that
  begins with a number. Collisions of the hash aside, one key is one head at steps of
  one number always, and at steps of different numbers when the first inputs do not
  begin with a digit (`Keys.OneKeyMeansOneHead`); in a plan that flattens none does
  (`Flattening.FirstInputIsNamed`). Other names may run together
  (`Keys.DigitsRunTogether`).

## Model

| member | source | states |
|---|---|---|
| `Geometry.DrawnLength` | crates/layout/src/tree.rs:1163-1222 | the half `cut` draws for the ratio `shared` chooses is the moved seam, held to 5..95% of the span |
| `Dwindle.CutTiles` | crates/layout/src/tree.rs:1202-1222 | where a cut has room for both halves, they and the gap between them are the whole of the box along it, and all of it across |
| `Dwindle.CutsExactly` | crates/layout/src/tree.rs:1202-1222 | at every split of a layout the two extents and the gap are the whole extent, if and only if every cut leaves its second half a pixel |
| `Dwindle.LayoutTiles` | crates/layout/src/tree.rs:958-981 | where the cuts add up, under any floors: each window once and in tree order, every tile inside the box, any two at least the gap apart |
| `Geometry.ApartShareNothing` | crates/layout/src/tree.rs:958-981 | being apart: no point of the one tile is nearer than the gap to the other on both axes |
| `Dwindle.LayoutCovers` | crates/layout/src/tree.rs:958-981 | where the cuts add up, every point of the box is in a tile or in the band of some split, so with no gap the tiles partition the box |
| `Margins.InsideMargin` | crates/layout/src/tree.rs:958-961 | every tile is at least a gap inside the area on each side |
| `Margins.ReachesMargin` | crates/layout/src/tree.rs:958-961 | and on each of the four sides some tile is no further in than that |
| `FloorsMet.HalvesServe` | crates/layout/src/tree.rs:289-308 | one split of any box that serves it: both halves are what their subtrees pull towards exactly where the 5..95% limit and the one-pixel minimum spare them |
| `FloorsMet.ServesAllExactly` | crates/layout/src/tree.rs:250-308 | at every depth each subtree has what it pulls towards, within one SLACK that does not accumulate, if and only if the whole tree has and no cut holds a child under its floors |
| `FloorsMet.FloorsAreMet` | crates/layout/src/tree.rs:958-981 | where the area less its margin is what the floors add up to on each axis and every cut spares its children, no window is cramped |
| `FloorsMet.FloorPastTheCut` | crates/layout/src/tree.rs:1202-1222 | a concrete tree whose floors fit the area and whose first window is cramped all the same, because `cut` stops at 95% |
| `Seams.DrawnInRoom` | crates/layout/src/tree.rs:752-782 | a seam put anywhere in its room is drawn exactly there: the floors that narrowed the room do not move it again |
| `Wide.RoomIs` | crates/layout/src/tree.rs:722-782 | and the room is no narrower than that asks: a place in 5..95% is in it if and only if each side is there as long as it is drawn now, or as long as the minimum and the floors ask of it |
| `Wide.RoomHasReasons` | crates/layout/src/tree.rs:722-782 | so a place outside it, cut there, leaves a side with a tile under the minimum, or shorter than it pulls towards (where nothing below the seam is rebalanced) |
| `Seams.RoomExactly` | crates/layout/src/tree.rs:752-782 | a seam has any room at all if and only if it is drawn within 5..95% |
| `Seams.NoRoomPastTheCut` | crates/layout/src/tree.rs:1188-1200 | a concrete seam, drawn at 98% for two floors that fit, whose room is empty though its ratio is a number |
| `Seams.SeamIsAbove` | crates/layout/src/tree.rs:838-853 | the seam found beside an edge is a branch above the leaf, cut on the edge's axis |
| `Seams.SeamInside` | crates/layout/src/tree.rs:838-853 | and it is the nearest: below it none runs along that edge |
| `Wide.SeamIsNearest` | crates/layout/src/tree.rs:838-853 | in the tree's own terms: the seam of a left edge is the lowest vertical split with the leaf in its second child, and so for each edge; with none found there is no such split |
| `Seams.EdgeReached` | crates/layout/src/tree.rs:661-720 | a seam at a ratio in its room puts the grabbed window's own edge where the ratio says, a pixel in at least, however many levels up it is and whatever is rebalanced elsewhere |
| `Seams.DragLands` | crates/layout/src/tree.rs:626-720 | after a drag the grabbed window's edge in the layout is the place asked for, held to the two ends of the seam's room; a seam drawn past 5..95% leaves the tree as it was |
| `Wide.DragLandsPlainly` | crates/layout/src/tree.rs:626-720 | with no minimum and no floors along it, the dragged left, right, top or bottom edge is at the coordinate asked for, held to 5..95% of what its seam divides |
| `Seams.DragIsIdempotent` | crates/layout/src/tree.rs:626-720 | any drag handled twice is the same tree as once |
| `Seams.PressLands` | crates/layout/src/tree.rs:910-951 | a keyboard resize moves the seam from where it was drawn by as much as asked, within its room, however the floors held it; a seam drawn past 5..95% stays |
| `Pressing.PressedSeamIs` | crates/layout/src/tree.rs:910-930 | a press moves the nearest seam after the window as it was asked to, with none the nearest before it the other way, and nothing where there is neither |
| `Pressing.PressGrows` | crates/layout/src/tree.rs:910-951 | a press to grow never makes the pressed window's own tile shorter, but for the SLACK of each rebalanced split below the seam, and makes it longer where nothing there pulls and the room goes on |
| `Pressing.TilesStretch` | crates/layout/src/tree.rs:958-981 | where nothing pulls, every tile of more than a pixel is longer in a longer box |
| `Squeeze.FloorSuffices` | crates/layout/src/tree.rs:796-817 | `floor` is enough: in a box that long every tile of the subtree is at least the minimum, wherever rebalancing leaves each child of a split what `floor` asks of it |
| `Squeeze.FloorIsLeast` | crates/layout/src/tree.rs:796-817 | and it is no more than enough: in a shorter box, with the seams where they are, some tile is under the minimum |
| `Squeeze.SparesExactly` | crates/layout/src/tree.rs:796-817 | a split of subtrees in which nothing pulls: no box as long as it needs has a tile under the minimum, if and only if the box of just that length leaves both children what they need |
| `Squeeze.TilesGrow` | crates/layout/src/tree.rs:958-981 | whatever the floors, no tile gets shorter when the box gets longer, but for one SLACK for each split above it that may be rebalanced, and none changes across it |
| `Squeeze.TollIsTaken` | crates/layout/src/tree.rs:1163-1186 | that SLACK is really lost: a child pulled up to 100 is left with 100 less one SLACK in a longer room |
| `Squeeze.HoldsSpare` | crates/layout/src/tree.rs:1163-1186 | a split is spared where each child whose sibling pulls needs no more than it holds |
| `Squeeze.LeavesSpared` | crates/layout/src/tree.rs:1163-1186 | so two windows side by side are spared the minimum, whatever their floors |
| `Squeeze.NeverSqueezed` | crates/layout/src/tree.rs:722-782 | a seam moved anywhere in its room, with both sides spared, leaves every tile at least the smaller of what it was and the minimum, but for the SLACK a longer box may cost; and nothing outside the seam's box moves |
| `Squeeze.DragNeverSqueezes` | crates/layout/src/tree.rs:626-720 | the same after any drag of a seam whose two sides, in the tree before it, are spared |
| `Squeeze.PressNeverSqueezes` | crates/layout/src/tree.rs:910-951 | the same after any keyboard resize |
| `Squeeze.NoFloorsSpare` | crates/layout/src/tree.rs:722-747 | with no window floors both sides of every seam are spared and nothing is lost |
| `Squeeze.EndsTell` | crates/layout/src/tree.rs:752-782 | for any tree and any floors: a seam put between two places in its room squeezes no tile more than at one of the two, but for the SLACK a longer box may cost |
| `Squeezed.SqueezedByAFloor` | crates/layout/src/tree.rs:722-782 | a concrete drag to the end of the room, of a side that is not spared, that takes a tile from 200 to 80 under a minimum of 100, because a window beside it has a floor |
| `Growing.MovedGrows` | crates/layout/src/tree.rs:1163-1186 | raising what one side asks never moves the seam against it by more than the room lost and one SLACK |
| `Growing.MovedCosts` | crates/layout/src/tree.rs:1163-1186 | for every loss both are really lost, where the other side was short by exactly one SLACK |
| `Inserting.BoxGrows` | crates/layout/src/tree.rs:856-883 | raising what a subtree asks never shrinks its own box, however deep it is, but for the tolerance of each rebalanced level above it |
| `Inserting.BranchFits` | crates/layout/src/tree.rs:1084-1114 | halves that were measured with room still have it in any box no smaller |
| `Inserting.AcceptedFits` | crates/layout/src/tree.rs:391-459 | a split that `room_in` accepted fits in the new layout, ancestors rebalanced: both windows hold the minimum and their own floors, to within SLACK and one more a level |
| `Inserting.CostIs` | crates/layout/src/tree.rs:391-459 | what that comes to: SLACK for each level, and nothing in a tree nobody handed floors |
| `Refusing.RoomTells` | crates/layout/src/tree.rs:1084-1114 | a tile has no room if and only if, hung across either axis in it, some half is short of its window's floor or of the minimum; it is cut across its longer side unless one would be short that way |
| `Refusing.HungTiles` | crates/layout/src/tree.rs:509-537 | with no floors the two windows then share the tile that was split: side by side or one above the other, the first with the split's share, the new one second unless the pointer is in the first half |
| `Refusing.BoxStays` | crates/layout/src/tree.rs:509-537 | and no box above them has moved |
| `Targets.TargetRule` | crates/layout/src/tree.rs:468-493 | the tile split is that of the window named, if it is another and there; else the first tile the pointer is in; else the one whose centre is nearest the pointer, or the first tile's corner, the earlier of two |
| `Targets.UnderIsFirst` | crates/layout/src/tree.rs:1001-1012 | a tile's left and top edges are its own and its right and bottom are not |
| `Choosing.TargetIsLeaf` | crates/layout/src/tree.rs:468-493 | the window to split is always a leaf of the tree |
| `Choosing.NearestTile` | crates/layout/src/tree.rs:1014-1031 | the tile whose centre is nearest the point, the first of several as near |
| `Choosing.TileIsBox` | crates/layout/src/tree.rs:498-502 | the tile listed for a window is the box of its leaf |
| `Choosing.ByArea` | crates/layout/src/tree.rs:447-450 | the tiles once each, the larger first and the earlier of two as large |
| `Choosing.AddThenRemove` | crates/layout/src/tree.rs:509-577 | inserting an absent window and removing it gives back the same abstract tree |
| `Choosing.TradeTwice` | crates/layout/src/tree.rs:546-553 | a swap is its own inverse |
| `Choosing.TradeKeepsTiles` | crates/layout/src/tree.rs:546-553 | with no floors a swap leaves every tile where it was, with the two windows in each other's |
| `Arena.LeafIsFound` | crates/layout/src/tree.rs:988-992 | scanning the arena for a window finds its one leaf |
| `Arena.ParentIsFound` | crates/layout/src/tree.rs:1033-1037 | scanning the arena for a parent finds the one branch a node hangs from |
| `Arena.SeamStep` | crates/layout/src/tree.rs:838-853 | one step of the walk up from a leaf keeps the seam that will be found |
| `Arena.NeedAt` | crates/layout/src/tree.rs:250-281 | what a slot asks, read from the arena, is what the tree it encodes asks |
| `Arena.PlaceAt` | crates/layout/src/tree.rs:966-981 | the tiles read from the arena are the abstract tree's layout |
| `Arena.FindBox` | crates/layout/src/tree.rs:856-883 | the box read from the arena is the node's box in that layout |
| `Arena.RoomAt` | crates/layout/src/tree.rs:752-782 | the room read from the arena is the tree's |
| `Arena.SplittingEncodes` | crates/layout/src/tree.rs:509-538 | pushing two cells and rewriting one link encodes the tree with the window hung beside the leaf |
| `Arena.TradingEncodes` | crates/layout/src/tree.rs:546-553 | writing two ids into each other's cells encodes the tree with the two windows traded |
| `Arena.RemovingEncodes` | crates/layout/src/tree.rs:557-577 | emptying two cells and rewriting one link encodes the tree with the sibling in the parent's place |
| `Tilings.Tiling.constructor` | crates/layout/src/tree.rs:198-200 | an empty arena encodes no tree |
| `Tilings.Tiling.SetFloors` | crates/layout/src/tree.rs:209-211 | the floors replaced whole, the tree as it was |
| `Tilings.Tiling.ContainsIs` | crates/layout/src/tree.rs:316-318 | scanning the arena for a window tells whether the tree has it |
| `Tilings.Tiling.Boxes` | crates/layout/src/tree.rs:958-964 | the tiles read from the arena are the layout the theorems are about |
| `Tilings.Tiling.Push` | crates/layout/src/tree.rs:983-986 | one live cell more, and its slot |
| `Tilings.Tiling.Attach` | crates/layout/src/tree.rs:1050-1064 | the root, or the one link to what hung there, rewritten, and nothing else |
| `Tilings.Tiling.TargetAndBox` | crates/layout/src/tree.rs:468-502 | the leaf to split and the box it has in the layout |
| `Tilings.Tiling.SplitTile` | crates/layout/src/tree.rs:509-538 | the arena stays one tree, with the new window beside the target |
| `Tilings.Tiling.Insert` | crates/layout/src/tree.rs:352-371 | a window already there changes nothing; else it is hung beside its target across that tile's longer side, and removing it would restore the tree |
| `Tilings.Tiling.InsertFitting` | crates/layout/src/tree.rs:391-414 | false, changing nothing, exactly where hanging the window across either axis of the target's own tile leaves some half short of its window's floor or the minimum; else it is hung there, across the longer side unless one would be short that way, and both windows fit, to the tolerance of `Inserting.AcceptedFits` |
| `Tilings.Tiling.LargestTile` | crates/layout/src/tree.rs:447-458 | the tile of most width times height that a window may be hung in, one way or the other, with no half short; the earlier of two as large; none only when every tile is short both ways |
| `Tilings.Tiling.InsertLargest` | crates/layout/src/tree.rs:439-459 | true for an empty tree and for a window already there; else the window goes into the largest tile with room, as `InsertFitting` hangs it, and both fit, to the same tolerance; false, changing nothing, means that every tile is left with a short half both ways |
| `Tilings.Tiling.Swap` | crates/layout/src/tree.rs:546-553 | true exactly when both windows are there, and then the tree has the two traded |
| `Tilings.Tiling.Remove` | crates/layout/src/tree.rs:557-577 | the arena stays one tree: the one without the window, its sibling in its parent's place |
| `Tilings.Tiling.SeamOf` | crates/layout/src/tree.rs:838-853 | the walk up from a leaf finds the nearest seam along that edge, and none only when there is none |
| `Tilings.Tiling.SetSeam` | crates/layout/src/tree.rs:714-720 | one ratio written, the tree the same but for that seam |
| `Tilings.Tiling.SeamToPress` | crates/layout/src/tree.rs:910-930 | the trailing seam, else the leading one the other way round |
| `Tilings.Tiling.DragSeam` | crates/layout/src/tree.rs:626-720 | the new tree is the dragged one, of which the seam theorems speak; a window that is not there changes nothing |
| `Tilings.Tiling.Resize` | crates/layout/src/tree.rs:910-951 | the new tree is the pressed one; a window that is not there changes nothing |
| `Tilings.Tiling.Replay` | crates/layout/src/tree.rs:352-577 | over any run of operations the live cells are exactly the nodes of one tree, and its windows are those added and not removed |
| `Interpreter.FewerLeft` | crates/effects/src/stage.rs:736-753 | the measure that ends every flatten, cyclic `use`s included: the effects not on the stack |
| `MadeSoFar.FeedMeans` | crates/effects/src/stage.rs:601-632 | a name looked up as a feed stands for what the interpreter reads under that name, or fails as it does |
| `MadeSoFar.PassRefused` | crates/effects/src/stage.rs:819-866 | a pass is refused as the interpreter refuses it, in the same order of causes |
| `MadeSoFar.PassFollows` | crates/effects/src/stage.rs:811-893 | a pass whose names are all found is drawn as the interpreter draws it: first input, textures, uniforms, format, size and levels |
| `MadeSoFar.StateFollows` | crates/effects/src/stage.rs:932-957 | a state walked apart, seeing inputs and earlier states only, means what the interpreter's does |
| `MadeSoFar.EffectEnds` | crates/effects/src/stage.rs:757-798 | a used effect leaves its user's names and levels as they were |
| `Flattening.Flattener.BindUses` | crates/effects/src/stage.rs:846-866 | the textures of a pass bound in order, `shape` left out, each input read marked |
| `Flattening.Flattener.PassStage` | crates/effects/src/stage.rs:811-893 | one pass flattened agrees with one pass interpreted, errors and their order included |
| `Flattening.Flattener.WalkStages` | crates/effects/src/stage.rs:800-961 | a list of stages flattened agrees with the list interpreted |
| `Flattening.Flattener.WalkOne` | crates/effects/src/stage.rs:809-959 | one stage of any kind flattened agrees with that stage interpreted |
| `Flattening.Flattener.WalkRepeat` | crates/effects/src/stage.rs:914-918 | a repeated body agrees, with its value as the extra param |
| `Flattening.Flattener.StateSteps` | crates/effects/src/stage.rs:938-942 | a state's own steps, walked into a list and a scope of their own |
| `Flattening.Flattener.KeepState` | crates/effects/src/stage.rs:943-953 | the state kept with what it is, and saved under its name |
| `Flattening.Flattener.StateStage` | crates/effects/src/stage.rs:924-957 | a state agrees: its own steps, kept with its name, format, scale and dependence |
| `Flattening.Flattener.UseEffect` | crates/effects/src/stage.rs:736-753 | a used effect agrees, and a cycle is refused |
| `Flattening.Flattener.BoundEffect` | crates/effects/src/stage.rs:757-798 | an effect already bound agrees, in a scope of its own |
| `Flattening.Flatten` | crates/effects/src/stage.rs:970-996 | fails exactly where and as the interpreter fails; else the feed of the last result means what the stages mean, the plan is well formed (steps read earlier steps, states only their own and earlier states), at most 256 passes of at most 8 textures, and its marks are exactly the inputs some step still reads |
| `Unrolling.PlanSays` | crates/effects/src/stage.rs:862-893 | each step of the plan and of its states, in order, says what the pass it is from says, with the stages unrolled: effect, file, format, whether it is each part's own, the names of its textures, every name a `save`, `state` or input makes known, and each param with its kind, then the value of each repeat around it, outermost first |
| `Unrolling.RepeatCounts` | crates/effects/src/stage.rs:914-918 | a `repeat` of one pass over some values is one step for each, in order, its uniforms the effect's own followed by the repeat's name with that value |
| `Unrolling.PlayUnrolls` | crates/effects/src/stage.rs:800-961 | the passes the interpreter draws are the stages unrolled |
| `Limits.IdentifierIs` | crates/effects/src/spec.rs:135-141 | a name is lower-case letters, digits and `_`, with no digit first, by their numbers |
| `Limits.KnownRefused` | crates/effects/src/stage.rs:671-702 | the known names are refused exactly where one is no name, or the prelude's own, or another's with `_sampler`, `_box` or `_clamp` |
| `Limits.NamesRefused` | crates/effects/src/stage.rs:757-785 | so an effect is refused for any such name that it saves, makes a state or has for an input |
| `Limits.RepeatNamed` | crates/effects/src/stage.rs:896-913 | a `repeat` is refused its name exactly where it is no name, or a param of its effect's other than a word, or a `repeat` around it, has it |
| `Limits.RepeatsAllowed` | crates/effects/src/stage.rs:819-823 | a `repeat` of one pass is refused exactly where it is more than 256 passes |
| `Limits.TexturesAllowed` | crates/effects/src/stage.rs:860-866 | a pass whose names are all found is refused exactly where it uses more than seven textures beside the one it starts from |
| `Handing.HandsOnItsResult` | crates/effects/src/stage.rs:989-995 | the feed of the last result is the one a run hands on, if and only if a reading of the stages says that they end on the last thing drawn; and then a run hands on just what the stages mean |
| `Handing.GetsTell` | crates/effects/src/stage.rs:925-928 | getting back what was just drawn, or the input before anything was, ends on it; getting back what was drawn over does not |
| `Flattening.GetIsLost` | crates/effects/src/stage.rs:989-995 | the feed of the last result is dropped: a concrete effect ending in `get` whose plan hands on something else |
| `Flattening.OutcomeIsLastDrawn` | crates/effects/src/stage.rs:1042-1044 | what a plan hands to the next in a chain is the last picture drawn, or the first input when there are no steps |
| `Flattening.FirstInputIsNamed` | crates/effects/src/stage.rs:679-683 | the first input of a plan that flattens is named by a lower-case letter or `_` first |
| `Sizes.StepSizes` | crates/effects/src/stage.rs:196-211 | the pixel size of every step is its extent in the plan's run |
| `Sizes.PlanSizes` | crates/effects/src/stage.rs:186-221 | the same for the main steps and each state's, from its scaled box |
| `Sizes.ComesBack` | crates/effects/src/stage.rs:829-845 | every bracketed run of stages ends at exactly the pixels and levels it began at, for every box; while a down pass is open anything may be read, got back and used |
| `Chaining.ShiftSteps` | crates/effects/src/stage.rs:999-1019 | a list of steps moved past others, feed by feed, the inputs they still read marked |
| `Chaining.Link` | crates/effects/src/stage.rs:1040-1066 | one more link: its feeds and states moved, its first input read from the link before |
| `Chaining.LinkOk` | crates/effects/src/stage.rs:1040-1066 | a chain of well-formed plans is well formed |
| `Chaining.LinkComposes` | crates/effects/src/stage.rs:1040-1066 | one link's first input reads what the chain before it hands on; states are made from the part's own inputs; nothing earlier changes |
| `Chaining.LinkMarks` | crates/effects/src/stage.rs:1014-1019 | the marks stay exactly the inputs some step still reads |
| `Chaining.Chain` | crates/effects/src/stage.rs:1027-1069 | running a chain is composing its links, in every scene, the empty chain included |
| `Slots.LastReaders` | crates/effects/src/stage.rs:243-255 | for each step exactly the last one that reads it |
| `Slots.Assign` | crates/effects/src/stage.rs:266-297 | two steps share a slot only at one size and format and once nothing reads the first, and no assignment that keeps to that uses fewer slots |
| `Slots.KeepsIs` | crates/effects/src/stage.rs:266-297 | what keeping to that is, with a size for each step: steps in one slot have one size and one format, and no step from the later on reads the earlier |
| `Slots.NoneFewer` | crates/effects/src/stage.rs:266-297 | steps whose results are wanted at once need as many slots in any assignment |
| `Slots.WantedIsIntact` | crates/effects/src/stage.rs:266-297 | at every step of a run in shared slots, every result still wanted is in its slot |
| `Slots.ReuseIsUnseen` | crates/effects/src/stage.rs:266-297 | a run in shared slots draws the same pictures as one with a target a step, and never draws into what it reads |
| `Memos.NamesDiffer` | crates/effects/src/stage.rs:399-401 | no two prefix results have one name, and none is the backdrop |
| `Memos.ExportOne` | crates/effects/src/stage.rs:406-415 | a result is exported once, under its name, at its share |
| `Memos.Renumber` | crates/effects/src/stage.rs:421-427 | a feed of the suffix: an export by name, a later step moved down, exporting just what it reads |
| `Memos.SuffixStep` | crates/effects/src/stage.rs:503-523 | one step of the suffix: every feed renumbered, its size taken by share from the box |
| `Memos.LongestPrefix` | crates/effects/src/stage.rs:451-480 | how long the prefix is: the longest the policy allows |
| `Memos.SuffixFor` | crates/effects/src/stage.rs:503-527 | the suffix, step by step, and exactly the prefix results it reads |
| `Memos.SplitMemo` | crates/effects/src/stage.rs:442-550 | the prefix is the longest the policy allows, and the exports are exactly the prefix results the suffix reads, or the last when it is empty |
| `Cutting.CutBackOverThese` | crates/effects/src/stage.rs:471-480 | under the default policy a prefix is cut back over just those of its steps sized from their first feed, at a scale of one or like it, and ends on none |
| `Cutting.CutBackIsAsBig` | crates/effects/src/stage.rs:356-361 | and on every box each of them is drawn at just the pixels of its first feed, for any scale a 64-bit float can hold |
| `Cutting.EndsForAReason` | crates/effects/src/stage.rs:451-469 | the longest prefix ends only at a step that is a part's own, or that draws something else over the same backdrop with other inputs or states |
| `Memos.PrefixReadsBackdrop` | crates/effects/src/stage.rs:451-469 | the prefix draws the same wherever the backdrop is the same |
| `Memos.BoundLooks` | crates/effects/src/stage.rs:406-427 | under each export's name the suffix reads the result it exports, and every other input as it was |
| `Memos.SplitMeansTheSame` | crates/effects/src/stage.rs:442-550 | prefix run anywhere with that backdrop, exports bound, suffix run: every step of the whole plan is drawn, picture for picture |
| `MemoSizes.ChainAtShare` | crates/effects/src/stage.rs:484-500 | a prefix step is as big as the box at its share, where each scale its size comes down through divides by a whole number or is put on an input |
| `MemoSizes.SharesAreSizes` | crates/effects/src/stage.rs:484-500 | so is each prefix step, where all of them do |
| `MemoSizes.SharesAreSizesExactly` | crates/effects/src/stage.rs:484-500 | and on every box it is so only there |
| `Nesting.NestedSides` | crates/effects/src/stage.rs:187-195 | rounding up at any share and then over a whole division is rounding up once over the product |
| `Nesting.RoundedTwice` | crates/effects/src/stage.rs:187-195 | a scale that divides by no whole number on a share of less than one, both fractions: a side no longer than their lower parts multiplied comes out larger rounded up twice |
| `Nesting.TooFineToShow` | crates/effects/src/stage.rs:187-195 | why the parts are bounded: a scale that does not nest and whose miss shows on no side of fewer than 32 bits |
| `Fractions.MissedSomewhere` | crates/effects/src/stage.rs:187-195 | the whole numbers behind such a side, for any share and scale in lowest terms |
| `Nesting.NestsExactly` | crates/effects/src/stage.rs:187-195 | rounding twice is rounding once on every side if and only if the scale divides by a whole number or the share is the whole |
| `MemoSizes.SplitSizesMeet` | crates/effects/src/stage.rs:478-523 | for any plan: on every box every suffix step is drawn at the pixels the whole plan would draw it at, if and only if those that take their size from a prefix step are |
| `MemoSizes.SplitSizesTheSame` | crates/effects/src/stage.rs:478-523 | and they all are where the scales down to those prefix steps, and the scales put on them, nest |
| `MemoSizes.SplitSizesExactly` | crates/effects/src/stage.rs:478-523 | where the prefix steps that size a suffix step have chains that nest, the sizes are the same on every box if and only if every scale put on one of them nests |
| `MemoSizes.RoundingDiffers` | crates/effects/src/stage.rs:478-523 | a plan where they differ: its second step is 3 by 3 in the whole plan and 2 by 2 in the suffix that `split_memo` makes |
| `MemoSizes.InnerMissMeets` | crates/effects/src/stage.rs:478-523 | a plan where a chain does not nest and the sizes are the same on every box all the same |
| `Keys.ContentHash` | crates/effects/src/glsl.rs:655-663 | the hash of the parts run together, each with its mark after it, one byte at a time |
| `Keys.PartsTell` | crates/effects/src/glsl.rs:655-663 | changing one byte of one part always changes the hash |
| `Keys.ByteTells` | crates/effects/src/glsl.rs:655-663 | texts of one length that differ in a single byte, wherever it is, never hash alike |
| `Keys.EndsTell` | crates/effects/src/glsl.rs:655-663 | bytes put after two texts leave their hashes alike or unlike as they were |
| `Keys.KnownHashes` | crates/effects/src/glsl.rs:655-663 | the hash of no parts and of the one part `a`, as numbers |
| `Bits.ProductTells` | crates/effects/src/glsl.rs:655-663 | the product with the odd prime, wrapping at 64 bits, is one to one |
| `Bits.XorTells` | crates/effects/src/glsl.rs:655-663 | and so is the exclusive or with a byte |
| `TextBytes.Utf8IsOneToOne` | crates/effects/src/glsl.rs:655-663 | no two texts are the same bytes |
| `Keys.FramingIsOneToOne` | crates/effects/src/glsl.rs:652-654 | parts free of the mark never run together |
| `Keys.MarkedPartsRunTogether` | crates/effects/src/glsl.rs:652-654 | parts that hold the mark may |
| `Decimals.NumberThenText` | crates/effects/src/stage.rs:309-311 | a key printed before the rest of a text is read back uniquely |
| `Keys.ChainedKeys` | crates/effects/src/stage.rs:304-324 | each step's key is the key of the first input and the steps up to it |
| `Keys.PlanKey` | crates/effects/src/stage.rs:329-334 | the last of them, or the first input's when there is no step |
| `Keys.UpToKeepsKey` | crates/effects/src/stage.rs:338-350 | the plan up to a step has that step's key and hands on that step's result |
| `Keys.AgreeingHeadsShareKeys` | crates/effects/src/stage.rs:299-303 | heads that agree have one key |
| `Keys.OneKeyMeansOneHead` | crates/effects/src/stage.rs:299-303 | one key is one first input and agreeing steps, or else the hash gave one value to two different texts of these two plans, which are named |
| `Keys.DigitsRunTogether` | crates/effects/src/stage.rs:304-324 | why the first inputs must be names: one that is the very text hashed for some steps has their key |
| `Keys.OneProgram` | crates/effects/src/glsl.rs:74-91 | one program key is one list of program strings, or the hash gave one value to two |
| `Keys.AgreeingHeadsDrawAlike` | crates/effects/src/stage.rs:299-303 | agreeing heads draw alike over states that look alike: the same programs over the same inputs, from whichever effects and files they come |
| `Keys.OneKeyDrawsOneImage` | crates/effects/src/stage.rs:299-303 | so two steps with one key, over states that look alike, draw one image of one size, or else the hash gave one value to two texts or two programs of these plans, which are named |
| `Nearest.Distance` | crates/effects/src/spec.rs:313-328 | the one row overwritten in place ends at the edit distance |
| `Nearest.EnoughEdits` | crates/effects/src/spec.rs:313-328 | that many insertions, deletions and replacements turn one word into the other |
| `Nearest.NoFewerEdits` | crates/effects/src/spec.rs:313-328 | and no fewer do |
| `Nearest.Triangle` | crates/effects/src/spec.rs:313-328 | distances are no longer by way of another word |
| `Nearest.Nearest` | crates/effects/src/spec.rs:329-335 | the least pair of distance and word within two edits, and none only when there is none |
| `Strips.FitSettles` | crates/layout/src/scroller.rs:579-609 | `fit` is the one place where a fitting column shows with its padding and the view has moved least, and the left edge of one as wide as the view |
| `Strips.TilesApart` | crates/layout/src/scroller.rs:516-541 | no two windows are drawn nearer than the gap |
| `Strips.EachWindowOnce` | crates/layout/src/scroller.rs:516-541 | each window of the strip is drawn once |
| `Filling.RowsFill` | crates/layout/src/scroller.rs:528-541 | the rows of a column are as high as each other, a gap apart, from the top of the view to its bottom, where each has a pixel |
| `Filling.ColumnsMeet` | crates/layout/src/scroller.rs:543-553 | each column is drawn a gap right of the one before, the first where the view's origin puts it |
| `Filling.WidthIsLeast` | crates/layout/src/scroller.rs:212-218 | a column is just as wide as a pixel, its share of the view and the floors in it make it |
| `Filling.ShowsPlainly` | crates/layout/src/scroller.rs:579-609 | shown means a gap on both sides, or in the middle of a view without room for that |
| `Columns.RemovedHolds` | crates/layout/src/scroller.rs:248-266 | removing keeps every other window, no column empty, the active column and each column's focus in range |
| `Columns.RemoveKeepsFocus` | crates/layout/src/scroller.rs:248-266 | removing another window keeps the focus on the same one exactly where it is after the focus in its column, or its column stays, or comes after, or the focus was last |
| `Columns.RemovedMovesFocus` | crates/layout/src/scroller.rs:248-266 | a concrete strip where it moves: closing the first of three columns hands the focus of the second to the third |
| `Columns.ConsumedHolds` | crates/layout/src/scroller.rs:368-383 | pulling a window in keeps every window and focuses the one pulled |
| `Columns.ConsumeKeepsRows` | crates/layout/src/scroller.rs:368-383 | the donor's own focus stays in range if and only if the window taken was alone in its column or not its last |
| `Columns.ConsumedThenOutOfBounds` | crates/layout/src/scroller.rs:324-383 | a concrete strip where it does not: nothing there is focused, and moving a window up then indexes out of bounds |
| `Columns.NudgedHolds` | crates/layout/src/scroller.rs:324-341 | trading a window with a neighbour keeps windows and focus, and the opposite move undoes it |
| `Columns.ExpelledHolds` | crates/layout/src/scroller.rs:386-400 | pushing a window out keeps every window and the focus on it |
| `Columns.ConsumeUndoesExpel` | crates/layout/src/scroller.rs:368-400 | pulling it back restores the columns exactly when it was the last of its column |
| `Columns.MovedToHolds` | crates/layout/src/scroller.rs:407-452 | dropping a window onto another puts it right below it, focused, and keeps every window |
| `Scrolling.ShownIsInView` | crates/layout/src/scroller.rs:555-577 | a settled view draws every window of the active column wholly inside itself, or from its left edge |
| `Scrolling.WideningShows` | crates/layout/src/scroller.rs:460-484 | widening a column narrower than the view widens it on screen at once, however its floor holds it; narrowing stops at the floor |
| `Scrolling.WidenedBy` | crates/layout/src/scroller.rs:460-484 | a column drawn at a tenth of the view or more is drawn wider by just the growth's share of the view, held between the view and its floor or that tenth |
| `Scrolling.AlongIsNearest` | crates/layout/src/scroller.rs:289-317 | a focus moved by some steps is at the place nearest where they lead |
| `Scrolling.TradedHolds` | crates/layout/src/scroller.rs:346-365 | trading two columns keeps every window and is its own inverse |
| `Scrolling.Scroller.constructor` | crates/layout/src/scroller.rs:85-99 | an empty strip with the presets |
| `Scrolling.Scroller.WithWidths` | crates/layout/src/scroller.rs:123-135 | an empty list of widths falls back to the presets, and a start past the end to the last |
| `Strips.ColumnWidth` | crates/layout/src/scroller.rs:212-218 | at least a pixel, and at least the widest floor among its windows |
| `Scrolling.Scroller.SetFloors` | crates/layout/src/scroller.rs:188-190 | the floors replaced whole, the strip as it was |
| `Scrolling.Scroller.FocusColumn` | crates/layout/src/scroller.rs:561-576 | the column is active and the view settled on it from where it was |
| `Scrolling.Scroller.Insert` | crates/layout/src/scroller.rs:221-233 | a new column right of the active one, focused, the view moved least; a window already there changes nothing |
| `Scrolling.Scroller.InsertIntoActive` | crates/layout/src/scroller.rs:236-246 | the window last in the active column and focused |
| `Scrolling.Scroller.Remove` | crates/layout/src/scroller.rs:248-266 | the whole new state, of which the removal lemmas speak |
| `Scrolling.Scroller.FocusWindow` | crates/layout/src/scroller.rs:274-286 | the window is focused, its column in view, and nothing else changed |
| `Scrolling.Scroller.FocusSideways` | crates/layout/src/scroller.rs:289-302 | focus moved by so many columns, held to the ends, the view moved least |
| `Scrolling.Scroller.FocusVertically` | crates/layout/src/scroller.rs:305-317 | focus moved within the column, held to its ends and to a window of it |
| `Scrolling.Scroller.MoveVertically` | crates/layout/src/scroller.rs:324-341 | traded with the neighbour and still focused; stuck at the ends; out of bounds exactly where the column's focus is |
| `Scrolling.Scroller.MoveColumn` | crates/layout/src/scroller.rs:346-365 | the two columns traded, focus carried along and in view; false exactly where nothing moves |
| `Scrolling.Scroller.Consume` | crates/layout/src/scroller.rs:368-383 | the whole new state, of which the pulling lemmas speak |
| `Scrolling.Scroller.Expel` | crates/layout/src/scroller.rs:386-400 | the whole new state, the pushed column active and in view, the view moved least |
| `Scrolling.Scroller.MoveToColumnOf` | crates/layout/src/scroller.rs:407-452 | the window right below its target, focused and in view, or nothing changed |
| `Scrolling.Scroller.WidenColumn` | crates/layout/src/scroller.rs:460-484 | the column at its new share, active and in view |
| `Scrolling.Scroller.CycleColumn` | crates/layout/src/scroller.rs:487-495 | the next width, for the active column, which stays in view |
| `Scrolling.Scroller.ConfigureLike` | crates/layout/src/scroller.rs:506-509 | the other strip's widths and start, and the arrangement kept |
| `Scrolling.Scroller.ScrollBy` | crates/layout/src/scroller.rs:512-514 | the view moved by the distance, on every screen, and the focus kept |
| `Scrolling.Scroller.Layout` | crates/layout/src/scroller.rs:518-541 | the tiles of the strip, of which the drawing lemmas speak |
| `Scrolling.Scroller.Replay` | crates/layout/src/scroller.rs:221-514 | over every run: the active column in range, no column empty, no window twice, just the windows opened and not closed; and with no `consume`, each column's focus in range and no run stopped |

## Left out

- Floating point: lengths, ratios and scales are reals, so rounding, NaN and infinities are not modelled; `is_finite` filters pass everything.
- Error text: each refusal is a kind of error, its words are not modelled; the order in which refusals are found is.
- The resolver that binds an effect by name is a pure function over a finite set of names; sandboxes and warnings are not modelled.
- Dwindle.LayoutTiles: where every cut leaves its second half a pixel, which is exactly where the extents and the gap add up (`Dwindle.CutsExactly`); past that the one-pixel minimum makes tiles overlap by design.
- Dwindle.LayoutCovers: where the cuts add up, as `Dwindle.LayoutTiles`.
- FloorsMet.FloorsAreMet: one way only. A cut may leave a subtree short of its minimum while none of its windows is under its own floor, so being uncramped does not give back the condition; `FloorsMet.ServesAllExactly` is the two-way statement, about what subtrees pull towards.
- Seams.DragLands: where the cuts of the layout after the drag add up, as `Dwindle.LayoutTiles`; past that a window's far edge is not its subtree's.
- Seams.EdgeReached: where the cuts add up, as `Seams.DragLands`.
- Wide.DragLandsPlainly: where the cuts add up, as `Seams.DragLands`.
- Wide.RoomHasReasons: where nothing below the seam is rebalanced, and for a minimum of more than the pixel every tile has; `Wide.RoomIs` is for any floors and any minimum.
- Pressing.PressGrows: to within one SLACK for each split below the seam that may be rebalanced along the axis, as `Squeeze.TilesGrow`; a tile of one pixel may stay one.
- Refusing.HungTiles: with no floors. With some the seams above may move too, and `Inserting.AcceptedFits` says what the two windows then have.
- Filling.RowsFill: where each row has a pixel; past that the one-pixel minimum takes a column out of its view.
- Cutting.CutBackIsAsBig: for the scales a 64-bit float can hold, none of which lies between 1 and 1 and EPSILON.
- Squeeze.DragNeverSqueezes: for a seam spared on both sides, to within one SLACK for each split along the axis that may be rebalanced, which is really lost (`Squeeze.TollIsTaken`) and is nothing where no child pulls. One way for a side with pulling splits one inside another: no drag need bring an inner split to the length at which it fails its children.
- Squeeze.PressNeverSqueezes: as for a drag.
- Inserting.AcceptedFits: to within SLACK and one more SLACK for each level above the split, as an upper bound. One step of it is really taken (`Growing.MovedCosts`); a tree in which every level takes it is not given. With no floors it is the one SLACK that `holds` allows.
- Pictures.Run: a state with no pass reads as a blank texture and a plan with no steps hands on its first input, as `chain` takes it; the executor gives up a run of either (`crates/solium/src/effect/run.rs:580-690`).
- Memos.SplitMeansTheSame: for plans none of whose steps reads an input already named like a memo's, a name no effect can declare.
- MemoSizes.SplitSizesExactly: for plans whose chains down to the prefix steps that size a suffix step nest, and whose scales put on those steps tell (`Nesting.Telling`): share and scale are fractions whose lower parts multiply to fewer than 32 bits. Some such bound is needed, for a texture's side is held to 32 bits and a finer miss shows on none (`Nesting.TooFineToShow`). Which other chains agree is left to `MemoSizes.SplitSizesMeet`.
- MemoSizes.SharesAreSizesExactly: the converse is for scales that tell, as above.
- Sizes.ComesBack: for runs that, with no down pass open, read and get back only names saved at the size they began at, and use only effects that come back themselves; any other may be left at another size.
- Keys.OneKeyMeansOneHead: the debug printing of a step is a function of which is asked only that it tells apart the steps of the two plans at hand and opens with a bracket; UTF-8 and the hash are the real ones, and collisions are named and not assumed away.
- Keys.OneKeyDrawsOneImage: for plans whose states look alike, since a key covers a state's number and not how it is made; with each step's key the hash of its program's strings as the host sets it; `flatten` itself leaves it 0, and the strings' text is a function of effect, file and signature.
- The host in a pass's signature is always a pass; GPU programs, pixels, synchronisation and the pool of targets are not modelled.
- The memory of the arena only grows, as in the source; its growth is not bounded here.
- `Plan::formats`, `Tiling::windows`, `master_stack`, `grid`, `strip`, `scrolling`, `Deform`, `bind`, `EffectSpec::check`, shader text and lint, animation curves and every foreign interface: easy members beside the ones above, or code that cannot be seen.
- Machine integers: indices and counts are unbounded naturals, except the 64-bit hash and texture sides held to 32 bits; saturating `isize` steps are plain integers, which differ only past the ends they are held to.
