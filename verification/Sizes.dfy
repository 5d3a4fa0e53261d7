/** Sizes in pixels: what each step's target is, and why a run of down and up
    passes comes back to exactly the size it began at. */
module Sizes {
  import opened Basics
  import opened Effects
  import opened Pictures
  import opened Interpreter

  type Pixels = (nat, nat)

  const MOST_PIXELS: nat := 0xFFFF_FFFF

  function Ceiling(x: real): int { -((-x).Floor) }

  /** A texture side at a scale: rounded up, held to 32 bits, and at least a pixel. */
  function Side(n: nat, scale: real): (side: nat)
    ensures 1 <= side <= MOST_PIXELS
  {
    var up := Ceiling(n as real * scale);
    if up <= 1 then 1 else if up > MOST_PIXELS then MOST_PIXELS else up
  }

  function Scale(size: Pixels, scale: real): Pixels { (Side(size.0, scale), Side(size.1, scale)) }

  /** What an extent is for one padded box. */
  function InPixels(extent: Extent, box: Pixels): Pixels {
    match extent
    case Whole => box
    case Part(of, scale) => Scale(InPixels(of, box), scale)
  }

  /** A size a texture may have. */
  predicate Drawable(box: Pixels) { 1 <= box.0 <= MOST_PIXELS && 1 <= box.1 <= MOST_PIXELS }

  // ---- The sizes a plan is run at ----

  /** The size a step's size is taken from. */
  function SizeOf(feed: Feed, padded: Pixels, states: seq<Pixels>, sizes: seq<Pixels>): Pixels {
    match feed
    case FromInput(_) => padded
    case FromStep(k) => if k < |sizes| then sizes[k] else padded
    case FromState(k) => if k < |states| then states[k] else padded
  }

  ghost predicate Matches(sizes: seq<Pixels>, shots: seq<Shot>, box: Pixels) {
    |sizes| == |shots| && forall i :: 0 <= i < |sizes| ==> sizes[i] == InPixels(shots[i].extent, box)
  }

  lemma SizeOfFeed(feed: Feed, start: Extent, made: seq<Shot>, drawn: seq<Shot>, states: seq<Pixels>,
                   sizes: seq<Pixels>, box: Pixels)
    requires Matches(states, made, box) && Matches(sizes, drawn, box)
    ensures SizeOf(feed, InPixels(start, box), states, sizes)
        == InPixels(Read(feed, Own(start), made, drawn).extent, box)
  {}

  /** The sizes of one list of steps, in order. */
  method StepSizes(steps: seq<Step>, padded: Pixels, states: seq<Pixels>, ghost start: Extent, ghost made: seq<Shot>,
                   ghost box: Pixels)
    returns (sizes: seq<Pixels>)
    requires padded == InPixels(start, box) && Matches(states, made, box)
    ensures Matches(sizes, Run(steps, Own(start), made), box)
  {
    sizes := [];
    ghost var drawn := Run(steps, Own(start), made);
    for i := 0 to |steps|
      invariant |sizes| == i && Matches(sizes, drawn[..i], box)
    {
      RunAt(steps, i, Own(start), made);
      var of := SizeOf(steps[i].size.of, padded, states, sizes);
      SizeOfFeed(steps[i].size.of, start, made, drawn[..i], states, sizes, box);
      sizes := sizes + [if steps[i].size.Scaled? then Scale(of, steps[i].size.scale) else of];
    }
    assert drawn[..|steps|] == drawn;
  }

  /** Pixel sizes of a whole plan, each list worked out on its own from the same box. */
  method PlanSizes(plan: Plan, padded: Pixels) returns (sizes: seq<Pixels>, stateSizes: seq<seq<Pixels>>)
    ensures Matches(sizes, RunPlan(plan, Own(Whole)), padded)
    ensures |stateSizes| == |plan.states|
    ensures forall j :: 0 <= j < |plan.states| ==>
              Matches(stateSizes[j],
                      Run(plan.states[j].steps, Own(Part(Whole, plan.states[j].scale)), Make(plan.states)[..j]), padded)
  {
    stateSizes := [];
    var last: seq<Pixels> := [];
    ghost var made := Make(plan.states);
    for j := 0 to |plan.states|
      invariant |stateSizes| == j && |last| == j && Matches(last, made[..j], padded)
      invariant forall k :: 0 <= k < j ==>
                  Matches(stateSizes[k], Run(plan.states[k].steps, Own(Part(Whole, plan.states[k].scale)), made[..k]),
                          padded)
    {
      var state := plan.states[j];
      MakeAt(plan.states, j);
      var start := Scale(padded, state.scale);
      var of := StepSizes(state.steps, start, last, Part(Whole, state.scale), made[..j], padded);
      last := last + [if of == [] then start else of[|of| - 1]];
      stateSizes := stateSizes + [of];
    }
    assert made[..|plan.states|] == made;
    sizes := StepSizes(plan.steps, padded, last, Whole, made, padded);
  }

  lemma MakeAt(states: seq<StatePlan>, j: nat)
    requires j < |states|
    ensures Make(states)[j] == MakeState(states[j], Make(states)[..j])
  {
    hide MakeState;
    MakePrefix(states, j + 1);
    MakePrefix(states, j);
    assert states[..j + 1][..j] == states[..j];
  }

  // ---- A bracketed run comes back to its size ----

  lemma InRange(extent: Extent, box: Pixels)
    requires Drawable(box)
    ensures Drawable(InPixels(extent, box))
  {}

  lemma NeutralSide(n: nat)
    requires 1 <= n <= MOST_PIXELS
    ensures Side(n, 1.0) == n
  {
    var m: int := n;
    assert (-(m as real)).Floor == -m;
  }

  /** How many down passes are open, and the names saved at the size a run began at. */
  datatype Level = Level(open: nat, base: set<string>)

  /** What is open after some stages, if the run is then sure to be at its size once
      nothing is: with nothing open no up pass comes, and nothing is read, got back
      or used that may be of another size. While a down pass is open all that may. */
  ghost function LevelAfter(lib: Library, stack: seq<string>, stages: seq<Stage>, at: Level): Option<Level>
    decreases lib.names - Names(stack), stages, 0
  {
    if stages == [] then Some(at)
    else
      var one := LevelAfterOne(lib, stack, stages[0], at);
      if one.None? then None else LevelAfter(lib, stack, stages[1..], one.value)
  }

  ghost function LevelAfterOne(lib: Library, stack: seq<string>, stage: Stage, at: Level): Option<Level>
    decreases lib.names - Names(stack), stage, 0
  {
    match stage
    case Pass(_, scale, _, _, input, _) => LevelAfterPass(scale, input, at)
    case Repeat(over, _, body) => LevelAfterEach(lib, stack, |over|, body, at)
    case Save(name) => Some(at.(base := if at.open == 0 then at.base + {name} else at.base - {name}))
    case Get(name) => if at.open > 0 || name in at.base then Some(at) else None
    case State(name, _, _, _, _) => Some(at.(base := at.base - {name}))
    case Use(effect, params) =>
      var binding := lib.Resolve(effect, params);
      if at.open > 0 || effect in stack || binding.Err? then Some(at) else
      assert lib.names - Names(stack + [effect]) < lib.names - Names(stack) by { FewerLeft(lib.names, stack, effect); }
      if Bracketed(lib, stack + [effect], binding.value.stages) then Some(at) else None
  }

  function LevelAfterPass(scale: real, input: Option<string>, at: Level): Option<Level> {
    if at.open == 0 && (scale > 1.0 || (input.Some? && input.value !in at.base)) then None
    else if scale > 1.0 then Some(at.(open := at.open - 1))
    else if scale < 1.0 then Some(at.(open := at.open + 1))
    else Some(at)
  }

  ghost function LevelAfterEach(lib: Library, stack: seq<string>, times: nat, body: seq<Stage>, at: Level): Option<Level>
    decreases lib.names - Names(stack), body, times + 1
  {
    if times == 0 then Some(at)
    else
      var one := LevelAfter(lib, stack, body, at);
      if one.None? then None else LevelAfterEach(lib, stack, times - 1, body, one.value)
  }

  /** Stages in which every down pass is undone, and nothing of another size is left. */
  ghost predicate Bracketed(lib: Library, stack: seq<string>, stages: seq<Stage>)
    decreases lib.names - Names(stack), stages, 1
  {
    var level := LevelAfter(lib, stack, stages, Level(0, {}));
    level.Some? && level.value.open == 0
  }

  /** As many levels stand above `below`, the lowest the size the run began at, and
      the names saved at that size are of it. */
  ghost predicate Standing(e: Env, below: seq<Extent>, at: Level, size: Pixels, box: Pixels) {
    && |e.levels| == |below| + at.open && e.levels[..|below|] == below
    && InPixels(if at.open == 0 then e.last.shot.extent else e.levels[|below|], box) == size
    && forall name :: name in at.base ==> name in e.saved && InPixels(e.saved[name].shot.extent, box) == size
  }

  lemma {:induction false} PlayStands(lib: Library, w: Walk, stages: seq<Stage>, e: Env, below: seq<Extent>, at: Level,
                                      size: Pixels, box: Pixels)
    requires Drawable(box) && Standing(e, below, at, size, box) && LevelAfter(lib, w.stack, stages, at).Some?
    ensures var played := Play(lib, w, stages, e);
            played.Ok? ==> Standing(played.value, below, LevelAfter(lib, w.stack, stages, at).value, size, box)
    decreases lib.names - Names(w.stack), stages, 0
  {
    if stages != [] {
      OneStands(lib, w, stages[0], e, below, at, size, box);
      var next := PlayOne(lib, w, stages[0], e);
      if next.Ok? {
        PlayStands(lib, w, stages[1..], next.value, below, LevelAfterOne(lib, w.stack, stages[0], at).value, size, box);
      }
    }
  }

  lemma PassStands(w: Walk, stage: Stage, e: Env, below: seq<Extent>, at: Level, size: Pixels, box: Pixels)
    requires stage.Pass? && LevelAfterPass(stage.scale, stage.input, at).Some?
    requires Drawable(box) && Standing(e, below, at, size, box)
    ensures var played := PlayPass(w, stage, e);
            played.Ok? ==> Standing(played.value, below, LevelAfterPass(stage.scale, stage.input, at).value, size, box)
  {
    if PlayPass(w, stage, e).Ok? {
      var first := if stage.input.Some? then Lookup(w, e.saved, stage.input.value).value else e.last;
      InRange(first.shot.extent, box);
      NeutralSide(InPixels(first.shot.extent, box).0);
      NeutralSide(InPixels(first.shot.extent, box).1);
      hide Side, Drawable;
    }
  }

  lemma {:induction false} OneStands(lib: Library, w: Walk, stage: Stage, e: Env, below: seq<Extent>, at: Level,
                                     size: Pixels, box: Pixels)
    requires Drawable(box) && Standing(e, below, at, size, box) && LevelAfterOne(lib, w.stack, stage, at).Some?
    ensures var played := PlayOne(lib, w, stage, e);
            played.Ok? ==> Standing(played.value, below, LevelAfterOne(lib, w.stack, stage, at).value, size, box)
    decreases lib.names - Names(w.stack), stage, 0
  {
    match stage
    case Pass(_, _, _, _, _, _) => PassStands(w, stage, e, below, at, size, box);
    case Repeat(over, asName, body) => EachStands(lib, w, over, asName, body, e, below, at, size, box);
    case Use(effect, params) =>
      var binding := lib.Resolve(effect, params);
      if at.open == 0 && effect !in w.stack && binding.Ok? {
        FewerLeft(lib.names, w.stack, effect);
        var cx := ContextOf(effect, binding.value);
        PlayStands(lib, Walk(cx, Some(e.last), w.stack + [effect], w.start, []), binding.value.stages,
                   Env(e.last, map[], [], e.count, e.trace, e.kept), [], Level(0, {}),
                   InPixels(e.last.shot.extent, box), box);
      }
    case _ =>
  }

  lemma {:induction false} EachStands(lib: Library, w: Walk, over: seq<real>, asName: string, body: seq<Stage>, e: Env,
                                      below: seq<Extent>, at: Level, size: Pixels, box: Pixels)
    requires Drawable(box) && Standing(e, below, at, size, box) && LevelAfterEach(lib, w.stack, |over|, body, at).Some?
    ensures var played := PlayEach(lib, w, over, asName, body, e);
            played.Ok? ==> Standing(played.value, below, LevelAfterEach(lib, w.stack, |over|, body, at).value, size, box)
    decreases lib.names - Names(w.stack), body, |over| + 1
  {
    if over != [] {
      var more := w.(extra := w.extra + [(asName, over[0])]);
      PlayStands(lib, more, body, e, below, at, size, box);
      var next := Play(lib, more, body, e);
      if next.Ok? {
        EachStands(lib, w, over[1..], asName, body, next.value, below, LevelAfter(lib, w.stack, body, at).value, size, box);
      }
    }
  }

  /** Any bracketed run of stages, used effects and repeats included, ends at the
      size it began at, in pixels, for every box, and leaves the levels as they were. */
  lemma ComesBack(lib: Library, w: Walk, stages: seq<Stage>, e: Env, box: Pixels)
    requires Drawable(box) && Bracketed(lib, w.stack, stages)
    ensures var played := Play(lib, w, stages, e);
            played.Ok? ==>
              && played.value.levels == e.levels
              && InPixels(played.value.last.shot.extent, box) == InPixels(e.last.shot.extent, box)
  {
    PlayStands(lib, w, stages, e, e.levels, Level(0, {}), InPixels(e.last.shot.extent, box), box);
  }
}
