/** The plan compiler, with the mutable lists and scopes of the source. Each method is
    held to the interpreter: it fails as that fails, and otherwise what it appended means
    what the stages mean. */
module Flattening {
  import opened Basics
  import opened Effects
  import opened Pictures
  import opened Interpreter
  import opened MadeSoFar

  /** What stages of one effect can name, and the down passes an up pass would undo. */
  class Scope {
    var saved: map<string, Feed>
    var levels: seq<Feed>

    constructor (saved: map<string, Feed>)
      ensures this.saved == saved && levels == []
    {
      this.saved, levels := saved, [];
    }
  }

  /** The list of steps being made: a plan's, or one state's. */
  class StepList {
    var list: seq<Step>

    constructor ()
      ensures list == []
    {
      list := [];
    }
  }

  /** What a given feed means does not change as more is made. */
  lemma WalkSame(m: Made, m': Made, cx: Context, given: Option<Feed>, stack: seq<string>, start: Extent,
                 extra: seq<(string, real)>)
    requires Formed(m) && m.states <= m'.states && m.out <= m'.out && (given.Some? ==> Reaches(m, given.value))
    ensures WalkOf(m', cx, given, stack, start, extra) == WalkOf(m, cx, given, stack, start, extra)
    ensures given.Some? ==> Reaches(m', given.value)
  {
    MeantSame(m, m', start);
  }

  lemma PlayNext(lib: Library, w: Walk, stages: seq<Stage>, i: nat, e: Env)
    requires i < |stages|
    ensures Play(lib, w, stages[i..], e) ==
              match PlayOne(lib, w, stages[i], e) case Err(x) => Err(x) case Ok(next) => Play(lib, w, stages[i + 1..],
                                                                                              next)
  {
    assert stages[i..][1..] == stages[i + 1..];
  }

  lemma PlayEachNext(lib: Library, w: Walk, over: seq<real>, i: nat, asName: string, body: seq<Stage>, e: Env)
    requires i < |over|
    ensures PlayEach(lib, w, over[i..], asName, body, e) ==
              match Play(lib, w.(extra := w.extra + [(asName, over[i])]), body, e)
              case Err(x) => Err(x) case Ok(next) => PlayEach(lib, w, over[i + 1..], asName, body, next)
  {
    assert over[i..][1..] == over[i + 1..];
  }

  lemma Refused(lib: Library, w: Walk, stage: Stage, m: Made, m': Made, start: Extent, e: Error)
    requires PlayOne(lib, w, stage, EnvOf(m, start)) == Err(e)
    ensures Follows(PlayOne(lib, w, stage, EnvOf(m, start)), m, m', start, Err(e))
  {
    hide PlayOne, EnvOf;
  }

  class Flattener {
    const lib: Library
    /** Names of the effects entered and not yet left; meeting one again is a cycle. */
    var stack: seq<string>
    var states: seq<StatePlan>
    var marks: Reads
    /** How many steps exist, in the main list and in the states together. */
    var count: nat

    constructor (lib: Library)
      ensures this.lib == lib && stack == [] && states == [] && marks == Reads(false, false, false, false) && count == 0
    {
      this.lib, stack, states, marks, count := lib, [], [], Reads(false, false, false, false), 0;
    }

    /** All that has been made, with this last result. */
    ghost function Snap(scope: Scope, out: StepList, last: Feed): Made
      reads this, scope, out
    {
      Made(states, out.list, scope.saved, scope.levels, last, count, marks)
    }

    /** What a walk given these means, by the interpreter. */
    ghost function Given(m: Made, cx: Context, given: Option<Feed>, start: Extent, extra: seq<(string, real)>): Walk
      reads this
    {
      WalkOf(m, cx, given, stack, start, extra)
    }

    /** The textures a pass uses, bound in order and marked as read. */
    method BindUses(cx: Context, given: Option<Feed>, saved: map<string, Feed>, uses: seq<string>,
                    ghost m: Made, ghost w: Walk, ghost start: Extent, ghost extra: seq<(string, real)>)
      returns (r: Result<seq<(string, Feed)>, Error>)
      requires Formed(m) && (given.Some? ==> Reaches(m, given.value)) && m.saved == saved
      requires w == WalkOf(m, cx, given, stack, start, extra)
      modifies this`marks
      ensures match LookupUses(w, EnvOf(m, start).saved, uses)
              case Err(e) => r == Err(e)
              case Ok(pictures) =>
                && r.Ok? && pictures == Bindings(m, r.value, start) && |pictures| == |r.value|
                && NotedUses(old(marks), marks, r.value)
                && forall i :: 0 <= i < |r.value| ==> Reaches(m, r.value[i].1)
    {
      hide Formed, Lookup, EnvOf, FeedOf, Mark, Meant;
      var bound: seq<(string, Feed)> := [];
      ghost var names := EnvOf(m, start).saved;
      assert uses[..0] == [] && Bindings(m, bound, start) == [];
      for i := 0 to |uses|
        invariant LookupUses(w, names, uses[..i]) == Ok(Bindings(m, bound, start))
        invariant NotedUses(old(marks), marks, bound)
        invariant forall k :: 0 <= k < |bound| ==> Reaches(m, bound[k].1)
      {
        assert uses[..i + 1][..i] == uses[..i];
        if uses[i] == "shape" {
          marks := marks.(shape := true);
        } else {
          var feed := FeedOf(cx, given, saved, uses[i]);
          FeedMeans(m, cx, given, stack, start, extra, uses[i]);
          if feed.Err? {
            UsesFail(w, names, uses, i + 1);
            return Err(feed.error);
          }
          NotedUse(old(marks), marks, bound, uses[i], feed.value);
          BindOne(m, bound, uses[i], feed.value, start);
          marks := Mark(marks, feed.value);
          bound := bound + [(uses[i], feed.value)];
        }
      }
      assert uses[..|uses|] == uses;
      r := Ok(bound);
    }

    method PassStage(cx: Context, given: Option<Feed>, stage: Stage, last: Feed, scope: Scope,
                     extra: seq<(string, real)>, out: StepList, ghost start: Extent)
      returns (r: Result<Feed, Error>)
      requires stage.Pass? && Formed(Snap(scope, out, last))
          && (given.Some? ==> Reaches(Snap(scope, out, last), given.value))
      modifies this`count, this`marks, scope`levels, out
      ensures var m := old(Snap(scope, out, last));
              Follows(PlayPass(old(Given(m, cx, given, start, extra)), stage, EnvOf(m, start)), m,
                      Snap(scope, out, if r.Ok? then r.value else last), start, r)
    {
      hide Formed, EnvOf, PlayPass, LookupUses, NotedUses, Bindings, Grows, FeedOf, Touched, StepOf, StepSize, StepLevels;
      ghost var m := Snap(scope, out, last);
      ghost var w := Given(m, cx, given, start, extra);
      FirstMeans(m, cx, given, stack, start, extra, stage);
      PassRefused(m, cx, given, stack, start, extra, stage);
      if count >= MOST_STEPS { return Err(TooManyPasses); }
      count := count + 1;
      var first := last;
      if stage.input.Some? {
        var feed := FeedOf(cx, given, scope.saved, stage.input.value);
        if feed.Err? { return Err(feed.error); }
        first := feed.value;
      }
      var size := StepSize(stage.scale, scope.levels, first);
      scope.levels := StepLevels(stage.scale, scope.levels, first);
      var bound := BindUses(cx, given, scope.saved, stage.uses, m, w, start, extra);
      if bound.Err? { return Err(bound.error); }
      if |bound.value| + 1 > MOST_TEXTURES {
        return Err(TooManyTextures);
      }
      PassFollows(m, cx, given, stack, start, extra, stage, first, bound.value, marks);
      marks := Mark(marks, first);
      out.list := out.list + [StepOf(cx, extra, stage, size, first, bound.value)];
      assert Snap(scope, out, FromStep(|m.out|)) == PassMade(m, cx, extra, stage, first, bound.value, marks);
      r := Ok(FromStep(|out.list| - 1));
    }

    /** Every stage in order; the feed of the last result. */
    method WalkStages(cx: Context, given: Option<Feed>, stages: seq<Stage>, first: Feed, scope: Scope,
                      extra: seq<(string, real)>, out: StepList, ghost start: Extent)
      returns (r: Result<Feed, Error>)
      requires Formed(Snap(scope, out, first)) && (given.Some? ==> Reaches(Snap(scope, out, first), given.value))
      modifies this, scope, out
      ensures r.Ok? ==> stack == old(stack)
      ensures var m := old(Snap(scope, out, first));
              Follows(Play(lib, old(Given(m, cx, given, start, extra)), stages, EnvOf(m, start)), m,
                      Snap(scope, out, if r.Ok? then r.value else first), start, r)
      decreases lib.names - Names(stack), stages, 0
    {
      ghost var m := Snap(scope, out, first);
      ghost var w := Given(m, cx, given, start, extra);
      var last := first;
      assert stages[0..] == stages;
      GrowsSame(m, m);
      for i := 0 to |stages|
        invariant stack == old(stack)
        invariant Formed(Snap(scope, out, last)) && Grows(m, Snap(scope, out, last))
        invariant Play(lib, w, stages, EnvOf(m, start))
            == Play(lib, w, stages[i..], EnvOf(Snap(scope, out, last), start))
      {
        ghost var now := Snap(scope, out, last);
        WalkSame(m, now, cx, given, stack, start, extra);
        PlayNext(lib, w, stages, i, EnvOf(now, start));
        var next := WalkOne(cx, given, stages[i], last, scope, extra, out, start);
        if next.Err? { return next; }
        last := next.value;
        GrowsOn(m, now, Snap(scope, out, last));
      }
      assert stages[|stages|..] == [];
      r := Ok(last);
    }

    method WalkOne(cx: Context, given: Option<Feed>, stage: Stage, last: Feed, scope: Scope, extra: seq<(string, real)>,
                   out: StepList, ghost start: Extent)
      returns (r: Result<Feed, Error>)
      requires Formed(Snap(scope, out, last)) && (given.Some? ==> Reaches(Snap(scope, out, last), given.value))
      modifies this, scope, out
      ensures r.Ok? ==> stack == old(stack)
      ensures var m := old(Snap(scope, out, last));
              Follows(PlayOne(lib, old(Given(m, cx, given, start, extra)), stage, EnvOf(m, start)), m,
                      Snap(scope, out, if r.Ok? then r.value else last), start, r)
      decreases lib.names - Names(stack), stage, 1
    {
      hide Formed, EnvOf, Grows;
      ghost var m := Snap(scope, out, last);
      match stage
      case Pass(_, _, _, _, _, _) =>
        r := PassStage(cx, given, stage, last, scope, extra, out, start);
      case Save(name) =>
        SaveMeans(m, name, start);
        scope.saved := scope.saved[name := last];
        r := Ok(last);
      case Get(name) =>
        FeedMeans(m, cx, given, stack, start, extra, name);
        r := FeedOf(cx, given, scope.saved, name);
        if r.Ok? { GetMeans(m, r.value, start); }
      case Repeat(over, asName, body) =>
        if !IsIdentifier(asName) { return Err(BadName); }
        if ParamNamed(cx, extra, asName) { return Err(ParamTaken); }
        r := WalkRepeat(cx, given, over, asName, body, last, scope, extra, out, start);
      case Use(effect, params) =>
        r := UseEffect(effect, params, last, scope, out, start, stage);
      case State(name, format, scale, depends, body) =>
        r := StateStage(cx, given, stage, last, scope, extra, out, start);
    }

    /** `repeat`: the numbers in turn, each known to the body as `p_<as>`. */
    method WalkRepeat(cx: Context, given: Option<Feed>, over: seq<real>, asName: string, body: seq<Stage>, first: Feed,
                      scope: Scope, extra: seq<(string, real)>, out: StepList, ghost start: Extent)
      returns (r: Result<Feed, Error>)
      requires Formed(Snap(scope, out, first)) && (given.Some? ==> Reaches(Snap(scope, out, first), given.value))
      modifies this, scope, out
      ensures r.Ok? ==> stack == old(stack)
      ensures var m := old(Snap(scope, out, first));
              Follows(PlayEach(lib, old(Given(m, cx, given, start, extra)), over, asName, body, EnvOf(m, start)), m,
                      Snap(scope, out, if r.Ok? then r.value else first), start, r)
      decreases lib.names - Names(stack), body, 1
    {
      ghost var m := Snap(scope, out, first);
      ghost var w := Given(m, cx, given, start, extra);
      var last := first;
      assert over[0..] == over;
      GrowsSame(m, m);
      for i := 0 to |over|
        invariant stack == old(stack)
        invariant Formed(Snap(scope, out, last)) && Grows(m, Snap(scope, out, last))
        invariant PlayEach(lib, w, over, asName, body, EnvOf(m, start))
            == PlayEach(lib, w, over[i..], asName, body, EnvOf(Snap(scope, out, last), start))
      {
        ghost var now := Snap(scope, out, last);
        WalkSame(m, now, cx, given, stack, start, extra + [(asName, over[i])]);
        PlayEachNext(lib, w, over, i, asName, body, EnvOf(now, start));
        var next := WalkStages(cx, given, body, last, scope, extra + [(asName, over[i])], out, start);
        if next.Err? { return next; }
        last := next.value;
        GrowsOn(m, now, Snap(scope, out, last));
      }
      assert over[|over|..] == [];
      r := Ok(last);
    }

    /** A state's own steps, walked in a scope and a list of their own. */
    method StateSteps(cx: Context, body: seq<Stage>, saved: map<string, Feed>, extra: seq<(string, real)>,
                      ghost m: Made, ghost inside: Extent)
      returns (made: Result<Feed, Error>, steps: seq<Step>, ghost end: Made)
      requires Formed(StateBegun(m, cx.first)) && m.saved == saved
      requires m.states == states && m.count == count && m.marks == marks
      modifies this
      ensures made.Ok? ==> stack == old(stack)
      ensures end.states == states && end.out == steps && end.count == count && end.marks == marks
      ensures var begun := StateBegun(m, cx.first);
              Follows(Play(lib, WalkOf(begun, cx, None, old(stack), inside, extra), body, EnvOf(begun, inside)), begun,
                      end, inside, made)
      decreases lib.names - Names(stack), body, 1
    {
      var first := FromInput(cx.first);
      var inner := new Scope(StateSaved(saved));
      var list := new StepList();
      assert Snap(inner, list, first) == StateBegun(m, cx.first);
      made := WalkStages(cx, None, body, first, inner, extra, list, inside);
      steps := list.list;
      end := Snap(inner, list, if made.Ok? then made.value else first);
    }

    /** A state: walked into a list of its own, where only inputs and earlier states can be read. */
    method StateStage(cx: Context, given: Option<Feed>, stage: Stage, last: Feed, scope: Scope,
                      extra: seq<(string, real)>, out: StepList, ghost start: Extent)
      returns (r: Result<Feed, Error>)
      requires stage.State? && Formed(Snap(scope, out, last))
          && (given.Some? ==> Reaches(Snap(scope, out, last), given.value))
      modifies this, scope`saved
      ensures r.Ok? ==> stack == old(stack)
      ensures var m := old(Snap(scope, out, last));
              Follows(PlayOne(lib, old(Given(m, cx, given, start, extra)), stage, EnvOf(m, start)), m,
                      Snap(scope, out, if r.Ok? then r.value else last), start, r)
      decreases lib.names - Names(stack), stage, 0
    {
      hide EnvOf, Play, StateBegun, Grows;
      ghost var m := Snap(scope, out, last);
      if stage.depends == OnRegion { return Err(NoRegions); }
      StateBegins(m, cx.first, start, stage.scale);
      hide Formed, PlayOne, WalkOf, Reaches, Follows;
      var made, steps, end := StateSteps(cx, stage.body, scope.saved, extra, m, Extent.Part(Whole, stage.scale));
      StateFollows(lib, m, cx, given, old(stack), start, extra, stage, made, end);
      if made.Err? {
        Refused(lib, WalkOf(m, cx, given, old(stack), start, extra), stage, m, Snap(scope, out, last), start,
                made.error);
        return Err(made.error);
      }
      KeepState(stage, steps, scope);
      assert Snap(scope, out, last) == StateMade(m, end, stage.name, stage.format, stage.scale, stage.depends);
      r := Ok(last);
    }

    /** Push a state and save it under its name. */
    method KeepState(stage: Stage, steps: seq<Step>, scope: Scope)
      requires stage.State?
      modifies this`states, scope`saved
      ensures states == old(states) + [StatePlan(stage.name, stage.format, stage.scale, stage.depends, steps)]
      ensures scope.saved == old(scope.saved)[stage.name := FromState(|old(states)|)]
    {
      states := states + [StatePlan(stage.name, stage.format, stage.scale, stage.depends, steps)];
      scope.saved := scope.saved[stage.name := FromState(|states| - 1)];
    }

    /** Flatten another effect, bound by name, given the last result. */
    method UseEffect(name: string, overrides: Params, first: Feed, ghost scope: Scope, out: StepList,
                     ghost start: Extent, ghost stage: Stage)
      returns (r: Result<Feed, Error>)
      requires Formed(Snap(scope, out, first)) && stage == Use(name, overrides)
      modifies this, out
      ensures r.Ok? ==> stack == old(stack)
      ensures var m := old(Snap(scope, out, first));
              forall w: Walk :: w.stack == old(stack) && w.start == start ==>
                Follows(PlayOne(lib, w, stage, EnvOf(m, start)), m, Snap(scope, out, if r.Ok? then r.value else first), start, r)
      decreases lib.names - Names(stack), stage, 0
    {
      if name in stack { return Err(Cycle); }
      var binding := lib.Resolve(name, overrides);
      if binding.Err? { return Err(binding.error); }
      FewerLeft(lib.names, stack, name);
      r := BoundEffect(name, binding.value, first, Snap(scope, out, first), out, start);
    }

    /** Flatten an effect already bound, in a scope of its own. */
    method BoundEffect(name: string, binding: Binding, first: Feed, ghost m: Made, out: StepList, ghost start: Extent)
      returns (r: Result<Feed, Error>)
      requires Formed(m) && name in lib.names && name !in stack
      requires m == Made(states, out.list, m.saved, m.levels, first, count, marks)
      modifies this, out
      ensures r.Ok? ==> stack == old(stack)
      ensures Follows(PlayBound(lib, old(stack), start, name, binding, EnvOf(m, start)), m,
                      Made(states, out.list, m.saved, m.levels, if r.Ok? then r.value else first, count, marks), start, r)
      decreases lib.names - Names(stack + [name]), binding.stages, 1
    {
      stack := stack + [name];
      var cx := ContextOf(name, binding);
      var bad := CheckKnown(cx.known, cx.known);
      if bad.Some? { return Err(bad.value); }
      var own := new Scope(map[]);
      assert Snap(own, out, first) == EffectBegun(m);
      EffectBegins(m, start);
      var last := WalkStages(cx, Some(first), binding.stages, first, own, [], out, start);
      if last.Err? { return last; }
      ghost var end := Snap(own, out, last.value);
      EffectEnds(m, end, start);
      stack := stack[..|stack| - 1];
      r := last;
    }
  }

  /** What a flattened plan is: well formed, of at most 256 passes, marked with just
      the inputs it reads, keeping the states, and drawing what the interpreter says. */
  ghost predicate Flattened(plan: Plan, env: Env, feed: Feed) {
    && PlanOk(plan) && FeedOk(feed, |plan.steps|, |plan.states|)
    && |plan.steps| + Passes(plan.states) == env.count <= MOST_STEPS
    && MarkedExactly(plan)
    && Means(feed, plan.states, plan.steps, Whole) == env.last
    && env.trace == RunPlan(plan, Own(Whole)) && env.kept == KeptOf(plan.states)
  }

  function FirstInput(binding: Binding): string { if binding.inputs == [] then "self" else binding.inputs[0] }

  /** Flatten an effect: it fails just where the interpreter fails and with the same
      error, and otherwise makes a plan of the same meaning, whatever the effects
      and however they use each other. `feed` is the feed of its last result. */
  method Flatten(lib: Library, root: string, overrides: Params) returns (r: Result<Plan, Error>, ghost feed: Feed)
    ensures match PlayEffect(lib, root, overrides)
            case Err(e) => r == Err(e)
            case Ok(env) => r.Ok? && Flattened(r.value, env, feed)
    ensures r.Ok? ==>
        lib.Resolve(root, overrides).Ok? && r.value.firstInput == FirstInput(lib.Resolve(root, overrides).value)
  {
    feed := FromInput("self");
    var binding := lib.Resolve(root, overrides);
    if binding.Err? { return Err(binding.error), feed; }
    var first := FromInput(FirstInput(binding.value));
    var flattener := new Flattener(lib);
    var steps := new StepList();
    ghost var m := Made([], [], map[], [], first, 0, flattener.marks);
    assert EnvOf(m, Whole) == Env(Val(OfInput, Shot(Source(first.name), Whole), 0), map[], [], 0, [], []);
    var last := flattener.BoundEffect(root, binding.value, first, m, steps, Whole);
    if last.Err? { return Err(last.error), feed; }
    feed := last.value;
    r := Ok(Plan(steps.list, flattener.states, flattener.marks, first.name));
    assert r.value.steps[0..] == r.value.steps && r.value.states[0..] == r.value.states;
  }

  /** What a run of a flattened plan hands on is the last picture drawn. */
  lemma OutcomeIsLastDrawn(plan: Plan, env: Env, feed: Feed)
    requires Flattened(plan, env, feed)
    ensures Outcome(plan, Own(Whole)) == env.Latest(Shot(Source(plan.firstInput), Whole))
  {}

  // ---- The name of a plan's first input ----

  lemma {:induction false} CheckedNames(known: seq<string>, all: seq<string>)
    requires CheckKnown(known, all).None?
    ensures forall name :: name in known ==> IsIdentifier(name)
  {
    hide IsIdentifier;
    if known != [] { CheckedNames(known[1..], all); }
  }

  lemma {:induction false} NamesKept(stages: seq<Stage>, known: seq<string>)
    ensures forall name :: name in known ==> name in NamesIn(stages, known)
    decreases stages
  {
    if stages != [] {
      match stages[0]
      case Save(name) => NamesKept(stages[1..], Adding(known, name));
      case State(name, _, _, _, body) =>
        NamesKept(body, Adding(known, name));
        NamesKept(stages[1..], NamesIn(body, Adding(known, name)));
      case Repeat(_, _, body) =>
        NamesKept(body, known);
        NamesKept(stages[1..], NamesIn(body, known));
      case _ => NamesKept(stages[1..], known);
    }
  }

  lemma {:induction false} FirstIsKnown(inputs: seq<string>)
    requires inputs != [] && inputs[0] != "shape"
    ensures TrimState(inputs[0]) in InputNames(inputs)
  {
    if |inputs| > 1 { FirstIsKnown(inputs[..|inputs| - 1]); }
  }

  /** A plan's first input is named by a small letter or a line first, whatever the
      resolver bound: every other name was refused. */
  lemma FirstInputIsNamed(lib: Library, root: string, overrides: Params)
    requires PlayEffect(lib, root, overrides).Ok?
    ensures lib.Resolve(root, overrides).Ok?
    ensures var first := FirstInput(lib.Resolve(root, overrides).value); first != "" && LowerOrLine(first[0])
  {
    hide Play, NamesIn, InputNames;
    var binding := lib.Resolve(root, overrides).value;
    var known := ContextOf(root, binding).known;
    if binding.inputs != [] && binding.inputs[0] != "shape" {
      CheckedNames(known, known);
      FirstIsKnown(binding.inputs);
      NamesKept(binding.stages, InputNames(binding.inputs));
      assert IsIdentifier(TrimState(binding.inputs[0]));
    }
  }

  /** An effect that saves its input, draws a pass and gets the input back. */
  function Keeping(): Library {
    Library({"keeps"}, (name: string, params: Params) =>
      Ok(Binding([Save("kept"), Pass("soft.frag", 1.0, Rgba8, [], None, false), Get("kept")], ["self"], [])))
  }

  lemma KeepsContext()
    ensures ContextOf("keeps", Keeping().Resolve("keeps", []).value).known == ["self", "kept"]
  {
    var stages := Keeping().Resolve("keeps", []).value.stages;
    assert TrimState("self") == "self";
    assert InputNames(["self"]) == ["self"] by { assert ["self"][..0] == []; }
    assert NamesIn(stages[2..], ["self", "kept"]) == ["self", "kept"] by { assert stages[2..][1..] == []; }
    assert NamesIn(stages[1..], ["self", "kept"]) == ["self", "kept"] by { assert stages[1..][1..] == stages[2..]; }
    assert NamesIn(stages, ["self"]) == ["self", "kept"];
  }

  /** Its pass draws, and its last result is the input. */
  lemma KeepsItsInput()
    ensures var played := PlayEffect(Keeping(), "keeps", []);
            played.Ok? && played.value.last.shot.picture == Source("self")
            && played.value.trace != [] && played.value.trace[|played.value.trace| - 1].picture.Drawn?
  {
    var lib, stages := Keeping(), Keeping().Resolve("keeps", []).value.stages;
    var cx := ContextOf("keeps", lib.Resolve("keeps", []).value);
    KeepsContext();
    KeepsKnown();
    hide NamesIn, InputNames, CheckKnown;
    var source := Val(OfInput, Shot(Source("self"), Whole), 0);
    var w := Walk(cx, Some(source), ["keeps"], Whole, []);
    var e0 := Env(source, map[], [], 0, [], []);
    var e1 := e0.(saved := map["kept" := source]);
    assert PlayOne(lib, w, stages[0], e0) == Ok(e1);
    var pass := PlayPass(w, stages[1], e1);
    assert LookupUses(w, e1.saved, []) == Ok([]);
    assert pass.Ok? && |pass.value.trace| == 1 && pass.value.trace[0].picture.Drawn?;
    assert PlayOne(lib, w, stages[2], pass.value) == Ok(pass.value.(last := source));
    PlayNext(lib, w, stages, 0, e0);
    PlayNext(lib, w, stages, 1, e1);
    PlayNext(lib, w, stages, 2, pass.value);
    assert stages[0..] == stages && stages[3..] == [] && [] + ["keeps"] == ["keeps"];
  }

  /** With a `get` last, a plan hands on something else than its stages mean: the
      result of the flatten is dropped and the last step drawn stands for it. */
  lemma GetIsLost(plan: Plan, feed: Feed)
    ensures PlayEffect(Keeping(), "keeps", []).Ok?
    ensures Flattened(plan, PlayEffect(Keeping(), "keeps", []).value, feed) ==>
              Outcome(plan, Own(Whole)) != PlayEffect(Keeping(), "keeps", []).value.last.shot
  {
    hide PlayEffect, Outcome, Keeping;
    KeepsItsInput();
    if Flattened(plan, PlayEffect(Keeping(), "keeps", []).value, feed) {
      OutcomeIsLastDrawn(plan, PlayEffect(Keeping(), "keeps", []).value, feed);
    }
  }

  lemma KeepsKnown()
    ensures CheckKnown(["self", "kept"], ["self", "kept"]).None?
  {
    var known := ["self", "kept"];
    assert IsIdentifier("self") && IsIdentifier("kept");
    forall name | name in known
      ensures !OwnOf(name, known)
    {
      forall other | other in known
        ensures name != other + "_sampler" && name != other + "_box" && name != other + "_clamp"
      {
        assert |name| == 4 && |other| == 4;
      }
    }
    assert known[1..] == ["kept"] && known[1..][1..] == [];
  }
}
