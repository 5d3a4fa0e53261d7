/** What every step of a flattened plan says of its pass, spelled out: the pass as it was
    written, once for each time it comes up, with its effect's params and the numbers of
    the repeats around it. */
module Unrolling {
  import opened Basics
  import opened Effects
  import opened Flattening
  import opened Interpreter
  import opened MadeSoFar
  import opened Pictures

  /** A pass each time it comes up: its effect, and the repeats around it, outermost
      first, each at one of its numbers. */
  datatype Written = Written(effect: string, binding: Binding, pass: Stage, pairs: seq<(string, real)>)

  /** The passes of some stages in the order they come up. A state's are its own. */
  ghost function Unrolled(lib: Library, stack: seq<string>, effect: string, binding: Binding, stages: seq<Stage>,
                          pairs: seq<(string, real)>): seq<Written>
    decreases lib.names - Names(stack), stages, 0
  {
    if stages == [] then []
    else UnrolledOne(lib, stack, effect, binding, stages[0], pairs)
         + Unrolled(lib, stack, effect, binding, stages[1..], pairs)
  }

  ghost function UnrolledOne(lib: Library, stack: seq<string>, effect: string, binding: Binding, stage: Stage,
                             pairs: seq<(string, real)>): seq<Written>
    decreases lib.names - Names(stack), stage, 0
  {
    match stage
    case Pass(_, _, _, _, _, _) => [Written(effect, binding, stage, pairs)]
    case Repeat(over, asName, body) => UnrolledEach(lib, stack, effect, binding, over, asName, body, pairs)
    case Use(name, params) =>
      var inner := lib.Resolve(name, params);
      if name in stack || inner.Err? then [] else
      assert lib.names - Names(stack + [name]) < lib.names - Names(stack) by { FewerLeft(lib.names, stack, name); }
      Unrolled(lib, stack + [name], name, inner.value, inner.value.stages, [])
    case _ => []
  }

  ghost function UnrolledEach(lib: Library, stack: seq<string>, effect: string, binding: Binding, over: seq<real>,
                              asName: string, body: seq<Stage>, pairs: seq<(string, real)>): seq<Written>
    decreases lib.names - Names(stack), body, |over| + 1
  {
    if over == [] then []
    else Unrolled(lib, stack, effect, binding, body, pairs + [(asName, over[0])])
         + UnrolledEach(lib, stack, effect, binding, over[1..], asName, body, pairs)
  }

  /** The passes of each state in the order the states are made. */
  ghost function States(lib: Library, stack: seq<string>, effect: string, binding: Binding, stages: seq<Stage>,
                        pairs: seq<(string, real)>): seq<seq<Written>>
    decreases lib.names - Names(stack), stages, 0
  {
    if stages == [] then []
    else StatesOne(lib, stack, effect, binding, stages[0], pairs)
         + States(lib, stack, effect, binding, stages[1..], pairs)
  }

  ghost function StatesOne(lib: Library, stack: seq<string>, effect: string, binding: Binding, stage: Stage,
                           pairs: seq<(string, real)>): seq<seq<Written>>
    decreases lib.names - Names(stack), stage, 0
  {
    match stage
    case State(_, _, _, _, body) =>
      States(lib, stack, effect, binding, body, pairs) + [Unrolled(lib, stack, effect, binding, body, pairs)]
    case Repeat(over, asName, body) => StatesEach(lib, stack, effect, binding, over, asName, body, pairs)
    case Use(name, params) =>
      var inner := lib.Resolve(name, params);
      if name in stack || inner.Err? then [] else
      assert lib.names - Names(stack + [name]) < lib.names - Names(stack) by { FewerLeft(lib.names, stack, name); }
      States(lib, stack + [name], name, inner.value, inner.value.stages, [])
    case _ => []
  }

  ghost function StatesEach(lib: Library, stack: seq<string>, effect: string, binding: Binding, over: seq<real>,
                            asName: string, body: seq<Stage>, pairs: seq<(string, real)>): seq<seq<Written>>
    decreases lib.names - Names(stack), body, |over| + 1
  {
    if over == [] then []
    else States(lib, stack, effect, binding, body, pairs + [(asName, over[0])])
         + StatesEach(lib, stack, effect, binding, over[1..], asName, body, pairs)
  }

  // ---- What is sent and declared ----

  /** The params that are sent: all but words. */
  function Sent(params: Params): Params {
    if params == [] then []
    else Sent(params[..|params| - 1]) + if params[|params| - 1].1.Word? then [] else [params[|params| - 1]]
  }

  /** The textures among a pass's uses. */
  function Textures(uses: seq<string>): seq<string> {
    if uses == [] then [] else (if uses[0] == "shape" then [] else [uses[0]]) + Textures(uses[1..])
  }

  /** A number is a float, a vector a vector, and a whole number or a truth an int. */
  ghost predicate KindFits(kind: Kind, value: Value) {
    && (kind == FloatKind <==> value.Number?) && (kind == Vec4Kind <==> value.Vec4?)
    && (kind == IntKind <==> value.Int? || value.Bool?)
  }

  /** The effect's own params, then each repeat's number under its name. */
  ghost predicate UniformsSpell(uniforms: Params, own: Params, pairs: seq<(string, real)>) {
    && |uniforms| == |own| + |pairs|
    && (forall j :: 0 <= j < |own| ==> uniforms[j] == own[j])
    && forall j :: 0 <= j < |pairs| ==> uniforms[|own| + j] == (pairs[j].0, Number(pairs[j].1))
  }

  ghost predicate KindsSpell(kinds: seq<(string, Kind)>, own: Params, pairs: seq<(string, real)>) {
    && |kinds| == |own| + |pairs|
    && (forall j :: 0 <= j < |own| ==> kinds[j].0 == own[j].0 && KindFits(kinds[j].1, own[j].1))
    && forall j :: 0 <= j < |pairs| ==> kinds[|own| + j] == (pairs[j].0, FloatKind)
  }

  /** A name some stages save or make a state, at any depth of theirs. */
  ghost predicate Mentions(stages: seq<Stage>, name: string)
    decreases stages
  {
    exists i :: 0 <= i < |stages| && MentionsAt(stages[i], name)
  }

  ghost predicate MentionsAt(stage: Stage, name: string)
    decreases stage
  {
    match stage
    case Save(saved) => saved == name
    case State(made, _, _, _, body) => made == name || Mentions(body, name)
    case Repeat(_, _, body) => Mentions(body, name)
    case _ => false
  }

  /** What an input is known as: itself without the `state:` before it. */
  ghost predicate KnownAs(input: string, name: string)
    decreases |input|
  {
    if "state:" <= input then KnownAs(input[6..], name) else input == name
  }

  /** The names a pass of an effect may read, each once. */
  ghost predicate KnownSpells(known: seq<string>, binding: Binding) {
    && (forall i, j :: 0 <= i < j < |known| ==> known[i] != known[j])
    && forall name :: name in known <==>
         || Mentions(binding.stages, name)
         || exists i :: 0 <= i < |binding.inputs| && binding.inputs[i] != "shape" && KnownAs(binding.inputs[i], name)
  }

  /** What a step says, beside what it reads and its size. */
  ghost predicate Says(program: Program, uniforms: Params, format: Format, w: Written) {
    && w.pass.Pass?
    && program.effect == w.effect && program.frag == w.pass.frag && program.perPart == w.pass.perPart
    && program.key == 0 && format == w.pass.format
    && program.signature.uses == Textures(w.pass.uses) && KnownSpells(program.signature.known, w.binding)
    && KindsSpell(program.signature.params, Sent(w.binding.params), w.pairs)
    && UniformsSpell(uniforms, Sent(w.binding.params), w.pairs)
  }

  ghost predicate StepSays(step: Step, w: Written) {
    Says(Program(step.effect, step.frag, step.signature, step.key, step.perPart), step.uniforms, step.format, w)
  }

  ghost predicate StepsSay(steps: seq<Step>, written: seq<Written>) {
    |steps| == |written| && forall i :: 0 <= i < |steps| ==> StepSays(steps[i], written[i])
  }

  ghost predicate ShotSays(shot: Shot, w: Written) {
    shot.picture.Drawn? && Says(shot.picture.program, shot.picture.uniforms, shot.picture.format, w)
  }

  ghost predicate ShotsSay(shots: seq<Shot>, written: seq<Written>) {
    |shots| == |written| && forall i :: 0 <= i < |shots| ==> ShotSays(shots[i], written[i])
  }

  ghost predicate KeptSay(kept: seq<Kept>, written: seq<seq<Written>>) {
    |kept| == |written| && forall i :: 0 <= i < |kept| ==> ShotsSay(kept[i].trace, written[i])
  }

  // ---- What the prelude's lists are ----

  lemma {:induction false} UniformsAre(params: Params)
    ensures Uniforms(params) == Sent(params)
  {
    if params != [] {
      UniformsAre(params[1..]);
      SentFirst(params);
    }
  }

  lemma {:induction false} SentFirst(params: Params)
    requires params != []
    ensures Sent(params) == (if params[0].1.Word? then [] else [params[0]]) + Sent(params[1..])
  {
    if |params| > 1 {
      var n := |params| - 1;
      SentFirst(params[..n]);
      assert params[..n][1..] == params[1..][..n - 1];
      assert params[1..][n - 1] == params[n];
    } else {
      assert params[..0] == [] && params[1..] == [];
    }
  }

  /** The kinds declared are of the params sent. */
  ghost predicate KindsFit(kinds: seq<(string, Kind)>, sent: Params) {
    |kinds| == |sent| && forall j :: 0 <= j < |sent| ==> kinds[j].0 == sent[j].0 && KindFits(kinds[j].1, sent[j].1)
  }

  lemma {:induction false} KindsAre(params: Params)
    ensures KindsFit(Kinds(params), Sent(params))
  {
    hide Sent;
    if params == [] {
      NoneSent();
    } else {
      KindsAre(params[1..]);
      SentFirst(params);
    }
  }

  lemma NoneSent()
    ensures Sent([]) == []
  {}

  lemma {:induction false} TexturesAre(w: Walk, saved: map<string, Val>, uses: seq<string>)
    ensures LookupUses(w, saved, uses).Ok? ==> UseNames(LookupUses(w, saved, uses).value) == Textures(uses)
  {
    if uses != [] {
      TexturesAre(w, saved, uses[..|uses| - 1]);
      TexturesLast(uses);
    }
  }

  lemma {:induction false} TexturesLast(uses: seq<string>)
    requires uses != []
    ensures Textures(uses) == Textures(uses[..|uses| - 1])
                              + if uses[|uses| - 1] == "shape" then [] else [uses[|uses| - 1]]
  {
    if |uses| > 1 {
      TexturesLast(uses[1..]);
      assert uses[1..][..|uses| - 2] == uses[..|uses| - 1][1..];
    } else {
      assert uses[..0] == [] && uses[1..] == [];
    }
  }

  predicate Distinct(names: seq<string>) { forall i, j :: 0 <= i < j < |names| ==> names[i] != names[j] }

  lemma {:induction false} NamesAre(stages: seq<Stage>, known: seq<string>)
    requires Distinct(known)
    ensures Distinct(NamesIn(stages, known))
    ensures forall name :: name in NamesIn(stages, known) <==> name in known || Mentions(stages, name)
    decreases stages
  {
    if stages != [] {
      var rest := stages[1..];
      forall name
        ensures Mentions(stages, name) <==> Mentions(stages[..1], name) || Mentions(rest, name)
      {
        MentionsEither(stages, name);
      }
      match stages[0]
      case Save(name) => NamesAre(rest, Adding(known, name));
      case State(name, _, _, _, body) =>
        NamesAre(body, Adding(known, name));
        NamesAre(rest, NamesIn(body, Adding(known, name)));
      case Repeat(_, _, body) =>
        NamesAre(body, known);
        NamesAre(rest, NamesIn(body, known));
      case _ => NamesAre(rest, known);
    }
  }

  lemma MentionsEither(stages: seq<Stage>, name: string)
    requires stages != []
    ensures Mentions(stages, name) <==> Mentions(stages[..1], name) || Mentions(stages[1..], name)
  {
    if Mentions(stages, name) {
      var i :| 0 <= i < |stages| && MentionsAt(stages[i], name);
      if i > 0 { assert stages[1..][i - 1] == stages[i]; } else { assert stages[..1][0] == stages[0]; }
    }
    if Mentions(stages[..1], name) { assert stages[..1][0] == stages[0]; }
    if Mentions(stages[1..], name) {
      var i :| 0 <= i < |stages| - 1 && MentionsAt(stages[1..][i], name);
      assert stages[1..][i] == stages[i + 1];
    }
  }

  lemma OneMoreInput(inputs: seq<string>, name: string)
    requires inputs != []
    ensures var n := |inputs| - 1;
            (exists i :: 0 <= i < |inputs| && inputs[i] != "shape" && KnownAs(inputs[i], name)) <==>
            (exists i :: 0 <= i < n && inputs[..n][i] != "shape" && KnownAs(inputs[..n][i], name))
            || (inputs[n] != "shape" && KnownAs(inputs[n], name))
  {
    hide KnownAs;
    assert forall i :: 0 <= i < |inputs| - 1 ==> inputs[..|inputs| - 1][i] == inputs[i];
  }

  lemma {:induction false} InputsAre(inputs: seq<string>)
    ensures Distinct(InputNames(inputs))
    ensures forall name :: name in InputNames(inputs) <==>
              exists i :: 0 <= i < |inputs| && inputs[i] != "shape" && KnownAs(inputs[i], name)
  {
    if inputs != [] {
      var n := |inputs| - 1;
      InputsAre(inputs[..n]);
      OneMoreName(inputs);
      hide KnownAs, TrimState, InputNames;
      forall name
        ensures name in InputNames(inputs) <==>
                exists i :: 0 <= i < |inputs| && inputs[i] != "shape" && KnownAs(inputs[i], name)
      {
        OneMoreInput(inputs, name);
        TrimmedIs(inputs[n], name);
      }
    }
  }

  lemma OneMoreName(inputs: seq<string>)
    requires inputs != []
    ensures var (n, before, all) := (|inputs| - 1, InputNames(inputs[..|inputs| - 1]), InputNames(inputs));
            && (Distinct(before) ==> Distinct(all))
            && forall name :: name in all <==> name in before || (inputs[n] != "shape" && TrimState(inputs[n]) == name)
  {
    hide TrimState;
  }

  lemma {:induction false} TrimmedIs(input: string, name: string)
    ensures KnownAs(input, name) <==> TrimState(input) == name
    decreases |input|
  {
    if "state:" <= input { TrimmedIs(input[6..], name); }
  }

  lemma KnownIs(effect: string, binding: Binding)
    ensures KnownSpells(ContextOf(effect, binding).known, binding)
  {
    InputsAre(binding.inputs);
    NamesAre(binding.stages, InputNames(binding.inputs));
  }

  // ---- The passes are played as they are written ----

  /** What some stages draw and keep, after what was drawn and kept before them. */
  ghost predicate Continues(e: Env, e': Env, passes: seq<Written>, states: seq<seq<Written>>) {
    && e.trace <= e'.trace && ShotsSay(e'.trace[|e.trace|..], passes)
    && e.kept <= e'.kept && KeptSay(e'.kept[|e.kept|..], states)
  }

  lemma ContinuesSame(e: Env, e': Env)
    requires e'.trace == e.trace && e'.kept == e.kept
    ensures Continues(e, e', [], [])
  {}

  lemma ContinuesOn(e: Env, e': Env, e'': Env, a: seq<Written>, b: seq<Written>, x: seq<seq<Written>>,
                    y: seq<seq<Written>>)
    requires Continues(e, e', a, x) && Continues(e', e'', b, y)
    ensures Continues(e, e'', a + b, x + y)
  {
    assert e''.trace[|e.trace|..] == e'.trace[|e.trace|..] + e''.trace[|e'.trace|..];
    assert e''.kept[|e.kept|..] == e'.kept[|e.kept|..] + e''.kept[|e'.kept|..];
  }

  ghost predicate Reading(w: Walk, effect: string, binding: Binding) { w.cx == ContextOf(effect, binding) }

  lemma PassSays(w: Walk, effect: string, binding: Binding, stage: Stage, e: Env)
    requires stage.Pass? && Reading(w, effect, binding) && PlayPass(w, stage, e).Ok?
    ensures Continues(e, PlayPass(w, stage, e).value, [Written(effect, binding, stage, w.extra)], [])
  {
    var played := PlayPass(w, stage, e).value;
    TexturesAre(w, e.saved, stage.uses);
    KnownIs(effect, binding);
    UniformsAre(binding.params);
    KindsAre(binding.params);
    hide KnownSpells, Textures, Lookup, LookupUses;
    assert played.trace[|e.trace|..] == [played.trace[|e.trace|]];
    assert played.kept[|e.kept|..] == [];
  }

  lemma {:induction false} PlayUnrolls(lib: Library, w: Walk, effect: string, binding: Binding, stages: seq<Stage>,
                                       e: Env)
    requires Reading(w, effect, binding)
    ensures var played := Play(lib, w, stages, e);
            played.Ok? ==> Continues(e, played.value, Unrolled(lib, w.stack, effect, binding, stages, w.extra),
                                     States(lib, w.stack, effect, binding, stages, w.extra))
    decreases lib.names - Names(w.stack), stages, 0
  {
    hide Continues, Reading;
    if stages == [] {
      ContinuesSame(e, e);
    } else {
      OneUnrolls(lib, w, effect, binding, stages[0], e);
      var next := PlayOne(lib, w, stages[0], e);
      if next.Ok? {
        PlayUnrolls(lib, w, effect, binding, stages[1..], next.value);
        var played := Play(lib, w, stages[1..], next.value);
        if played.Ok? {
          ContinuesOn(e, next.value, played.value, UnrolledOne(lib, w.stack, effect, binding, stages[0], w.extra),
                      Unrolled(lib, w.stack, effect, binding, stages[1..], w.extra),
                      StatesOne(lib, w.stack, effect, binding, stages[0], w.extra),
                      States(lib, w.stack, effect, binding, stages[1..], w.extra));
        }
      }
    }
  }

  lemma {:induction false} OneUnrolls(lib: Library, w: Walk, effect: string, binding: Binding, stage: Stage, e: Env)
    requires Reading(w, effect, binding)
    ensures var played := PlayOne(lib, w, stage, e);
            played.Ok? ==> Continues(e, played.value, UnrolledOne(lib, w.stack, effect, binding, stage, w.extra),
                                     StatesOne(lib, w.stack, effect, binding, stage, w.extra))
    decreases lib.names - Names(w.stack), stage, 0
  {
    hide Continues;
    var played := PlayOne(lib, w, stage, e);
    if played.Ok? {
      match stage
      case Pass(_, _, _, _, _, _) => PassSays(w, effect, binding, stage, e);
      case Save(_) => ContinuesSame(e, played.value);
      case Get(_) => ContinuesSame(e, played.value);
      case State(_, _, _, _, _) => StateUnrolls(lib, w, effect, binding, stage, e);
      case Repeat(over, asName, body) => EachUnrolls(lib, w, effect, binding, over, asName, body, e);
      case Use(name, params) =>
        FewerLeft(lib.names, w.stack, name);
        BoundUnrolls(lib, w.stack, w.start, name, lib.Resolve(name, params).value, e);
    }
  }

  lemma {:induction false} StateUnrolls(lib: Library, w: Walk, effect: string, binding: Binding, stage: Stage, e: Env)
    requires stage.State? && Reading(w, effect, binding) && PlayOne(lib, w, stage, e).Ok?
    ensures Continues(e, PlayOne(lib, w, stage, e).value, [], StatesOne(lib, w.stack, effect, binding, stage, w.extra))
    decreases lib.names - Names(w.stack), stage.body, 1
  {
    var start := Part(Whole, stage.scale);
    var inside := w.(given := None, start := start);
    var begun := Env(Val(OfInput, Shot(Source(w.cx.first), start), 0), ForState(e.saved, start), [], e.count, [], e.kept);
    PlayUnrolls(lib, inside, effect, binding, stage.body, begun);
    var inner := Play(lib, inside, stage.body, begun).value;
    var played := PlayOne(lib, w, stage, e).value;
    hide Play, Unrolled, States;
    assert inner.trace[0..] == inner.trace;
    assert played.trace[|e.trace|..] == [];
    assert played.kept[|e.kept|..] == inner.kept[|e.kept|..] + [played.kept[|inner.kept|]];
  }

  lemma {:induction false} EachUnrolls(lib: Library, w: Walk, effect: string, binding: Binding, over: seq<real>,
                                       asName: string, body: seq<Stage>, e: Env)
    requires Reading(w, effect, binding)
    ensures var played := PlayEach(lib, w, over, asName, body, e);
            played.Ok? ==> Continues(e, played.value, UnrolledEach(lib, w.stack, effect, binding, over, asName, body, w.extra),
                                     StatesEach(lib, w.stack, effect, binding, over, asName, body, w.extra))
    decreases lib.names - Names(w.stack), body, |over| + 1
  {
    hide Continues;
    if over == [] {
      ContinuesSame(e, e);
    } else {
      var more := w.(extra := w.extra + [(asName, over[0])]);
      PlayUnrolls(lib, more, effect, binding, body, e);
      var next := Play(lib, more, body, e);
      if next.Ok? {
        EachUnrolls(lib, w, effect, binding, over[1..], asName, body, next.value);
        var played := PlayEach(lib, w, over[1..], asName, body, next.value);
        if played.Ok? {
          ContinuesOn(e, next.value, played.value, Unrolled(lib, w.stack, effect, binding, body, more.extra),
                      UnrolledEach(lib, w.stack, effect, binding, over[1..], asName, body, w.extra),
                      States(lib, w.stack, effect, binding, body, more.extra),
                      StatesEach(lib, w.stack, effect, binding, over[1..], asName, body, w.extra));
        }
      }
    }
  }

  lemma {:induction false} BoundUnrolls(lib: Library, stack: seq<string>, start: Extent, name: string, binding: Binding,
                                        e: Env)
    requires name in lib.names && name !in stack && PlayBound(lib, stack, start, name, binding, e).Ok?
    ensures Continues(e, PlayBound(lib, stack, start, name, binding, e).value,
                      Unrolled(lib, stack + [name], name, binding, binding.stages, []),
                      States(lib, stack + [name], name, binding, binding.stages, []))
    decreases lib.names - Names(stack + [name]), binding.stages, 1
  {
    PlayUnrolls(lib, Walk(ContextOf(name, binding), Some(e.last), stack + [name], start, []), name, binding,
                binding.stages, Env(e.last, map[], [], e.count, e.trace, e.kept));
  }

  // ---- So a plan's steps say what was written ----

  lemma StepSaysIt(step: Step, scene: Scene, states: seq<Shot>, drawn: seq<Shot>, w: Written)
    requires ShotSays(Draw(step, scene, states, drawn), w)
    ensures StepSays(step, w)
  {
    hide Says;
  }

  lemma StepsSayIt(steps: seq<Step>, scene: Scene, states: seq<Shot>, written: seq<Written>)
    requires ShotsSay(Run(steps, scene, states), written)
    ensures StepsSay(steps, written)
  {
    hide ShotSays, StepSays, Run;
    forall i | 0 <= i < |steps|
      ensures StepSays(steps[i], written[i])
    {
      RunAt(steps, i, scene, states);
      StepSaysIt(steps[i], scene, states, Run(steps[..i], scene, states), written[i]);
    }
  }

  /** Every step of a flattened plan is a pass as it was written, as many times and in the
      order it comes up: its effect, file, format and textures; the names it may read; and
      its uniforms and their kinds, the effect's own params and then the number of each
      repeat around it. So is every step of every state. */
  lemma PlanSays(lib: Library, root: string, overrides: Params, plan: Plan, env: Env, feed: Feed)
    requires PlayEffect(lib, root, overrides) == Ok(env) && Flattened(plan, env, feed)
    ensures lib.Resolve(root, overrides).Ok?
    ensures var binding := lib.Resolve(root, overrides).value;
            && StepsSay(plan.steps, Unrolled(lib, [root], root, binding, binding.stages, []))
            && var states := States(lib, [root], root, binding, binding.stages, []);
               |plan.states| == |states| && forall j :: 0 <= j < |states| ==> StepsSay(plan.states[j].steps, states[j])
  {
    hide Continues, StepsSay, Unrolled, States, Run, Make, ShotsSay;
    var binding := lib.Resolve(root, overrides).value;
    var source := Val(OfInput, Shot(Source(FirstInput(binding)), Whole), 0);
    var begun := Env(source, map[], [], 0, [], []);
    assert [] + [root] == [root];
    BoundUnrolls(lib, [], Whole, root, binding, begun);
    TraceSays(begun, env, Unrolled(lib, [root], root, binding, binding.stages, []),
              States(lib, [root], root, binding, binding.stages, []));
    StepsSayIt(plan.steps, Own(Whole), Make(plan.states), Unrolled(lib, [root], root, binding, binding.stages, []));
    var states := States(lib, [root], root, binding, binding.stages, []);
    forall j | 0 <= j < |states|
      ensures StepsSay(plan.states[j].steps, states[j])
    {
      assert env.kept[j].trace == Run(plan.states[j].steps, Own(Part(Whole, plan.states[j].scale)), Make(plan.states[..j]));
      StepsSayIt(plan.states[j].steps, Own(Part(Whole, plan.states[j].scale)), Make(plan.states[..j]), states[j]);
    }
  }

  lemma TraceSays(e: Env, e': Env, passes: seq<Written>, states: seq<seq<Written>>)
    requires e.trace == [] && e.kept == [] && Continues(e, e', passes, states)
    ensures ShotsSay(e'.trace, passes) && KeptSay(e'.kept, states)
  {
    assert e'.trace[0..] == e'.trace && e'.kept[0..] == e'.kept;
  }

  /** A pass repeated over some numbers is one step for each, sent the effect's params and
      then that number. */
  lemma RepeatCounts(lib: Library, root: string, overrides: Params, plan: Plan, env: Env, feed: Feed, over: seq<real>,
                     asName: string, pass: Stage)
    requires PlayEffect(lib, root, overrides) == Ok(env) && Flattened(plan, env, feed) && pass.Pass?
    requires lib.Resolve(root, overrides).Ok? && lib.Resolve(root, overrides).value.stages == [Repeat(over, asName, [pass])]
    ensures |plan.steps| == |over|
    ensures forall i :: 0 <= i < |over| ==>
              plan.steps[i].uniforms == Sent(lib.Resolve(root, overrides).value.params) + [(asName, Number(over[i]))]
  {
    hide Flattened, PlayEffect, StepSays, StepsSay, Sent;
    var binding := lib.Resolve(root, overrides).value;
    PlanSays(lib, root, overrides, plan, env, feed);
    OnePassEach(lib, [root], root, binding, over, asName, pass);
    OneStage(lib, [root], root, binding, Repeat(over, asName, [pass]));
    EachSent(plan.steps, root, binding, over, asName, pass);
  }

  lemma OneStage(lib: Library, stack: seq<string>, effect: string, binding: Binding, stage: Stage)
    ensures Unrolled(lib, stack, effect, binding, [stage], []) == UnrolledOne(lib, stack, effect, binding, stage, [])
  {
    assert [stage][1..] == [];
  }

  lemma EachSent(steps: seq<Step>, effect: string, binding: Binding, over: seq<real>, asName: string, pass: Stage)
    requires pass.Pass?
    requires StepsSay(steps, seq(|over|, i requires 0 <= i < |over| => Written(effect, binding, pass, [(asName, over[i])])))
    ensures |steps| == |over|
    ensures forall i :: 0 <= i < |over| ==> steps[i].uniforms == Sent(binding.params) + [(asName, Number(over[i]))]
  {
    hide Sent, KnownSpells, KindsSpell, Textures;
    forall i | 0 <= i < |over|
      ensures steps[i].uniforms == Sent(binding.params) + [(asName, Number(over[i]))]
    {
      assert StepSays(steps[i], Written(effect, binding, pass, [(asName, over[i])]));
      OneSpelled(steps[i].uniforms, Sent(binding.params), (asName, over[i]));
    }
  }

  lemma OneSpelled(uniforms: Params, own: Params, pair: (string, real))
    requires UniformsSpell(uniforms, own, [pair])
    ensures uniforms == own + [(pair.0, Number(pair.1))]
  {
    assert uniforms[|own| + 0] == ([pair][0].0, Number([pair][0].1));
  }

  lemma {:induction false} OnePassEach(lib: Library, stack: seq<string>, effect: string, binding: Binding,
                                       over: seq<real>, asName: string, pass: Stage)
    requires pass.Pass?
    ensures UnrolledEach(lib, stack, effect, binding, over, asName, [pass], [])
         == seq(|over|, i requires 0 <= i < |over| => Written(effect, binding, pass, [(asName, over[i])]))
  {
    if over != [] {
      OnePassEach(lib, stack, effect, binding, over[1..], asName, pass);
      var pairs: seq<(string, real)> := [];
      assert pairs + [(asName, over[0])] == [(asName, over[0])];
      assert [pass][1..] == [];
      assert Unrolled(lib, stack, effect, binding, [pass], [(asName, over[0])])
          == [Written(effect, binding, pass, [(asName, over[0])])];
    }
  }
}
