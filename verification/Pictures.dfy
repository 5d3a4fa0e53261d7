/** What a plan draws: the executor's run of it, with a texture a free term over
    the passes that made it, and a size a term over the padded box. */
module Pictures {
  import opened Effects

  /** A pass's program: what it is compiled from, and whether it is each part's own. */
  datatype Program = Program(effect: string, frag: string, signature: Signature, key: nat, perPart: bool)

  datatype Picture =
    | Blank
    | Source(name: string)
    | Drawn(program: Program, uniforms: Params, format: Format, first: Picture, uses: seq<(string, Picture)>)

  /** How a size came about: the box itself, or a scale of an earlier size, rounded up there. */
  datatype Extent = Whole | Part(of: Extent, scale: real)

  datatype Shot = Shot(picture: Picture, extent: Extent)

  /** What the inputs read: the part's own, each as big as the box the steps start
      from, or one of them rebound to something else. */
  datatype Scene = Own(start: Extent) | Rebound(name: string, to: Shot, under: Scene) {
    function Look(input: string): Shot {
      match this
      case Own(start) => Shot(Source(input), start)
      case Rebound(name, to, under) => if input == name then to else under.Look(input)
    }

    function Start(): Extent { match this case Own(start) => start case Rebound(_, _, under) => under.Start() }
  }

  /** What a feed reads, with these states made and these steps drawn. */
  function Read(feed: Feed, scene: Scene, states: seq<Shot>, drawn: seq<Shot>): Shot {
    match feed
    case FromInput(name) => scene.Look(name)
    case FromStep(k) => if k < |drawn| then drawn[k] else Shot(Blank, scene.Start())
    case FromState(k) => if k < |states| then states[k] else Shot(Blank, scene.Start())
  }

  function ReadUses(uses: seq<(string, Feed)>, scene: Scene, states: seq<Shot>, drawn: seq<Shot>):
    seq<(string, Picture)>
  {
    seq(|uses|, i requires 0 <= i < |uses| => (uses[i].0, Read(uses[i].1, scene, states, drawn).picture))
  }

  function Sized(size: Size, scene: Scene, states: seq<Shot>, drawn: seq<Shot>): Extent {
    match size
    case Scaled(of, scale) => Part(Read(of, scene, states, drawn).extent, scale)
    case Like(of) => Read(of, scene, states, drawn).extent
  }

  function Draw(step: Step, scene: Scene, states: seq<Shot>, drawn: seq<Shot>): Shot {
    Shot(Drawn(Program(step.effect, step.frag, step.signature, step.key, step.perPart), step.uniforms, step.format,
               Read(step.first, scene, states, drawn).picture, ReadUses(step.uses, scene, states, drawn)),
         Sized(step.size, scene, states, drawn))
  }

  /** Every step's result, in order. */
  function Run(steps: seq<Step>, scene: Scene, states: seq<Shot>): (drawn: seq<Shot>)
    ensures |drawn| == |steps|
  {
    if steps == [] then []
    else
      var before := Run(steps[..|steps| - 1], scene, states);
      before + [Draw(steps[|steps| - 1], scene, states, before)]
  }

  /** A state's texture: what its last step drew. */
  function Last(drawn: seq<Shot>, start: Extent): Shot {
    if drawn == [] then Shot(Blank, start) else drawn[|drawn| - 1]
  }

  function MakeState(state: StatePlan, made: seq<Shot>): Shot {
    var start := Part(Whole, state.scale);
    Last(Run(state.steps, Own(start), made), start)
  }

  /** Every state's texture, made in order from the part's own inputs. */
  function Make(states: seq<StatePlan>): (made: seq<Shot>)
    ensures |made| == |states|
  {
    if states == [] then []
    else
      var before := Make(states[..|states| - 1]);
      before + [MakeState(states[|states| - 1], before)]
  }

  function RunPlan(plan: Plan, scene: Scene): (drawn: seq<Shot>)
    ensures |drawn| == |plan.steps|
  {
    Run(plan.steps, scene, Make(plan.states))
  }

  /** What a run of a plan hands on: its last step's result, or its first input. */
  function Outcome(plan: Plan, scene: Scene): Shot {
    var drawn := RunPlan(plan, scene);
    if drawn == [] then scene.Look(plan.firstInput) else drawn[|drawn| - 1]
  }

  // ---- Well-formed plans ----

  predicate FeedOk(feed: Feed, steps: nat, states: nat) {
    match feed
    case FromInput(_) => true
    case FromStep(k) => k < steps
    case FromState(k) => k < states
  }

  /** A step reads only earlier steps and states, and at most eight textures. */
  ghost predicate StepOk(step: Step, index: nat, states: nat) {
    && FeedOk(step.first, index, states) && FeedOk(step.size.of, index, states)
    && |step.uses| + 1 <= MOST_TEXTURES
    && forall i :: 0 <= i < |step.uses| ==> FeedOk(step.uses[i].1, index, states)
  }

  ghost predicate StepsOk(steps: seq<Step>, states: nat) {
    forall i :: 0 <= i < |steps| ==> StepOk(steps[i], i, states)
  }

  /** Each state reads only its own earlier steps and earlier states. */
  ghost predicate StatesOk(states: seq<StatePlan>) {
    forall j :: 0 <= j < |states| ==> StepsOk(states[j].steps, j)
  }

  ghost predicate PlanOk(plan: Plan) {
    StatesOk(plan.states) && StepsOk(plan.steps, |plan.states|)
  }

  /** The passes of some states, all together. */
  function Passes(states: seq<StatePlan>): nat {
    if states == [] then 0 else Passes(states[..|states| - 1]) + |states[|states| - 1].steps|
  }

  // ---- Running further changes nothing already drawn ----

  lemma RunStep(steps: seq<Step>, step: Step, scene: Scene, states: seq<Shot>)
    ensures Run(steps + [step], scene, states)
        == Run(steps, scene, states) + [Draw(step, scene, states, Run(steps, scene, states))]
  {
    assert (steps + [step])[..|steps|] == steps;
  }

  lemma MakeOne(states: seq<StatePlan>, state: StatePlan)
    ensures Make(states + [state]) == Make(states) + [MakeState(state, Make(states))]
  {
    assert (states + [state])[..|states|] == states;
  }

  lemma {:induction false} RunPrefix(steps: seq<Step>, n: nat, scene: Scene, states: seq<Shot>)
    requires n <= |steps|
    ensures Run(steps, scene, states)[..n] == Run(steps[..n], scene, states)
  {
    if n < |steps| {
      var before := steps[..|steps| - 1];
      RunPrefix(before, n, scene, states);
      assert before[..n] == steps[..n];
    } else {
      assert steps[..n] == steps;
    }
  }

  /** Each step's result, in terms of those before it. */
  lemma RunAt(steps: seq<Step>, k: nat, scene: Scene, states: seq<Shot>)
    requires k < |steps|
    ensures Run(steps, scene, states)[k] == Draw(steps[k], scene, states, Run(steps[..k], scene, states))
    ensures Run(steps, scene, states)[..k] == Run(steps[..k], scene, states)
  {
    RunPrefix(steps, k + 1, scene, states);
    RunPrefix(steps, k, scene, states);
    assert steps[..k + 1][..k] == steps[..k];
  }

  lemma {:induction false} MakePrefix(states: seq<StatePlan>, n: nat)
    requires n <= |states|
    ensures Make(states)[..n] == Make(states[..n])
  {
    if n < |states| {
      MakePrefix(states[..|states| - 1], n);
      assert states[..|states| - 1][..n] == states[..n];
    } else {
      assert states[..n] == states;
    }
  }

  /** A step reads the same with more states made and more steps drawn. */
  lemma DrawSame(step: Step, scene: Scene, states: seq<Shot>, more: seq<Shot>, drawn: seq<Shot>, further: seq<Shot>)
    requires states <= more && drawn <= further && StepOk(step, |drawn|, |states|)
    ensures Draw(step, scene, states, drawn) == Draw(step, scene, more, further)
  {
    assert ReadUses(step.uses, scene, states, drawn) == ReadUses(step.uses, scene, more, further);
  }

  lemma {:induction false} RunMoreStates(steps: seq<Step>, scene: Scene, states: seq<Shot>, more: seq<Shot>)
    requires states <= more && StepsOk(steps, |states|)
    ensures Run(steps, scene, states) == Run(steps, scene, more)
  {
    if steps != [] {
      var before := steps[..|steps| - 1];
      RunMoreStates(before, scene, states, more);
      var drawn := Run(before, scene, states);
      DrawSame(steps[|steps| - 1], scene, states, more, drawn, drawn);
    }
  }
}
