/** Plans joined end to end. What a link was given becomes what the one before it drew,
    and the theorem is that the joined plan is their composition. */
module Chaining {
  import opened Effects
  import opened Pictures
  import opened MadeSoFar

  function ShiftUses(uses: seq<(string, Feed)>, move: Feed -> Feed): seq<(string, Feed)> {
    seq(|uses|, i requires 0 <= i < |uses| => (uses[i].0, move(uses[i].1)))
  }

  /** A step with its feeds moved. */
  function Shift(step: Step, move: Feed -> Feed): Step {
    step.(first := move(step.first), uses := ShiftUses(step.uses, move),
          size := if step.size.Scaled? then Scaled(move(step.size.of), step.size.scale) else Like(move(step.size.of)))
  }

  function ShiftAll(steps: seq<Step>, move: Feed -> Feed): seq<Step> {
    seq(|steps|, i requires 0 <= i < |steps| => Shift(steps[i], move))
  }

  /** Inside a state just the numbers of states move. */
  function InState(base: nat): Feed -> Feed {
    (feed: Feed) => match feed case FromState(k) => FromState(k + base) case _ => feed
  }

  /** In the main list steps and states move, and the first input is the link before. */
  function InMain(first: string, previous: Feed, steps: nat, states: nat): Feed -> Feed {
    (feed: Feed) =>
      match feed
      case FromStep(k) => FromStep(k + steps)
      case FromInput(name) => if name == first then previous else feed
      case FromState(k) => FromState(k + states)
  }

  function ShiftStates(states: seq<StatePlan>, base: nat): seq<StatePlan> {
    seq(|states|, j requires 0 <= j < |states| => states[j].(steps := ShiftAll(states[j].steps, InState(base))))
  }

  /** What the next link's first input reads. */
  function Previous(chained: Plan): Feed {
    if chained.steps == [] then FromInput(chained.firstInput) else FromStep(|chained.steps| - 1)
  }

  function LinkSteps(chained: Plan, link: Plan): seq<Step> {
    ShiftAll(link.steps, InMain(link.firstInput, Previous(chained), |chained.steps|, |chained.states|))
  }

  /** `linked` is `chained` with one more link. */
  ghost predicate Linked(chained: Plan, link: Plan, linked: Plan) {
    && linked.steps == chained.steps + LinkSteps(chained, link)
    && linked.states == chained.states + ShiftStates(link.states, |chained.states|)
    && linked.firstInput == chained.firstInput
    && Noted(chained.marks, linked.marks, LinkSteps(chained, link), ShiftStates(link.states, |chained.states|))
  }

  // ---- Marking a step ----

  function MarkUses(marks: Reads, uses: seq<(string, Feed)>): Reads {
    if uses == [] then marks else Mark(MarkUses(marks, uses[..|uses| - 1]), uses[|uses| - 1].1)
  }

  function MarkStep(marks: Reads, step: Step): Reads { MarkUses(Mark(marks, step.first), step.uses) }

  lemma MarkUsesNotes(marks: Reads, uses: seq<(string, Feed)>)
    ensures NotedUses(marks, MarkUses(marks, uses), uses)
  {
    if uses != [] {
      var before, last := uses[..|uses| - 1], uses[|uses| - 1];
      MarkUsesNotes(marks, before);
      NotedUse(marks, MarkUses(marks, before), before, last.0, last.1);
      assert before + [(last.0, last.1)] == uses;
    }
  }

  lemma MarkStepNotes(marks: Reads, step: Step)
    ensures Noted(marks, MarkStep(marks, step), [step], [])
  {
    MarkUsesNotes(Mark(marks, step.first), step.uses);
    forall name
      ensures Touched([step], [], name) <==> Touches(step, name)
    {
      if Touches(step, name) { assert AnyTouches([step], name) by { assert Touches([step][0], name); } }
    }
  }

  // ---- Chaining ----

  /** Shift and mark a list of steps, one at a time. */
  method ShiftSteps(steps: seq<Step>, move: Feed -> Feed, marks: Reads) returns (shifted: seq<Step>, marks': Reads)
    ensures shifted == ShiftAll(steps, move) && Noted(marks, marks', shifted, [])
  {
    shifted, marks' := [], marks;
    for i := 0 to |steps|
      invariant shifted == ShiftAll(steps[..i], move) && Noted(marks, marks', shifted, [])
    {
      var step := Shift(steps[i], move);
      MarkStepNotes(marks', step);
      NotedJoin(marks, marks', MarkStep(marks', step), shifted, [step], [], []);
      var none: seq<StatePlan> := [];
      assert none + none == none;
      marks' := MarkStep(marks', step);
      shifted := shifted + [step];
    }
    assert steps[..|steps|] == steps;
  }

  method Link(chained: Plan, link: Plan) returns (linked: Plan)
    ensures Linked(chained, link, linked)
  {
    var base := |chained.states|;
    var states, marks := [], chained.marks;
    var none: seq<Step> := [];
    for j := 0 to |link.states|
      invariant states == ShiftStates(link.states[..j], base) && Noted(chained.marks, marks, [], states)
    {
      var steps, more := ShiftSteps(link.states[j].steps, InState(base), marks);
      ghost var state := link.states[j].(steps := steps);
      TouchedMoved(steps, [], state, "self");
      TouchedMoved(steps, [], state, "backdrop");
      TouchedMoved(steps, [], state, "old");
      TouchedMoved(steps, [], state, "shape");
      assert [] + [state] == [state];
      NotedJoin(chained.marks, marks, more, none, none, states, [state]);
      assert none + none == none;
      marks := more;
      states := states + [link.states[j].(steps := steps)];
    }
    assert link.states[..|link.states|] == link.states;
    var steps, more := ShiftSteps(link.steps, InMain(link.firstInput, Previous(chained), |chained.steps|, base), marks);
    NotedJoin(chained.marks, marks, more, none, steps, states, []);
    assert none + steps == steps && states + [] == states;
    linked := Plan(chained.steps + steps, chained.states + states, more.(shape := more.shape || link.marks.shape),
                   chained.firstInput);
  }

  lemma ChainOfNone()
    ensures var none := Plan([], [], Reads(false, false, false, false), "self");
            PlanOk(none) && MarkedExactly(none) && forall scene: Scene :: Outcome(none, scene) == scene.Look("self")
  {}

  /** A plan is the first links of a chain. */
  ghost predicate ChainsTo(links: seq<Plan>, n: nat, chained: Plan)
    requires 0 < n <= |links|
  {
    && PlanOk(chained) && chained.firstInput == links[0].firstInput
    && (forall scene: Scene :: Outcome(chained, scene) == Composed(links[..n], scene))
    && (MarkedExactly(links[0]) ==> MarkedExactly(chained))
    && |chained.steps| == StepsIn(links[..n])
  }

  lemma ChainGrows(links: seq<Plan>, i: nat, chained: Plan, linked: Plan)
    requires 0 < i < |links| && ChainsTo(links, i, chained) && PlanOk(links[i]) && Linked(chained, links[i], linked)
    ensures ChainsTo(links, i + 1, linked)
  {
    hide PlanOk, MarkedExactly, Outcome;
    LinkOk(chained, links[i], linked);
    assert links[..i + 1][..i] == links[..i];
    forall scene: Scene
      ensures Outcome(linked, scene) == Composed(links[..i + 1], scene)
    {
      LinkComposes(chained, links[i], linked, scene);
    }
    if MarkedExactly(links[0]) { LinkMarks(chained, links[i], linked); }
  }

  /** A chain of links, empty or not, run as one plan. */
  method Chain(links: seq<Plan>) returns (chained: Plan)
    requires forall i :: 0 <= i < |links| ==> PlanOk(links[i])
    ensures PlanOk(chained)
    ensures forall scene: Scene :: Outcome(chained, scene) == Composed(links, scene)
    ensures (links != [] ==> MarkedExactly(links[0])) ==> MarkedExactly(chained)
    ensures chained.firstInput == if links == [] then "self" else links[0].firstInput
    ensures |chained.steps| == StepsIn(links)
  {
    if links == [] {
      ChainOfNone();
      return Plan([], [], Reads(false, false, false, false), "self");
    }
    chained := links[0];
    assert links[..1] == [links[0]] && links[..1][..0] == [];
    for i := 1 to |links|
      invariant ChainsTo(links, i, chained)
    {
      var linked := Link(chained, links[i]);
      ChainGrows(links, i, chained, linked);
      chained := linked;
    }
    assert links[..|links|] == links;
  }

  function StepsIn(links: seq<Plan>): nat {
    if links == [] then 0 else StepsIn(links[..|links| - 1]) + |links[|links| - 1].steps|
  }

  /** What a chain means: each link's result is the next link's first input. */
  function Composed(links: seq<Plan>, scene: Scene): Shot {
    if links == [] then scene.Look("self")
    else if |links| == 1 then Outcome(links[0], scene)
    else
      var last := links[|links| - 1];
      Outcome(last, Rebound(last.firstInput, Composed(links[..|links| - 1], scene), scene))
  }

  lemma LinkMarks(chained: Plan, link: Plan, linked: Plan)
    requires Linked(chained, link, linked) && MarkedExactly(chained)
    ensures MarkedExactly(linked)
  {
    NotedJoin(Reads(false, false, false, false), chained.marks, linked.marks, chained.steps, LinkSteps(chained, link),
              chained.states, ShiftStates(link.states, |chained.states|));
  }

  // ---- Evaluating a chain is composing its links ----

  lemma LinkOk(chained: Plan, link: Plan, linked: Plan)
    requires PlanOk(chained) && PlanOk(link) && Linked(chained, link, linked)
    ensures PlanOk(linked)
  {
    var n, m := |chained.steps|, |chained.states|;
    forall j | 0 <= j < |linked.states|
      ensures StepsOk(linked.states[j].steps, j)
    {
      if j < m {
        assert linked.states[j] == chained.states[j];
      } else {
        assert StepsOk(link.states[j - m].steps, j - m);
        forall i | 0 <= i < |linked.states[j].steps| ensures StepOk(linked.states[j].steps[i], i, j) {
          assert StepOk(link.states[j - m].steps[i], i, j - m);
        }
      }
    }
    forall i | 0 <= i < |linked.steps|
      ensures StepOk(linked.steps[i], i, |linked.states|)
    {
      if i < n { assert StepOk(chained.steps[i], i, m); } else { assert StepOk(link.steps[i - n], i - n, |link.states|); }
    }
  }

  /** A moved feed reads what it read, after the steps and states it moved past. */
  lemma StateFeedMoved(feed: Feed, scene: Scene, before: seq<Shot>, made: seq<Shot>, drawn: seq<Shot>)
    requires FeedOk(feed, |drawn|, |made|)
    ensures Read(InState(|before|)(feed), scene, before + made, drawn) == Read(feed, scene, made, drawn)
  {}

  lemma StateStepMoved(step: Step, scene: Scene, before: seq<Shot>, made: seq<Shot>, drawn: seq<Shot>)
    requires StepOk(step, |drawn|, |made|)
    ensures Draw(Shift(step, InState(|before|)), scene, before + made, drawn) == Draw(step, scene, made, drawn)
  {
    var move := InState(|before|);
    StateFeedMoved(step.first, scene, before, made, drawn);
    StateFeedMoved(step.size.of, scene, before, made, drawn);
    forall i | 0 <= i < |step.uses|
      ensures Read(move(step.uses[i].1), scene, before + made, drawn) == Read(step.uses[i].1, scene, made, drawn)
    {
      StateFeedMoved(step.uses[i].1, scene, before, made, drawn);
    }
    assert ReadUses(ShiftUses(step.uses, move), scene, before + made, drawn) == ReadUses(step.uses, scene, made, drawn);
  }

  lemma {:induction false} StateStepsMoved(steps: seq<Step>, scene: Scene, before: seq<Shot>, made: seq<Shot>)
    requires StepsOk(steps, |made|)
    ensures Run(ShiftAll(steps, InState(|before|)), scene, before + made) == Run(steps, scene, made)
  {
    if steps != [] {
      var most, move := steps[..|steps| - 1], InState(|before|);
      StateStepsMoved(most, scene, before, made);
      assert ShiftAll(steps, move)[..|steps| - 1] == ShiftAll(most, move);
      StateStepMoved(steps[|steps| - 1], scene, before, made, Run(most, scene, made));
    }
  }

  lemma {:induction false} StatesMoved(chained: seq<StatePlan>, states: seq<StatePlan>)
    requires StatesOk(states)
    ensures Make(chained + ShiftStates(states, |chained|)) == Make(chained) + Make(states)
  {
    hide Run, StepOk, InState, ShiftAll;
    var n := |states|;
    if n == 0 {
      assert chained + ShiftStates(states, |chained|) == chained;
    } else {
      var most, last := states[..n - 1], states[n - 1];
      StatesMoved(chained, most);
      var moved := ShiftStates(states, |chained|);
      assert chained + moved == (chained + ShiftStates(most, |chained|)) + [moved[n - 1]];
      MakeOne(chained + ShiftStates(most, |chained|), moved[n - 1]);
      assert StepsOk(last.steps, n - 1);
      StateStepsMoved(last.steps, Own(Part(Whole, last.scale)), Make(chained), Make(most));
    }
  }

  lemma MainFeedMoved(feed: Feed, first: string, previous: Feed, scene: Scene, before: seq<Shot>, made: seq<Shot>,
                      earlier: seq<Shot>, drawn: seq<Shot>)
    requires FeedOk(feed, |drawn|, |made|) && FeedOk(previous, |earlier|, 0)
    ensures var to := Read(previous, scene, before, earlier);
            Read(InMain(first, previous, |earlier|, |before|)(feed), scene, before + made, earlier + drawn)
              == Read(feed, Rebound(first, to, scene), made, drawn)
  {}

  lemma MainStepMoved(step: Step, first: string, previous: Feed, scene: Scene, before: seq<Shot>, made: seq<Shot>,
                      earlier: seq<Shot>, drawn: seq<Shot>)
    requires StepOk(step, |drawn|, |made|) && FeedOk(previous, |earlier|, 0)
    ensures var to := Read(previous, scene, before, earlier);
            Draw(Shift(step, InMain(first, previous, |earlier|, |before|)), scene, before + made, earlier + drawn)
              == Draw(step, Rebound(first, to, scene), made, drawn)
  {
    var move := InMain(first, previous, |earlier|, |before|);
    var inner := Rebound(first, Read(previous, scene, before, earlier), scene);
    MainFeedMoved(step.first, first, previous, scene, before, made, earlier, drawn);
    MainFeedMoved(step.size.of, first, previous, scene, before, made, earlier, drawn);
    forall i | 0 <= i < |step.uses|
      ensures Read(move(step.uses[i].1), scene, before + made, earlier + drawn)
          == Read(step.uses[i].1, inner, made, drawn)
    {
      MainFeedMoved(step.uses[i].1, first, previous, scene, before, made, earlier, drawn);
    }
    assert ReadUses(ShiftUses(step.uses, move), scene, before + made, earlier + drawn)
        == ReadUses(step.uses, inner, made, drawn);
  }

  lemma {:induction false} MainStepsMoved(chained: seq<Step>, steps: seq<Step>, first: string, previous: Feed,
                                          scene: Scene, before: seq<Shot>, made: seq<Shot>)
    requires StepsOk(chained, |before|) && StepsOk(steps, |made|) && FeedOk(previous, |chained|, 0)
    ensures var earlier := Run(chained, scene, before);
            var to := Read(previous, scene, before, earlier);
            Run(chained + ShiftAll(steps, InMain(first, previous, |chained|, |before|)), scene, before + made)
              == earlier + Run(steps, Rebound(first, to, scene), made)
  {
    hide Read, Draw, Shift, InMain;
    var n, move := |steps|, InMain(first, previous, |chained|, |before|);
    var earlier := Run(chained, scene, before);
    if n == 0 {
      assert chained + ShiftAll(steps, move) == chained;
      RunMoreStates(chained, scene, before, before + made);
    } else {
      var most := steps[..n - 1];
      MainStepsMoved(chained, most, first, previous, scene, before, made);
      var moved := ShiftAll(steps, move);
      assert chained + moved == (chained + ShiftAll(most, move)) + [moved[n - 1]];
      RunStep(chained + ShiftAll(most, move), moved[n - 1], scene, before + made);
      var inner := Rebound(first, Read(previous, scene, before, earlier), scene);
      MainStepMoved(steps[n - 1], first, previous, scene, before, made, earlier, Run(most, inner, made));
    }
  }

  /** One link: its first input reads what the chain before it hands on, its states
      are made from the part's own inputs, and nothing earlier changes. */
  lemma LinkComposes(chained: Plan, link: Plan, linked: Plan, scene: Scene)
    requires PlanOk(chained) && PlanOk(link) && Linked(chained, link, linked)
    ensures var inner := Rebound(link.firstInput, Outcome(chained, scene), scene);
            && Make(linked.states) == Make(chained.states) + Make(link.states)
            && RunPlan(linked, scene) == RunPlan(chained, scene) + RunPlan(link, inner)
            && Outcome(linked, scene) == Outcome(link, inner)
  {
    hide Run, StatesOk, StepsOk, ShiftStates;
    StatesMoved(chained.states, link.states);
    MainStepsMoved(chained.steps, link.steps, link.firstInput, Previous(chained), scene, Make(chained.states),
                   Make(link.states));
  }
}
