/** What a run of a flattened plan hands on, and what its stages mean: read from the
    stages, exactly when the two are one. */
module Handing {
  import opened Basics
  import opened Effects
  import opened Flattening
  import opened Interpreter
  import opened Pictures

  /** What stands for the last thing drawn, or for the first input where nothing has
      been: each saved name, what the effect was given, and the last result; and how
      many passes have been drawn. */
  datatype Hand = Hand(saved: map<string, bool>, given: bool, last: bool, turns: nat)

  /** After a pass only its own result does. */
  function AfterPass(hand: Hand): Hand { Hand(Dropped(hand.saved), false, true, hand.turns + 1) }

  function Dropped(saved: map<string, bool>): map<string, bool> { map name | name in saved :: false }

  /** Whether a name read now does, in an effect whose first input is named `first`. */
  function Reads(hand: Hand, first: string, root: string, name: string): bool {
    if name in hand.saved then hand.saved[name]
    else if name == first then hand.given
    else hand.turns == 0 && name == root
  }

  ghost function HandAfter(lib: Library, stack: seq<string>, first: string, root: string, stages: seq<Stage>,
                           hand: Hand): Hand
    decreases lib.names - Names(stack), stages, 0
  {
    if stages == [] then hand
    else HandAfter(lib, stack, first, root, stages[1..], HandAfterOne(lib, stack, first, root, stages[0], hand))
  }

  ghost function HandAfterOne(lib: Library, stack: seq<string>, first: string, root: string, stage: Stage,
                              hand: Hand): Hand
    decreases lib.names - Names(stack), stage, 0
  {
    match stage
    case Pass(_, _, _, _, _, _) => AfterPass(hand)
    case Save(name) => hand.(saved := hand.saved[name := hand.last])
    case Get(name) => hand.(last := Reads(hand, first, root, name))
    case Repeat(over, _, body) => HandAfterEach(lib, stack, first, root, |over|, body, hand)
    case State(name, _, _, _, _) => hand.(saved := hand.saved[name := false])
    case Use(effect, params) =>
      var binding := lib.Resolve(effect, params);
      if effect in stack || binding.Err? then hand else
      assert lib.names - Names(stack + [effect]) < lib.names - Names(stack) by { FewerLeft(lib.names, stack, effect); }
      AfterUse(hand, HandAfter(lib, stack + [effect], FirstInput(binding.value), root, binding.value.stages,
                               Hand(map[], hand.last, hand.last, hand.turns)))
  }

  /** A used effect leaves its result, and what it drew over. */
  function AfterUse(hand: Hand, inner: Hand): Hand {
    if inner.turns == hand.turns then hand.(last := inner.last)
    else Hand(Dropped(hand.saved), false, inner.last, inner.turns)
  }

  ghost function HandAfterEach(lib: Library, stack: seq<string>, first: string, root: string, times: nat,
                               body: seq<Stage>, hand: Hand): Hand
    decreases lib.names - Names(stack), body, times + 1
  {
    if times == 0 then hand
    else HandAfterEach(lib, stack, first, root, times - 1, body, HandAfter(lib, stack, first, root, body, hand))
  }

  // ---- The reading is of what is played ----

  /** A value that is the last thing drawn, or the first input where nothing has been. */
  ghost predicate IsLast(val: Val, root: string, turns: nat) {
    if turns == 0 then val.origin == OfInput && val.shot.picture == Source(root)
    else val.origin == OfStep && val.turn == turns
  }

  ghost predicate Tells(flag: bool, val: Val, root: string, turns: nat) {
    val.turn <= turns && (flag <==> IsLast(val, root, turns))
  }

  ghost predicate Holds(hand: Hand, e: Env, w: Walk, root: string) {
    && hand.turns == e.Turns() && Tells(hand.last, e.last, root, e.Turns())
    && w.given.Some? && Tells(hand.given, w.given.value, root, e.Turns())
    && hand.saved.Keys == e.saved.Keys
    && forall name :: name in e.saved ==> Tells(hand.saved[name], e.saved[name], root, e.Turns())
  }

  /** Once more is drawn, what there was is no longer the last. */
  lemma DrawnOver(hand: Hand, e: Env, e': Env, w: Walk, root: string, last: bool)
    requires Holds(hand, e, w, root) && e'.Turns() > e.Turns() && e'.saved == e.saved
    requires Tells(last, e'.last, root, e'.Turns())
    ensures Holds(Hand(Dropped(hand.saved), false, last, e'.Turns()), e', w, root)
  {}

  lemma PassHands(w: Walk, stage: Stage, e: Env, root: string, hand: Hand)
    requires stage.Pass? && Holds(hand, e, w, root)
    ensures var played := PlayPass(w, stage, e);
            played.Ok? ==> Holds(AfterPass(hand), played.value, w, root) && played.value.Turns() > e.Turns()
  {
    var played := PlayPass(w, stage, e);
    if played.Ok? { DrawnOver(hand, e, played.value, w, root, true); }
  }

  lemma GetHands(w: Walk, e: Env, root: string, hand: Hand, name: string)
    requires Holds(hand, e, w, root) && Lookup(w, e.saved, name).Ok?
    ensures Tells(Reads(hand, w.cx.first, root, name), Lookup(w, e.saved, name).value, root, e.Turns())
  {}

  lemma {:induction false} PlayHands(lib: Library, w: Walk, stages: seq<Stage>, e: Env, root: string, hand: Hand)
    requires Holds(hand, e, w, root)
    ensures var played := Play(lib, w, stages, e);
            played.Ok? ==>
              && Holds(HandAfter(lib, w.stack, w.cx.first, root, stages, hand), played.value, w, root)
              && played.value.Turns() >= e.Turns()
    decreases lib.names - Names(w.stack), stages, 0
  {
    hide Holds;
    if stages != [] {
      OneHands(lib, w, stages[0], e, root, hand);
      var next := PlayOne(lib, w, stages[0], e);
      if next.Ok? {
        PlayHands(lib, w, stages[1..], next.value, root, HandAfterOne(lib, w.stack, w.cx.first, root, stages[0], hand));
      }
    }
  }

  lemma {:induction false} OneHands(lib: Library, w: Walk, stage: Stage, e: Env, root: string, hand: Hand)
    requires Holds(hand, e, w, root)
    ensures var played := PlayOne(lib, w, stage, e);
            played.Ok? ==>
              && Holds(HandAfterOne(lib, w.stack, w.cx.first, root, stage, hand), played.value, w, root)
              && played.value.Turns() >= e.Turns()
    decreases lib.names - Names(w.stack), stage, 0
  {
    match stage
    case Pass(_, _, _, _, _, _) => PassHands(w, stage, e, root, hand);
    case Save(_) =>
    case Get(name) => if Lookup(w, e.saved, name).Ok? { GetHands(w, e, root, hand, name); }
    case State(_, _, _, _, _) =>
    case Repeat(over, asName, body) => EachHands(lib, w, over, asName, body, e, root, hand);
    case Use(effect, params) =>
      var binding := lib.Resolve(effect, params);
      if effect !in w.stack && binding.Ok? {
        FewerLeft(lib.names, w.stack, effect);
        UseHands(lib, w, effect, binding.value, e, root, hand);
      }
  }

  lemma {:induction false} UseHands(lib: Library, w: Walk, effect: string, binding: Binding, e: Env, root: string,
                                    hand: Hand)
    requires effect in lib.names && effect !in w.stack && Holds(hand, e, w, root)
    ensures var played := PlayBound(lib, w.stack, w.start, effect, binding, e);
            var inner := HandAfter(lib, w.stack + [effect], FirstInput(binding), root, binding.stages,
                                   Hand(map[], hand.last, hand.last, hand.turns));
            played.Ok? ==> Holds(AfterUse(hand, inner), played.value, w, root) && played.value.Turns() >= e.Turns()
    decreases lib.names - Names(w.stack + [effect]), binding.stages, 1
  {
    var cx := ContextOf(effect, binding);
    var inside := Walk(cx, Some(e.last), w.stack + [effect], w.start, []);
    var begun := Env(e.last, map[], [], e.count, e.trace, e.kept);
    var hand' := Hand(map[], hand.last, hand.last, hand.turns);
    PlayHands(lib, inside, binding.stages, begun, root, hand');
    var played := PlayBound(lib, w.stack, w.start, effect, binding, e);
    if played.Ok? && played.value.Turns() > e.Turns() {
      DrawnOver(hand, e, played.value, w, root,
                HandAfter(lib, w.stack + [effect], FirstInput(binding), root, binding.stages, hand').last);
    }
  }

  lemma {:induction false} EachHands(lib: Library, w: Walk, over: seq<real>, asName: string, body: seq<Stage>, e: Env,
                                     root: string, hand: Hand)
    requires Holds(hand, e, w, root)
    ensures var played := PlayEach(lib, w, over, asName, body, e);
            played.Ok? ==>
              && Holds(HandAfterEach(lib, w.stack, w.cx.first, root, |over|, body, hand), played.value, w, root)
              && played.value.Turns() >= e.Turns()
    decreases lib.names - Names(w.stack), body, |over| + 1
  {
    if over != [] {
      var more := w.(extra := w.extra + [(asName, over[0])]);
      PlayHands(lib, more, body, e, root, hand);
      var next := Play(lib, more, body, e);
      if next.Ok? {
        EachHands(lib, w, over[1..], asName, body, next.value, root,
                  HandAfter(lib, w.stack, w.cx.first, root, body, hand));
      }
    }
  }

  /** The feed of what a run of a plan hands on. */
  function HandedOn(plan: Plan): Feed {
    if plan.steps == [] then FromInput(plan.firstInput) else FromStep(|plan.steps| - 1)
  }

  /** Whether an effect's stages end on the last thing they draw. */
  ghost predicate EndsOnLast(lib: Library, root: string, binding: Binding) {
    HandAfter(lib, [root], FirstInput(binding), FirstInput(binding), binding.stages, Hand(map[], true, true, 0)).last
  }

  /** The dropped feed of a flatten is the feed of what a run hands on exactly where
      the stages end on the last thing they draw; and then a run hands on just what
      the stages mean. */
  lemma HandsOnItsResult(lib: Library, root: string, overrides: Params, plan: Plan, env: Env, feed: Feed)
    requires PlayEffect(lib, root, overrides) == Ok(env) && Flattened(plan, env, feed)
    requires lib.Resolve(root, overrides).Ok? && plan.firstInput == FirstInput(lib.Resolve(root, overrides).value)
    ensures feed == HandedOn(plan) <==> EndsOnLast(lib, root, lib.Resolve(root, overrides).value)
    ensures feed == HandedOn(plan) ==> Outcome(plan, Own(Whole)) == env.last.shot
  {
    var binding := lib.Resolve(root, overrides).value;
    var source := Val(OfInput, Shot(Source(FirstInput(binding)), Whole), 0);
    var begun := Env(source, map[], [], 0, [], []);
    assert [] + [root] == [root];
    PlayHands(lib, Walk(ContextOf(root, binding), Some(source), [root], Whole, []), binding.stages, begun,
              FirstInput(binding), Hand(map[], true, true, 0));
    assert IsLast(env.last, plan.firstInput, |plan.steps|) <==> feed == HandedOn(plan);
    OutcomeIsLastDrawn(plan, env, feed);
  }

  /** Getting back what was just drawn ends on it; getting back what was drawn over
      does not. */
  lemma GetsTell(lib: Library, pass: Stage, inputs: seq<string>, params: Params)
    requires pass.Pass?
    ensures EndsOnLast(lib, "effect", Binding([pass, Save("kept"), Get("kept")], inputs, params))
    ensures EndsOnLast(lib, "effect", Binding([Get("self"), Save("kept"), pass], ["self"], params))
    ensures !EndsOnLast(lib, "effect", Binding([Save("kept"), pass, Get("kept")], inputs, params))
  {
    ThreeStages(lib, pass, Save("kept"), Get("kept"), if inputs == [] then "self" else inputs[0]);
    ThreeStages(lib, Get("self"), Save("kept"), pass, "self");
    ThreeStages(lib, Save("kept"), pass, Get("kept"), if inputs == [] then "self" else inputs[0]);
  }

  lemma ThreeStages(lib: Library, a: Stage, b: Stage, c: Stage, first: string)
    ensures var start := Hand(map[], true, true, 0);
            var one := HandAfterOne(lib, ["effect"], first, first, a, start);
            var two := HandAfterOne(lib, ["effect"], first, first, b, one);
            HandAfter(lib, ["effect"], first, first, [a, b, c], start) == HandAfterOne(lib, ["effect"], first, first, c, two)
  {
    hide HandAfterOne;
    var stages := [a, b, c];
    assert stages[1..] == [b, c] && stages[1..][1..] == [c] && stages[1..][1..][1..] == [];
    var start := Hand(map[], true, true, 0);
    var one := HandAfterOne(lib, ["effect"], first, first, a, start);
    var two := HandAfterOne(lib, ["effect"], first, first, b, one);
    assert HandAfter(lib, ["effect"], first, first, stages[1..], one)
        == HandAfter(lib, ["effect"], first, first, stages[1..][1..], two);
  }
}
