/** What a flatten has made so far, what it means, and what each stage adds. */
module MadeSoFar {
  import opened Basics
  import opened Effects
  import opened Pictures
  import opened Interpreter

  /** The states and steps made, the scope's names and levels, the last result, the
      passes counted and the inputs marked. */
  datatype Made = Made(
    states: seq<StatePlan>, out: seq<Step>, saved: map<string, Feed>, levels: seq<Feed>, last: Feed, count: nat,
      marks: Reads)

  function OriginOf(feed: Feed): Origin {
    match feed case FromInput(_) => OfInput case FromStep(_) => OfStep case FromState(_) => OfState
  }

  function TurnOf(feed: Feed): nat { if feed.FromStep? then feed.k + 1 else 0 }

  function Drawn(states: seq<StatePlan>, out: seq<Step>, start: Extent): seq<Shot> {
    Run(out, Own(start), Make(states))
  }

  /** The value a feed stands for. */
  function Means(feed: Feed, states: seq<StatePlan>, out: seq<Step>, start: Extent): Val {
    Val(OriginOf(feed), Read(feed, Own(start), Make(states), Drawn(states, out, start)), TurnOf(feed))
  }

  function Meant(m: Made, feed: Feed, start: Extent): Val { Means(feed, m.states, m.out, start) }

  function KeptOf(states: seq<StatePlan>): seq<Kept> {
    seq(|states|,
        i requires 0 <= i < |states| =>
          Kept(states[i].name, states[i].format, states[i].scale, states[i].depends,
               Drawn(states[..i], states[i].steps, Part(Whole, states[i].scale))))
  }

  /** What has been made, as the interpreter sees it. */
  function EnvOf(m: Made, start: Extent): Env {
    Env(Meant(m, m.last, start),
        map name | name in m.saved :: Meant(m, m.saved[name], start),
        seq(|m.levels|, i requires 0 <= i < |m.levels| => Meant(m, m.levels[i], start).shot.extent),
        m.count,
        Drawn(m.states, m.out, start),
        KeptOf(m.states))
  }

  ghost predicate Reaches(m: Made, feed: Feed) { FeedOk(feed, |m.out|, |m.states|) }

  /** Every feed held reads something made. */
  ghost predicate Formed(m: Made) {
    && StatesOk(m.states) && StepsOk(m.out, |m.states|) && Reaches(m, m.last) && m.count <= MOST_STEPS
    && (forall name :: name in m.saved ==> Reaches(m, m.saved[name]))
    && (forall i :: 0 <= i < |m.levels| ==> Reaches(m, m.levels[i]))
  }

  // ---- What is marked as read ----

  predicate Touches(step: Step, name: string) {
    step.first == FromInput(name) || exists i :: 0 <= i < |step.uses| && step.uses[i].1 == FromInput(name)
  }

  predicate AnyTouches(steps: seq<Step>, name: string) {
    exists i :: 0 <= i < |steps| && Touches(steps[i], name)
  }

  /** Whether some step or some state's step reads an input. */
  predicate Touched(steps: seq<Step>, states: seq<StatePlan>, name: string) {
    AnyTouches(steps, name) || exists j :: 0 <= j < |states| && AnyTouches(states[j].steps, name)
  }

  /** The marks after these steps and states, given the marks before them. */
  ghost predicate Noted(marks: Reads, marks': Reads, steps: seq<Step>, states: seq<StatePlan>) {
    && (marks'.own <==> marks.own || Touched(steps, states, "self"))
    && (marks'.backdrop <==> marks.backdrop || Touched(steps, states, "backdrop"))
    && (marks'.before <==> marks.before || Touched(steps, states, "old"))
    && (marks.shape || Touched(steps, states, "shape") ==> marks'.shape)
  }

  /** A plan's marks say just which inputs of the frame its steps and states read. */
  ghost predicate MarkedExactly(plan: Plan) {
    Noted(Reads(false, false, false, false), plan.marks, plan.steps, plan.states)
  }

  function Mark(marks: Reads, feed: Feed): Reads {
    if feed == FromInput("self") then marks.(own := true)
    else if feed == FromInput("backdrop") then marks.(backdrop := true)
    else if feed == FromInput("shape") then marks.(shape := true)
    else if feed == FromInput("old") then marks.(before := true)
    else marks
  }

  // ---- Growth ----

  /** `m'` is `m` with more made: nothing already made has changed, each pass is
      counted once and each input read is marked. */
  ghost predicate Grows(m: Made, m': Made) {
    && m.states <= m'.states && m.out <= m'.out
    && m'.count - m.count == (|m'.out| - |m.out|) + (Passes(m'.states) - Passes(m.states))
    && Noted(m.marks, m'.marks, m'.out[|m.out|..], m'.states[|m.states|..])
  }

  lemma AnyTouchesJoin(a: seq<Step>, b: seq<Step>, name: string)
    ensures AnyTouches(a + b, name) <==> AnyTouches(a, name) || AnyTouches(b, name)
  {
    if i :| 0 <= i < |b| && Touches(b[i], name) { assert Touches((a + b)[|a| + i], name); }
    if i :| 0 <= i < |a| && Touches(a[i], name) { assert Touches((a + b)[i], name); }
  }

  lemma TouchedJoin(a: seq<Step>, b: seq<Step>, s: seq<StatePlan>, t: seq<StatePlan>, name: string)
    ensures Touched(a + b, s + t, name) <==> Touched(a, s, name) || Touched(b, t, name)
  {
    AnyTouchesJoin(a, b, name);
    if j :| 0 <= j < |t| && AnyTouches(t[j].steps, name) { assert AnyTouches((s + t)[|s| + j].steps, name); }
    if j :| 0 <= j < |s| && AnyTouches(s[j].steps, name) { assert AnyTouches((s + t)[j].steps, name); }
  }

  lemma NotedJoin(k: Reads, l: Reads, m: Reads, a: seq<Step>, b: seq<Step>, s: seq<StatePlan>, t: seq<StatePlan>)
    requires Noted(k, l, a, s) && Noted(l, m, b, t)
    ensures Noted(k, m, a + b, s + t)
  {
    hide Touched;
    TouchedJoin(a, b, s, t, "self");
    TouchedJoin(a, b, s, t, "backdrop");
    TouchedJoin(a, b, s, t, "old");
    TouchedJoin(a, b, s, t, "shape");
  }

  lemma GrowsOn(a: Made, b: Made, c: Made)
    requires Grows(a, b) && Grows(b, c)
    ensures Grows(a, c)
  {
    NotedJoin(a.marks, b.marks, c.marks, b.out[|a.out|..], c.out[|b.out|..], b.states[|a.states|..],
              c.states[|b.states|..]);
    assert c.out[|a.out|..] == b.out[|a.out|..] + c.out[|b.out|..];
    assert c.states[|a.states|..] == b.states[|a.states|..] + c.states[|b.states|..];
  }

  lemma GrowsSame(a: Made, b: Made)
    requires b.states == a.states && b.out == a.out && b.count == a.count && b.marks == a.marks
    ensures Grows(a, b)
  {}

  /** A feed means the same once more is made. */
  lemma MeansSame(feed: Feed, states: seq<StatePlan>, out: seq<Step>, states': seq<StatePlan>, out': seq<Step>,
                  start: Extent)
    requires states <= states' && out <= out'
    requires StepsOk(out, |states|) && FeedOk(feed, |out|, |states|)
    ensures Means(feed, states', out', start) == Means(feed, states, out, start)
    ensures Drawn(states', out', start)[..|out|] == Drawn(states, out, start)
  {
    hide Run, Make, StepsOk;
    MakePrefix(states', |states|);
    assert states'[..|states|] == states;
    RunMoreStates(out, Own(start), Make(states), Make(states'));
    RunPrefix(out', |out|, Own(start), Make(states'));
    assert out'[..|out|] == out;
  }

  lemma MeantSame(m: Made, m': Made, start: Extent)
    requires Formed(m) && m.states <= m'.states && m.out <= m'.out
    ensures forall feed :: Reaches(m, feed) ==> Meant(m', feed, start) == Meant(m, feed, start) && Reaches(m', feed)
  {
    forall feed | Reaches(m, feed)
      ensures Meant(m', feed, start) == Meant(m, feed, start)
    {
      MeansSame(feed, m.states, m.out, m'.states, m'.out, start);
    }
  }

  /** The step and the interpreter agree: what a walk must leave behind. */
  ghost predicate Follows(played: Result<Env, Error>, m: Made, m': Made, start: Extent, r: Result<Feed, Error>) {
    match played
    case Err(e) => r == Err(e)
    case Ok(env) => r == Ok(m'.last) && Formed(m') && Grows(m, m') && env == EnvOf(m', start)
  }

  // ---- A pass ----

  /** A name a stage reads, as a feed. */
  function FeedOf(cx: Context, given: Option<Feed>, saved: map<string, Feed>, name: string): Result<Feed, Error> {
    if name in saved then Ok(saved[name])
    else if "state:" + name in cx.inputs then Err(NotMade)
    else if name == cx.first && given.Some? then Ok(given.value)
    else if name in cx.inputs then Ok(FromInput(name))
    else Err(NotDeclared)
  }

  /** The interpreter's view of what a walk is given. */
  function WalkOf(m: Made, cx: Context, given: Option<Feed>, stack: seq<string>, start: Extent,
                  extra: seq<(string, real)>): Walk {
    Walk(cx, if given.Some? then Some(Meant(m, given.value, start)) else None, stack, start, extra)
  }

  lemma FeedMeans(m: Made, cx: Context, given: Option<Feed>, stack: seq<string>, start: Extent,
                  extra: seq<(string, real)>, name: string)
    requires Formed(m) && (given.Some? ==> Reaches(m, given.value))
    ensures var feed := FeedOf(cx, given, m.saved, name);
            var val := Lookup(WalkOf(m, cx, given, stack, start, extra), EnvOf(m, start).saved, name);
            match feed
            case Err(e) => val == Err(e)
            case Ok(f) => Reaches(m, f) && val == Ok(Meant(m, f, start))
  {}

  /** The pictures of the feeds bound so far. */
  function Bindings(m: Made, bound: seq<(string, Feed)>, start: Extent): seq<(string, Picture)> {
    ReadUses(bound, Own(start), Make(m.states), Drawn(m.states, m.out, start))
  }

  lemma BindOne(m: Made, bound: seq<(string, Feed)>, name: string, feed: Feed, start: Extent)
    ensures Bindings(m, bound + [(name, feed)], start)
        == Bindings(m, bound, start) + [(name, Meant(m, feed, start).shot.picture)]
  {}

  /** Once a name is refused, so is the list of names it is in. */
  lemma UsesFail(w: Walk, saved: map<string, Val>, uses: seq<string>, n: nat)
    requires n <= |uses| && LookupUses(w, saved, uses[..n]).Err?
    ensures LookupUses(w, saved, uses) == LookupUses(w, saved, uses[..n])
  {
    if n < |uses| {
      var before := uses[..|uses| - 1];
      assert before[..n] == uses[..n];
      UsesFail(w, saved, before, n);
    } else {
      assert uses[..n] == uses;
    }
  }

  /** The size a pass draws at, as a step holds it. */
  function StepSize(scale: real, levels: seq<Feed>, first: Feed): Size {
    if scale > 1.0 && levels != [] then Like(levels[|levels| - 1]) else Scaled(first, scale)
  }

  function StepLevels(scale: real, levels: seq<Feed>, first: Feed): seq<Feed> {
    if scale > 1.0 then (if levels == [] then [] else levels[..|levels| - 1])
    else if scale < 1.0 then levels + [first]
    else levels
  }

  /** The step a pass becomes. */
  function StepOf(cx: Context, extra: seq<(string, real)>, stage: Stage, size: Size, first: Feed,
                  uses: seq<(string, Feed)>): Step
    requires stage.Pass?
  {
    Step(cx.effect, stage.frag, Signature(cx.params + ExtraKinds(extra), UseNames(uses), cx.known), size, stage.format,
         first, uses, cx.uniforms + ExtraUniforms(extra), 0, stage.perPart)
  }

  /** What is made once a pass is drawn. */
  function PassMade(m: Made, cx: Context, extra: seq<(string, real)>, stage: Stage, first: Feed,
                    uses: seq<(string, Feed)>, marks: Reads): Made
    requires stage.Pass?
  {
    m.(out := m.out + [StepOf(cx, extra, stage, StepSize(stage.scale, m.levels, first), first, uses)],
       levels := StepLevels(stage.scale, m.levels, first), last := FromStep(|m.out|), count := m.count + 1,
         marks := marks)
  }

  lemma PassFormed(m: Made, cx: Context, extra: seq<(string, real)>, stage: Stage, first: Feed,
                   uses: seq<(string, Feed)>, marks: Reads)
    requires stage.Pass? && Formed(m) && m.count < MOST_STEPS && Reaches(m, first) && |uses| + 1 <= MOST_TEXTURES
    requires forall i :: 0 <= i < |uses| ==> Reaches(m, uses[i].1)
    ensures Formed(PassMade(m, cx, extra, stage, first, uses, marks))
  {}

  /** What a pass means: the picture drawn, sized as its level says. */
  lemma PassMeans(m: Made, cx: Context, extra: seq<(string, real)>, stage: Stage, first: Feed,
                  uses: seq<(string, Feed)>, marks: Reads, start: Extent)
    requires stage.Pass? && Formed(m) && m.count < MOST_STEPS && Reaches(m, first) && |uses| + 1 <= MOST_TEXTURES
    requires forall i :: 0 <= i < |uses| ==> Reaches(m, uses[i].1)
    ensures var m' := PassMade(m, cx, extra, stage, first, uses, marks);
            var shot := Shot(Picture.Drawn(Program(cx.effect, stage.frag,
                                                   Signature(cx.params + ExtraKinds(extra), UseNames(uses), cx.known),
                                                   0, stage.perPart),
                                           cx.uniforms + ExtraUniforms(extra), stage.format,
                                           Meant(m, first, start).shot.picture, Bindings(m, uses, start)),
                             PassExtent(stage.scale, EnvOf(m, start).levels, Meant(m, first, start).shot.extent));
            EnvOf(m', start) == Env(Val(OfStep, shot, |m.out| + 1), EnvOf(m, start).saved,
                                    LevelsAfter(stage.scale, EnvOf(m, start).levels, Meant(m, first, start).shot.extent),
                                    m.count + 1, EnvOf(m, start).trace + [shot], KeptOf(m.states))
  {
    hide Make, Run, StepsOk, StatesOk;
    var m' := PassMade(m, cx, extra, stage, first, uses, marks);
    var step := m'.out[|m.out|];
    MeantSame(m, m', start);
    RunStep(m.out, step, Own(start), Make(m.states));
    assert Meant(m', m'.last, start).shot == Draw(step, Own(start), Make(m.states), Drawn(m.states, m.out, start));
    var e, e' := EnvOf(m, start), EnvOf(m', start);
    assert e'.saved == e.saved;
    assert e'.levels == LevelsAfter(stage.scale, e.levels, Meant(m, first, start).shot.extent);
  }

  /** The feed a pass reads first. */
  function FirstOf(cx: Context, given: Option<Feed>, m: Made, stage: Stage): Result<Feed, Error>
    requires stage.Pass?
  {
    if stage.input.Some? then FeedOf(cx, given, m.saved, stage.input.value) else Ok(m.last)
  }

  lemma FirstMeans(m: Made, cx: Context, given: Option<Feed>, stack: seq<string>, start: Extent,
                   extra: seq<(string, real)>, stage: Stage)
    requires stage.Pass? && Formed(m) && (given.Some? ==> Reaches(m, given.value))
    ensures var w, e := WalkOf(m, cx, given, stack, start, extra), EnvOf(m, start);
            var val := if stage.input.Some? then Lookup(w, e.saved, stage.input.value) else Ok(e.last);
            match FirstOf(cx, given, m, stage)
            case Err(x) => val == Err(x)
            case Ok(f) => Reaches(m, f) && val == Ok(Meant(m, f, start))
  {
    if stage.input.Some? { FeedMeans(m, cx, given, stack, start, extra, stage.input.value); }
    hide Means, Lookup;
  }

  /** Why a pass is refused, in the order it is checked. */
  lemma PassRefused(m: Made, cx: Context, given: Option<Feed>, stack: seq<string>, start: Extent,
                    extra: seq<(string, real)>, stage: Stage)
    requires stage.Pass? && Formed(m) && (given.Some? ==> Reaches(m, given.value))
    ensures var w, e := WalkOf(m, cx, given, stack, start, extra), EnvOf(m, start);
            var uses := LookupUses(w, e.saved, stage.uses);
            && (m.count >= MOST_STEPS ==> PlayPass(w, stage, e) == Err(TooManyPasses))
            && (m.count < MOST_STEPS && FirstOf(cx, given, m, stage).Err? ==>
                  PlayPass(w, stage, e) == Err(FirstOf(cx, given, m, stage).error))
            && (m.count < MOST_STEPS && FirstOf(cx, given, m, stage).Ok? && uses.Err? ==>
                  PlayPass(w, stage, e) == Err(uses.error))
            && (m.count < MOST_STEPS && FirstOf(cx, given, m, stage).Ok? && uses.Ok?
                && |uses.value| + 1 > MOST_TEXTURES ==>
                  PlayPass(w, stage, e) == Err(TooManyTextures))
  {
    FirstMeans(m, cx, given, stack, start, extra, stage);
    hide Meant, Lookup, LookupUses, Formed;
  }

  /** A pass that finds all its names is drawn as the interpreter plays it. */
  lemma PassFollows(m: Made, cx: Context, given: Option<Feed>, stack: seq<string>, start: Extent,
                    extra: seq<(string, real)>,
                    stage: Stage, first: Feed, uses: seq<(string, Feed)>, marks: Reads)
    requires stage.Pass? && Formed(m) && m.count < MOST_STEPS && (given.Some? ==> Reaches(m, given.value))
    requires FirstOf(cx, given, m, stage) == Ok(first) && |uses| + 1 <= MOST_TEXTURES && NotedUses(m.marks, marks, uses)
    requires LookupUses(WalkOf(m, cx, given, stack, start, extra), EnvOf(m, start).saved, stage.uses)
        == Ok(Bindings(m, uses, start))
    requires forall i :: 0 <= i < |uses| ==> Reaches(m, uses[i].1)
    ensures Follows(PlayPass(WalkOf(m, cx, given, stack, start, extra), stage, EnvOf(m, start)), m,
                    PassMade(m, cx, extra, stage, first, uses, Mark(marks, first)), start, Ok(FromStep(|m.out|)))
  {
    var m' := PassMade(m, cx, extra, stage, first, uses, Mark(marks, first));
    FirstMeans(m, cx, given, stack, start, extra, stage);
    PassFormed(m, cx, extra, stage, first, uses, Mark(marks, first));
    PassGrows(m, cx, extra, stage, first, uses, marks);
    PassMeans(m, cx, extra, stage, first, uses, Mark(marks, first), start);
    assert UseNames(Bindings(m, uses, start)) == UseNames(uses);
    assert m'.last == FromStep(|m.out|);
    hide Formed, Grows, Meant, LookupUses, Lookup, NotedUses, PassMade, PassExtent, LevelsAfter;
  }

  /** The marks a bound list of uses leaves. */
  ghost predicate NotedUses(marks: Reads, marks': Reads, uses: seq<(string, Feed)>) {
    && (marks'.own <==> marks.own || exists i :: 0 <= i < |uses| && uses[i].1 == FromInput("self"))
    && (marks'.backdrop <==> marks.backdrop || exists i :: 0 <= i < |uses| && uses[i].1 == FromInput("backdrop"))
    && (marks'.before <==> marks.before || exists i :: 0 <= i < |uses| && uses[i].1 == FromInput("old"))
    && (marks.shape || (exists i :: 0 <= i < |uses| && uses[i].1 == FromInput("shape")) ==> marks'.shape)
  }

  lemma NotedUse(k: Reads, l: Reads, uses: seq<(string, Feed)>, name: string, feed: Feed)
    requires NotedUses(k, l, uses)
    ensures NotedUses(k, Mark(l, feed), uses + [(name, feed)])
  {
    UsedJoin(uses, name, feed, "self");
    UsedJoin(uses, name, feed, "backdrop");
    UsedJoin(uses, name, feed, "old");
    UsedJoin(uses, name, feed, "shape");
  }

  lemma UsedJoin(uses: seq<(string, Feed)>, name: string, feed: Feed, input: string)
    ensures (exists i :: 0 <= i < |uses| + 1 && (uses + [(name, feed)])[i].1 == FromInput(input))
              <==> feed == FromInput(input) || exists i :: 0 <= i < |uses| && uses[i].1 == FromInput(input)
  {
    var more := uses + [(name, feed)];
    assert more[|uses|].1 == feed;
    if i :| 0 <= i < |uses| && uses[i].1 == FromInput(input) { assert more[i].1 == FromInput(input); }
  }

  lemma NotedStep(k: Reads, l: Reads, step: Step)
    requires NotedUses(k, l, step.uses)
    ensures Noted(k, Mark(l, step.first), [step], [])
  {
    forall name
      ensures Touched([step], [], name) <==> Touches(step, name)
    {
      if Touches(step, name) { assert AnyTouches([step], name) by { assert Touches([step][0], name); } }
    }
  }

  lemma PassGrows(m: Made, cx: Context, extra: seq<(string, real)>, stage: Stage, first: Feed,
                  uses: seq<(string, Feed)>, marks: Reads)
    requires stage.Pass? && NotedUses(m.marks, marks, uses)
    ensures Grows(m, PassMade(m, cx, extra, stage, first, uses, Mark(marks, first)))
  {
    var m' := PassMade(m, cx, extra, stage, first, uses, Mark(marks, first));
    NotedStep(m.marks, marks, m'.out[|m.out|]);
    assert m'.out[|m.out|..] == [m'.out[|m.out|]];
    assert m'.states[|m.states|..] == [];
  }

  // ---- Saving and getting ----

  function SaveMade(m: Made, name: string): Made { m.(saved := m.saved[name := m.last]) }

  lemma SaveMeans(m: Made, name: string, start: Extent)
    requires Formed(m)
    ensures var m' := SaveMade(m, name);
            var e := EnvOf(m, start);
            Formed(m') && Grows(m, m') && EnvOf(m', start) == e.(saved := e.saved[name := e.last])
  {
    hide Make, Run, Read, StepsOk, StatesOk;
    var m' := SaveMade(m, name);
    var e := EnvOf(m, start);
    GrowsSame(m, m');
    assert EnvOf(m', start).saved == e.saved[name := e.last];
    assert EnvOf(m', start).levels == e.levels;
  }

  lemma GetMeans(m: Made, feed: Feed, start: Extent)
    requires Formed(m) && Reaches(m, feed)
    ensures var m' := m.(last := feed);
            Formed(m') && Grows(m, m') && EnvOf(m', start) == EnvOf(m, start).(last := Meant(m, feed, start))
  {
    hide Make, Run, Read, StepsOk, StatesOk;
    var m' := m.(last := feed);
    GrowsSame(m, m');
    assert EnvOf(m', start).saved == EnvOf(m, start).saved;
    assert EnvOf(m', start).levels == EnvOf(m, start).levels;
  }

  // ---- A state ----

  /** A state's scope: the inputs and states saved before it. */
  function StateSaved(saved: map<string, Feed>): map<string, Feed> {
    map name | name in saved && !saved[name].FromStep? :: saved[name]
  }

  /** What a state's own walk starts from. */
  function StateBegun(m: Made, first: string): Made {
    Made(m.states, [], StateSaved(m.saved), [], FromInput(first), m.count, m.marks)
  }

  /** What is made once a state's steps are. */
  function StateMade(m: Made, inner: Made, name: string, format: Format, scale: real, depends: Depends): Made {
    m.(states := inner.states + [StatePlan(name, format, scale, depends, inner.out)],
       saved := m.saved[name := FromState(|inner.states|)], count := inner.count, marks := inner.marks)
  }

  lemma StateBegins(m: Made, first: string, start: Extent, scale: real)
    requires Formed(m)
    ensures var begun := StateBegun(m, first);
            var inside := Extent.Part(Whole, scale);
            && Formed(begun)
            && EnvOf(begun, inside)
                == Env(Val(OfInput, Shot(Source(first), inside), 0), ForState(EnvOf(m, start).saved, inside), [], m.count, [],
                       KeptOf(m.states))
  {
    hide Make, Run, StatesOk;
    var inside := Extent.Part(Whole, scale);
    var begun := StateBegun(m, first);
    forall name | name in begun.saved
      ensures Meant(begun, begun.saved[name], inside) == ForState(EnvOf(m, start).saved, inside)[name]
    {}
  }

  lemma PassesOne(states: seq<StatePlan>, state: StatePlan)
    ensures Passes(states + [state]) == Passes(states) + |state.steps|
  {
    assert (states + [state])[..|states|] == states;
  }

  lemma TouchedMoved(steps: seq<Step>, states: seq<StatePlan>, state: StatePlan, name: string)
    requires state.steps == steps
    ensures Touched([], states + [state], name) <==> Touched(steps, states, name)
  {
    var none: seq<Step> := [];
    TouchedJoin(none, none, states, [state], name);
    assert none + none == none;
    if AnyTouches(steps, name) { assert AnyTouches([state][0].steps, name); }
  }

  lemma StateNoted(m: Made, inner: Made, first: string, state: StatePlan)
    requires Grows(StateBegun(m, first), inner) && state.steps == inner.out
    ensures Noted(m.marks, inner.marks, [], inner.states[|m.states|..] + [state])
  {
    hide Touched;
    assert inner.out[0..] == inner.out;
    TouchedMoved(inner.out, inner.states[|m.states|..], state, "self");
    TouchedMoved(inner.out, inner.states[|m.states|..], state, "backdrop");
    TouchedMoved(inner.out, inner.states[|m.states|..], state, "old");
    TouchedMoved(inner.out, inner.states[|m.states|..], state, "shape");
  }

  lemma StateGrows(m: Made, inner: Made, first: string, name: string, format: Format, scale: real, depends: Depends)
    requires Formed(m) && Formed(inner) && Grows(StateBegun(m, first), inner)
    ensures Grows(m, StateMade(m, inner, name, format, scale, depends))
  {
    hide Noted, Formed;
    var m' := StateMade(m, inner, name, format, scale, depends);
    var state := m'.states[|inner.states|];
    PassesOne(inner.states, state);
    StateNoted(m, inner, first, state);
    assert m'.out[|m.out|..] == [];
    assert m'.states[|m.states|..] == inner.states[|m.states|..] + [state];
  }

  lemma StateFormed(m: Made, inner: Made, first: string, name: string, format: Format, scale: real, depends: Depends)
    requires Formed(m) && Formed(inner) && m.states <= inner.states
    ensures Formed(StateMade(m, inner, name, format, scale, depends))
  {
    MoreStatesOk(m, inner.states);
  }

  lemma MoreStatesOk(m: Made, states: seq<StatePlan>)
    requires StepsOk(m.out, |m.states|) && m.states <= states
    ensures StepsOk(m.out, |states| + 1)
  {
    forall i | 0 <= i < |m.out|
      ensures StepOk(m.out[i], i, |states| + 1)
    {
      assert StepOk(m.out[i], i, |m.states|);
    }
  }

  /** A new state's texture is the last thing its own walk drew. */
  lemma StateShot(m: Made, inner: Made, name: string, format: Format, scale: real, depends: Depends, start: Extent)
    ensures var m' := StateMade(m, inner, name, format, scale, depends);
            var inside := Extent.Part(Whole, scale);
            Meant(m', FromState(|inner.states|), start).shot == EnvOf(inner, inside).Latest(Shot(Blank, inside))
  {
    MakeOne(inner.states, StatePlan(name, format, scale, depends, inner.out));
  }

  lemma KeptOne(states: seq<StatePlan>, state: StatePlan)
    ensures KeptOf(states + [state])
         == KeptOf(states) + [Kept(state.name, state.format, state.scale, state.depends,
                                   Drawn(states, state.steps, Part(Whole, state.scale)))]
  {
    hide Drawn;
    var all := states + [state];
    assert all[..|states|] == states;
    assert forall i :: 0 <= i < |states| ==> all[..i] == states[..i];
  }

  lemma StateMeans(m: Made, inner: Made, name: string, format: Format, scale: real, depends: Depends, start: Extent)
    requires Formed(m) && m.states <= inner.states
    ensures var m' := StateMade(m, inner, name, format, scale, depends);
            var inside := Extent.Part(Whole, scale);
            var (e, i) := (EnvOf(m, start), EnvOf(inner, inside));
            EnvOf(m', start) == e.(saved := e.saved[name := Val(OfState, i.Latest(Shot(Blank, inside)), 0)],
                                   count := inner.count,
                                   kept := KeptOf(inner.states) + [Kept(name, format, scale, depends, i.trace)])
  {
    hide Means, Make, Run, MakeState;
    var m' := StateMade(m, inner, name, format, scale, depends);
    StateShot(m, inner, name, format, scale, depends, start);
    KeptOne(inner.states, StatePlan(name, format, scale, depends, inner.out));
    MeantSame(m, m', start);
    MeansSame(m.last, m.states, m.out, m'.states, m'.out, start);
    var e, e' := EnvOf(m, start), EnvOf(m', start);
    assert e'.levels == e.levels;
    assert e'.saved == e.saved[name := Meant(m', FromState(|inner.states|), start)];
    MeantOrigin(m', FromState(|inner.states|), start);
  }

  lemma MeantOrigin(m: Made, feed: Feed, start: Extent)
    ensures Meant(m, feed, start).origin == OriginOf(feed) && Meant(m, feed, start).turn == TurnOf(feed)
  {}

  /** A state whose own walk went as the interpreter's does goes as the interpreter
      plays it. */
  lemma StateFollows(lib: Library, m: Made, cx: Context, given: Option<Feed>, stack: seq<string>, start: Extent,
                     extra: seq<(string, real)>, stage: Stage, made: Result<Feed, Error>, inner: Made)
    requires stage.State? && stage.depends != OnRegion && Formed(m)
    requires var inside := Extent.Part(Whole, stage.scale);
             var begun := StateBegun(m, cx.first);
             Follows(Play(lib, WalkOf(begun, cx, None, stack, inside, extra), stage.body, EnvOf(begun, inside)), begun,
                     inner, inside, made)
    ensures Follows(PlayOne(lib, WalkOf(m, cx, given, stack, start, extra), stage, EnvOf(m, start)), m,
                    StateMade(m, inner, stage.name, stage.format, stage.scale, stage.depends), start,
                    if made.Ok? then Ok(m.last) else made)
    ensures made.Err? ==>
        PlayOne(lib, WalkOf(m, cx, given, stack, start, extra), stage, EnvOf(m, start)) == Err(made.error)
  {
    hide Formed, Meant, ForState, Noted, Passes;
    StateBegins(m, cx.first, start, stage.scale);
    if made.Ok? {
      StateGrows(m, inner, cx.first, stage.name, stage.format, stage.scale, stage.depends);
      StateFormed(m, inner, cx.first, stage.name, stage.format, stage.scale, stage.depends);
      StateMeans(m, inner, stage.name, stage.format, stage.scale, stage.depends, start);
    }
  }

  // ---- A used effect ----

  /** What a used effect's own walk starts from: its own names and levels. */
  function EffectBegun(m: Made): Made { m.(saved := map[], levels := []) }

  function EffectMade(m: Made, inner: Made): Made { inner.(saved := m.saved, levels := m.levels) }

  lemma EffectEnds(m: Made, inner: Made, start: Extent)
    requires Formed(m) && Formed(inner) && Grows(EffectBegun(m), inner)
    ensures var m' := EffectMade(m, inner);
            var e, i := EnvOf(m, start), EnvOf(inner, start);
            && Formed(m') && Grows(m, m')
            && EnvOf(m', start) == e.(last := i.last, count := i.count, trace := i.trace, kept := i.kept)
  {
    hide Make, Run, Read, StepsOk, StatesOk;
    var m' := EffectMade(m, inner);
    MeantSame(m, m', start);
    assert EnvOf(m', start).saved == EnvOf(m, start).saved;
    assert EnvOf(m', start).levels == EnvOf(m, start).levels;
  }

  lemma EffectBegins(m: Made, start: Extent)
    requires Formed(m)
    ensures Formed(EffectBegun(m))
    ensures EnvOf(EffectBegun(m), start) == EnvOf(m, start).(saved := map[], levels := [])
  {}
}
