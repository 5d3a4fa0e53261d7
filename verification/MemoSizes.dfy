/** The sizes of a split plan: a suffix sized from the box by its shares, and exactly
    when those are the sizes the whole plan has. */
module MemoSizes {
  import opened Basics
  import opened Effects
  import opened Memos
  import opened Nesting
  import opened Pictures
  import opened Sizes

  /** A step whose size is an input's or an earlier step's, at a scale that nests on the
      share it is put upon. */
  ghost predicate StepNests(steps: seq<Step>, k: nat) {
    k < |steps| &&
      var size := steps[k].size;
      !size.of.FromState? && (size.Scaled? ==> Nests(ShareOf(size.of, Shares(steps[..k])), size.scale))
  }

  /** So is each step its size comes down from. */
  ghost predicate ChainNests(steps: seq<Step>, k: nat) {
    && StepNests(steps, k)
    && (steps[k].size.of.FromStep? && steps[k].size.of.k < k ==> ChainNests(steps, steps[k].size.of.k))
  }

  ghost predicate PrefixNests(steps: seq<Step>) { forall k :: 0 <= k < |steps| ==> StepNests(steps, k) }

  lemma {:induction false} AllChainsNest(steps: seq<Step>, k: nat)
    requires PrefixNests(steps) && k < |steps|
    ensures ChainNests(steps, k)
  {
    hide StepNests;
    assert StepNests(steps, k);
    if steps[k].size.of.FromStep? && steps[k].size.of.k < k { AllChainsNest(steps, steps[k].size.of.k); }
  }

  lemma NestedScales(box: Pixels, share: real, scale: real)
    requires Drawable(box) && 0.0 < share <= 1.0 && Nests(share, scale)
    ensures 0.0 < Times(share, scale) <= 1.0 && Scale(Scale(box, share), scale) == Scale(box, Times(share, scale))
  {
    hide Side, Times, Nests;
    NestedSides(box.0, share, scale);
    NestedSides(box.1, share, scale);
  }

  lemma WholeShare(box: Pixels)
    requires Drawable(box)
    ensures Scale(box, 1.0) == box
  {
    NeutralSide(box.0);
    NeutralSide(box.1);
  }

  /** A step's share is its size. */
  ghost predicate AtShare(shares: seq<real>, drawn: seq<Shot>, k: nat, box: Pixels) {
    && k < |shares| && k < |drawn|
    && 0.0 < shares[k] <= 1.0 && InPixels(drawn[k].extent, box) == Scale(box, shares[k])
  }

  ghost predicate AtShares(shares: seq<real>, drawn: seq<Shot>, box: Pixels) {
    |shares| == |drawn| && forall k :: 0 <= k < |drawn| ==> AtShare(shares, drawn, k, box)
  }

  lemma FeedAtShare(feed: Feed, shares: seq<real>, states: seq<Shot>, drawn: seq<Shot>, box: Pixels)
    requires Drawable(box) && !feed.FromState? && (feed.FromStep? ==> AtShare(shares, drawn, feed.k, box))
    ensures 0.0 < ShareOf(feed, shares) <= 1.0
    ensures InPixels(Read(feed, Own(Whole), states, drawn).extent, box) == Scale(box, ShareOf(feed, shares))
  {
    WholeShare(box);
    hide Scale;
  }

  function ShareAfter(size: Size, shares: seq<real>): real {
    if size.Scaled? then Times(ShareOf(size.of, shares), size.scale) else ShareOf(size.of, shares)
  }

  lemma StepAtShare(size: Size, shares: seq<real>, states: seq<Shot>, drawn: seq<Shot>, box: Pixels)
    requires Drawable(box) && !size.of.FromState? && (size.of.FromStep? ==> AtShare(shares, drawn, size.of.k, box))
    requires size.Scaled? ==> Nests(ShareOf(size.of, shares), size.scale)
    ensures 0.0 < ShareAfter(size, shares) <= 1.0
    ensures InPixels(Sized(size, Own(Whole), states, drawn), box) == Scale(box, ShareAfter(size, shares))
  {
    hide Scale, Nests, Read, ShareOf, AtShare, Times;
    FeedAtShare(size.of, shares, states, drawn, box);
    if size.Scaled? { NestedScales(box, ShareOf(size.of, shares), size.scale); }
  }

  lemma {:induction false} SharesCut(steps: seq<Step>, k: nat)
    requires k < |steps|
    ensures Shares(steps)[..k] == Shares(steps[..k])
    ensures Shares(steps)[k] == ShareAfter(steps[k].size, Shares(steps[..k]))
  {
    hide ShareOf, Times;
    var n := |steps| - 1;
    if k < n {
      SharesCut(steps[..n], k);
      assert steps[..n][..k] == steps[..k];
      assert Shares(steps)[..n] == Shares(steps[..n]);
    }
  }

  /** A step whose chain nests is as big as the box at its share. */
  lemma {:induction false} ChainAtShare(steps: seq<Step>, k: nat, states: seq<Shot>, box: Pixels)
    requires Drawable(box) && StepsOk(steps, |states|) && ChainNests(steps, k)
    ensures AtShare(Shares(steps), Run(steps, Own(Whole), states), k, box)
  {
    hide Run, Shares, Nests, Scale, Times, ShareOf, InPixels;
    var (size, shares, drawn) := (steps[k].size, Shares(steps), Run(steps, Own(Whole), states));
    assert StepOk(steps[k], k, |states|);
    SharesCut(steps, k);
    RunAt(steps, k, Own(Whole), states);
    if size.of.FromStep? {
      var j := size.of.k;
      ChainAtShare(steps, j, states, box);
      assert shares[..k][j] == shares[j] && drawn[..k][j] == drawn[j];
    }
    StepAtShare(size, shares[..k], states, drawn[..k], box);
  }

  /** Each prefix step's size is the box at its share. */
  lemma SharesAreSizes(steps: seq<Step>, states: seq<Shot>, box: Pixels)
    requires Drawable(box) && StepsOk(steps, |states|) && PrefixNests(steps)
    ensures AtShares(Shares(steps), Run(steps, Own(Whole), states), box)
  {
    hide AtShare, Shares, Run, ChainNests, PrefixNests;
    forall k | 0 <= k < |steps|
      ensures AtShare(Shares(steps), Run(steps, Own(Whole), states), k, box)
    {
      AllChainsNest(steps, k);
      ChainAtShare(steps, k, states, box);
    }
  }

  // ---- And only then ----

  /** Prefix steps whose scales tell: a miss would show on some box. */
  ghost predicate PrefixTells(steps: seq<Step>) {
    forall k :: 0 <= k < |steps| ==>
      var size := steps[k].size;
      !size.of.FromState? && (size.Scaled? ==> Telling(ShareOf(size.of, Shares(steps[..k])), size.scale))
  }

  ghost predicate AlwaysAtShares(steps: seq<Step>, states: seq<Shot>) {
    forall box: Pixels :: Drawable(box) ==> AtShares(Shares(steps), Run(steps, Own(Whole), states), box)
  }

  /** A step scaled on a share, at its share and its feed's: twice is once. */
  lemma SizeNests(steps: seq<Step>, k: nat, states: seq<Shot>, box: Pixels)
    requires k < |steps| && StepsOk(steps, |states|) && steps[k].size.Scaled? && Drawable(box)
    requires !steps[k].size.of.FromState? && AtShares(Shares(steps), Run(steps, Own(Whole), states), box)
    ensures var share := ShareOf(steps[k].size.of, Shares(steps[..k]));
            Scale(Scale(box, share), steps[k].size.scale) == Scale(box, Times(share, steps[k].size.scale))
  {
    hide Scale, Times, Drawable, ShareOf, Read, Run, Shares;
    var (size, shares, drawn) := (steps[k].size, Shares(steps), Run(steps, Own(Whole), states));
    assert StepOk(steps[k], k, |states|);
    SharesCut(steps, k);
    RunAt(steps, k, Own(Whole), states);
    if size.of.FromStep? {
      assert shares[..k][size.of.k] == shares[size.of.k] && drawn[..k][size.of.k] == drawn[size.of.k];
      assert AtShare(shares, drawn, size.of.k, box);
    }
    FeedAtShare(size.of, shares[..k], states, drawn[..k], box);
    assert AtShare(shares, drawn, k, box);
  }

  /** A scale nests if its step's share is its size on every box. */
  lemma TellingNests(steps: seq<Step>, k: nat, states: seq<Shot>)
    requires k < |steps| && StepsOk(steps, |states|) && PrefixTells(steps) && AlwaysAtShares(steps, states)
    ensures StepNests(steps, k)
  {
    hide Side, Times, Nests, Telling, ShareOf, Shares, Run, AtShares, StepsOk;
    var size := steps[k].size;
    if size.Scaled? {
      var share := ShareOf(size.of, Shares(steps[..k]));
      forall n | 1 <= n <= MOST_PIXELS
        ensures Side(Side(n, share), size.scale) == Side(n, Times(share, size.scale))
      {
        assert AtShares(Shares(steps), Run(steps, Own(Whole), states), (n, n));
        SizeNests(steps, k, states, (n, n));
      }
      NestsExactly(share, size.scale);
    }
  }

  /** On every box each step's size is the box at its share, exactly where every scale
      nests on the share it is put upon. */
  lemma SharesAreSizesExactly(steps: seq<Step>, states: seq<Shot>)
    requires StepsOk(steps, |states|) && PrefixTells(steps)
    ensures PrefixNests(steps) <==> AlwaysAtShares(steps, states)
  {
    hide Telling, StepNests, AtShares, Shares, Run, StepOk;
    if PrefixNests(steps) {
      forall box: Pixels | Drawable(box)
        ensures AtShares(Shares(steps), Run(steps, Own(Whole), states), box)
      {
        SharesAreSizes(steps, states, box);
      }
    }
    if AlwaysAtShares(steps, states) {
      forall k | 0 <= k < |steps|
        ensures StepNests(steps, k)
      {
        TellingNests(steps, k, states);
      }
    }
  }

  // ---- The suffix ----

  /** A suffix step that takes its size from a prefix step. */
  predicate Takes(step: Step, len: nat) { step.size.of.FromStep? && step.size.of.k < len }

  /** Its size in the whole plan is the box at the share the suffix gives it. */
  ghost predicate Meets(steps: seq<Step>, len: nat, i: nat, states: seq<Shot>, box: Pixels)
    requires len <= i < |steps|
  {
    Takes(steps[i], len) ==>
      InPixels(Run(steps, Own(Whole), states)[i].extent, box)
        == Scale(box, ShareAfter(steps[i].size, Shares(steps[..len])))
  }

  lemma BoundIsWhole(exports: seq<Export>, prefix: seq<Shot>, name: string)
    requires forall i :: 0 <= i < |exports| ==> exports[i].step < |prefix|
    ensures Bound(exports, prefix, Own(Whole)).Look(name).extent == Whole
  {}

  ghost predicate SameSizes(a: seq<Shot>, b: seq<Shot>, box: Pixels) {
    |a| == |b| && forall i :: 0 <= i < |a| ==> InPixels(a[i].extent, box) == InPixels(b[i].extent, box)
  }

  /** A scene whose every input is as big as the box. */
  ghost predicate AllWhole(scene: Scene) { forall name :: scene.Look(name).extent == Whole }

  /** A suffix step that takes its size from no prefix step, or from one where the two
      meet, is sized as in the whole plan. */
  lemma SizeKept(steps: seq<Step>, len: nat, i: nat, bound: Scene, states: seq<Shot>, suffix: seq<Shot>, box: Pixels)
    requires len <= i < |steps| && StepsOk(steps, |states|) && AllWhole(bound) && Meets(steps, len, i, states, box)
    requires SameSizes(Run(steps, Own(Whole), states)[len..i], suffix, box)
    ensures InPixels(Run(steps, Own(Whole), states)[i].extent, box)
              == InPixels(Sized(Resized(steps[i].size, len, Shares(steps[..len])), bound, states, suffix), box)
  {
    hide Scale, Times, Run, Shares;
    var (size, drawn) := (steps[i].size, Run(steps, Own(Whole), states));
    assert StepOk(steps[i], i, |states|);
    RunAt(steps, i, Own(Whole), states);
    if size.of.FromStep? && size.of.k >= len {
      assert drawn[len..i][size.of.k - len] == drawn[size.of.k] == drawn[..i][size.of.k];
    }
  }

  lemma SizeJoin(a: seq<Shot>, b: seq<Shot>, x: Shot, y: Shot, box: Pixels)
    requires SameSizes(a, b, box) && InPixels(x.extent, box) == InPixels(y.extent, box)
    ensures SameSizes(a + [x], b + [y], box)
  {}

  lemma NoneSized(steps: seq<Step>, len: nat, shares: seq<real>, bound: Scene, states: seq<Shot>, box: Pixels)
    requires len <= |steps| && |shares| == len
    ensures SameSizes(Run(steps, Own(Whole), states)[len..len],
                      Run(SuffixSteps(steps[len..len], len, shares), bound, states), box)
  {}

  lemma {:induction false} SuffixSized(steps: seq<Step>, len: nat, to: nat, bound: Scene, states: seq<Shot>,
                                       box: Pixels)
    requires len <= to <= |steps| && StepsOk(steps, |states|) && AllWhole(bound)
    requires forall i :: len <= i < |steps| ==> Meets(steps, len, i, states, box)
    ensures SameSizes(Run(steps, Own(Whole), states)[len..to],
                      Run(SuffixSteps(steps[len..to], len, Shares(steps[..len])), bound, states), box)
  {
    hide *;
    var shares := Shares(steps[..len]);
    if to == len {
      NoneSized(steps, len, shares, bound, states, box);
    } else {
      var i := to - 1;
      SuffixSized(steps, len, i, bound, states, box);
      var drawn := Run(steps, Own(Whole), states);
      var before := SuffixSteps(steps[len..i], len, shares);
      SizeKept(steps, len, i, bound, states, Run(before, bound, states), box);
      SuffixSplit(steps, len, i, shares);
      RunStep(before, Suffixed(steps[i], len, shares), bound, states);
      SliceOneMore(drawn, len, i);
      DrawnSized(steps[i], len, shares, bound, states, Run(before, bound, states));
      SizeJoin(drawn[len..i], Run(before, bound, states), drawn[i],
               Draw(Suffixed(steps[i], len, shares), bound, states, Run(before, bound, states)), box);
    }
  }

  lemma DrawnSized(step: Step, len: nat, shares: seq<real>, bound: Scene, states: seq<Shot>, drawn: seq<Shot>)
    requires |shares| == len
    ensures Draw(Suffixed(step, len, shares), bound, states, drawn).extent
              == Sized(Resized(step.size, len, shares), bound, states, drawn)
  {}

  lemma BoundAllWhole(exports: seq<Export>, prefix: seq<Shot>)
    requires forall i :: 0 <= i < |exports| ==> exports[i].step < |prefix|
    ensures AllWhole(Bound(exports, prefix, Own(Whole)))
  {
    forall name ensures Bound(exports, prefix, Own(Whole)).Look(name).extent == Whole {
      BoundIsWhole(exports, prefix, name);
    }
  }

  lemma SuffixOf(plan: Plan, len: nat, memo: Memo)
    requires PlanOk(plan) && Split(plan, len, memo)
    ensures StepsOk(plan.steps, |plan.states|) && len <= |plan.steps|
    ensures memo.suffix.steps == SuffixSteps(plan.steps[len..], len, Shares(plan.steps[..len]))
        && memo.suffix.states == plan.states
    ensures forall i :: 0 <= i < |memo.exports| ==> memo.exports[i].step < len
  {}

  lemma RunPlanIs(plan: Plan, scene: Scene)
    ensures RunPlan(plan, scene) == Run(plan.steps, scene, Make(plan.states))
  {}

  ghost predicate AlwaysSameSizes(plan: Plan, len: nat, memo: Memo, prefix: seq<Shot>)
    requires len <= |plan.steps| && forall i :: 0 <= i < |memo.exports| ==> memo.exports[i].step < |prefix|
  {
    forall box: Pixels :: Drawable(box) ==>
      SameSizes(RunPlan(plan, Own(Whole))[len..], RunPlan(memo.suffix, Bound(memo.exports, prefix, Own(Whole))), box)
  }

  /** Every suffix step that takes its size from a prefix step meets it, on every box. */
  ghost predicate TakersMeet(steps: seq<Step>, len: nat, states: seq<Shot>)
    requires len <= |steps|
  {
    forall box: Pixels, i :: Drawable(box) && len <= i < |steps| ==> Meets(steps, len, i, states, box)
  }

  /** What a suffix step that takes its size from a prefix step is sized at there. */
  lemma TakerSize(steps: seq<Step>, len: nat, i: nat, bound: Scene, states: seq<Shot>, box: Pixels)
    requires len <= i < |steps| && AllWhole(bound) && Takes(steps[i], len)
    ensures InPixels(Run(SuffixSteps(steps[len..], len, Shares(steps[..len])), bound, states)[i - len].extent, box)
              == Scale(box, ShareAfter(steps[i].size, Shares(steps[..len])))
  {
    hide Run, Scale, Times, Shares, AllWhole;
    assert steps[len..][i - len] == steps[i];
    RunAt(SuffixSteps(steps[len..], len, Shares(steps[..len])), i - len, bound, states);
    AllWholeLooks(bound, "backdrop");
  }

  lemma AllWholeLooks(scene: Scene, name: string)
    requires AllWhole(scene)
    ensures scene.Look(name).extent == Whole
  {}

  /** The suffix has on every box the sizes the whole plan has, exactly where each of its
      steps that takes its size from the prefix has. */
  lemma SplitSizesMeet(plan: Plan, len: nat, memo: Memo, prefix: seq<Shot>)
    requires PlanOk(plan) && Split(plan, len, memo) && |prefix| == len
    ensures AlwaysSameSizes(plan, len, memo, prefix) <==> TakersMeet(plan.steps, len, Make(plan.states))
  {
    hide Run, Make, Bound, Shares, Meets, SameSizes, Split, PlanOk, RunPlan, AllWhole, SuffixSteps, StepsOk;
    SuffixOf(plan, len, memo);
    RunPlanIs(plan, Own(Whole));
    var bound := Bound(memo.exports, prefix, Own(Whole));
    RunPlanIs(memo.suffix, bound);
    BoundAllWhole(memo.exports, prefix);
    var states := Make(plan.states);
    if TakersMeet(plan.steps, len, states) {
      forall box: Pixels | Drawable(box)
        ensures SameSizes(RunPlan(plan, Own(Whole))[len..], RunPlan(memo.suffix, bound), box)
      {
        SuffixSized(plan.steps, len, |plan.steps|, bound, states, box);
        ToTheEnd(plan.steps, len);
        ToTheEnd(Run(plan.steps, Own(Whole), states), len);
      }
    }
    if AlwaysSameSizes(plan, len, memo, prefix) {
      forall box: Pixels, i | Drawable(box) && len <= i < |plan.steps|
        ensures Meets(plan.steps, len, i, states, box)
      {
        SameMeets(plan.steps, len, i, bound, states, box);
      }
    }
  }

  lemma SameMeets(steps: seq<Step>, len: nat, i: nat, bound: Scene, states: seq<Shot>, box: Pixels)
    requires len <= i < |steps| && AllWhole(bound)
    requires SameSizes(Run(steps, Own(Whole), states)[len..],
                       Run(SuffixSteps(steps[len..], len, Shares(steps[..len])), bound, states), box)
    ensures Meets(steps, len, i, states, box)
  {
    hide Run, Shares, AllWhole, SuffixSteps, Scale, ShareAfter, InPixels;
    assert Run(steps, Own(Whole), states)[len..][i - len] == Run(steps, Own(Whole), states)[i];
    if Takes(steps[i], len) { TakerSize(steps, len, i, bound, states, box); }
  }

  // ---- Where the scales nest ----

  /** Each prefix step that sizes a suffix step has a chain that nests. */
  ghost predicate TakenNest(steps: seq<Step>, len: nat)
    requires len <= |steps|
  {
    forall i :: len <= i < |steps| && Takes(steps[i], len) ==> ChainNests(steps[..len], steps[i].size.of.k)
  }

  /** Each scale put upon a prefix step nests on its share. */
  ghost predicate CrossingsNest(steps: seq<Step>, len: nat)
    requires len <= |steps|
  {
    forall i :: len <= i < |steps| && Takes(steps[i], len) && steps[i].size.Scaled? ==>
      Nests(Shares(steps[..len])[steps[i].size.of.k], steps[i].size.scale)
  }

  ghost predicate CrossingsTell(steps: seq<Step>, len: nat)
    requires len <= |steps|
  {
    forall i :: len <= i < |steps| && Takes(steps[i], len) && steps[i].size.Scaled? ==>
      Telling(Shares(steps[..len])[steps[i].size.of.k], steps[i].size.scale)
  }

  /** A prefix step whose chain nests, seen from a later step. */
  lemma TakenAtShare(steps: seq<Step>, len: nat, i: nat, states: seq<Shot>, box: Pixels)
    requires len <= i < |steps| && StepsOk(steps, |states|) && TakenNest(steps, len) && Takes(steps[i], len)
    requires Drawable(box)
    ensures AtShare(Shares(steps[..len]), Run(steps, Own(Whole), states)[..i], steps[i].size.of.k, box)
  {
    hide Run, Shares, ChainNests, Scale, InPixels;
    var (k, drawn) := (steps[i].size.of.k, Run(steps, Own(Whole), states));
    ChainAtShare(steps[..len], k, states, box);
    RunPrefix(steps, len, Own(Whole), states);
    assert drawn[..len][k] == drawn[k] == drawn[..i][k];
  }

  /** Scales that nest, and the steps meet. */
  lemma NestingMeets(steps: seq<Step>, len: nat, i: nat, states: seq<Shot>, box: Pixels)
    requires len <= i < |steps| && StepsOk(steps, |states|) && TakenNest(steps, len) && CrossingsNest(steps, len)
    requires Drawable(box)
    ensures Meets(steps, len, i, states, box)
  {
    hide Run, Shares, ChainNests, Nests, Scale, Times, InPixels, TakenNest;
    if Takes(steps[i], len) {
      TakenAtShare(steps, len, i, states, box);
      RunAt(steps, i, Own(Whole), states);
      StepAtShare(steps[i].size, Shares(steps[..len]), states, Run(steps, Own(Whole), states)[..i], box);
    }
  }

  /** What a step scaled from such a prefix step is sized at in the whole plan. */
  lemma CrossingSize(steps: seq<Step>, len: nat, i: nat, states: seq<Shot>, box: Pixels)
    requires len <= i < |steps| && StepsOk(steps, |states|) && TakenNest(steps, len)
    requires Takes(steps[i], len) && steps[i].size.Scaled? && Drawable(box)
    ensures InPixels(Run(steps, Own(Whole), states)[i].extent, box)
              == Scale(Scale(box, Shares(steps[..len])[steps[i].size.of.k]), steps[i].size.scale)
  {
    hide Run, Shares, ChainNests, Scale, TakenNest;
    TakenAtShare(steps, len, i, states, box);
    RunAt(steps, i, Own(Whole), states);
  }

  /** Sized from the padded box by its shares, the suffix is drawn at the sizes the
      whole plan would draw it at, where the scales it depends on nest. */
  lemma SplitSizesTheSame(plan: Plan, len: nat, memo: Memo, prefix: seq<Shot>)
    requires PlanOk(plan) && Split(plan, len, memo) && |prefix| == len
    requires TakenNest(plan.steps, len) && CrossingsNest(plan.steps, len)
    ensures AlwaysSameSizes(plan, len, memo, prefix)
  {
    hide TakenNest, CrossingsNest, Meets, SameSizes, RunPlan, Bound, Make, Split;
    forall box: Pixels, i | Drawable(box) && len <= i < |plan.steps|
      ensures Meets(plan.steps, len, i, Make(plan.states), box)
    {
      StatesMade(plan.states);
      NestingMeets(plan.steps, len, i, Make(plan.states), box);
    }
    SplitSizesMeet(plan, len, memo, prefix);
  }

  lemma StatesMade(states: seq<StatePlan>)
    ensures |Make(states)| == |states|
  {}

  /** Where the chains it takes sizes from nest, the suffix has on every box the sizes the
      whole plan has, exactly where every scale put upon a prefix step nests. */
  lemma SplitSizesExactly(plan: Plan, len: nat, memo: Memo, prefix: seq<Shot>)
    requires PlanOk(plan) && Split(plan, len, memo) && |prefix| == len
    requires TakenNest(plan.steps, len) && CrossingsTell(plan.steps, len)
    ensures CrossingsNest(plan.steps, len) <==> AlwaysSameSizes(plan, len, memo, prefix)
  {
    hide TakenNest, Nests, Telling, Meets, SameSizes, RunPlan, Bound, Make, Shares, PlanOk, AlwaysSameSizes, Split;
    SuffixOf(plan, len, memo);
    if CrossingsNest(plan.steps, len) {
      SplitSizesTheSame(plan, len, memo, prefix);
    } else {
      var i :| len <= i < |plan.steps| && Takes(plan.steps[i], len) && plan.steps[i].size.Scaled?
               && !Nests(Shares(plan.steps[..len])[plan.steps[i].size.of.k], plan.steps[i].size.scale);
      var n := Missing(plan, len, i);
      SplitSizesMeet(plan, len, memo, prefix);
      assert Drawable((n, n)) && !Meets(plan.steps, len, i, Make(plan.states), (n, n));
    }
  }

  /** A box on which a scale that tells and does not nest misses. */
  lemma Missing(plan: Plan, len: nat, i: nat) returns (n: nat)
    requires PlanOk(plan) && len <= i < |plan.steps| && TakenNest(plan.steps, len) && CrossingsTell(plan.steps, len)
    requires Takes(plan.steps[i], len) && plan.steps[i].size.Scaled?
    requires !Nests(Shares(plan.steps[..len])[plan.steps[i].size.of.k], plan.steps[i].size.scale)
    ensures 1 <= n <= MOST_PIXELS && !Meets(plan.steps, len, i, Make(plan.states), (n, n))
  {
    hide Side, Times, Nests, Telling, Shares, Make, Run, TakenNest, InPixels;
    var (share, scale) := (Shares(plan.steps[..len])[plan.steps[i].size.of.k], plan.steps[i].size.scale);
    NestsExactly(share, scale);
    n :| 1 <= n <= MOST_PIXELS && Side(Side(n, share), scale) != Side(n, Times(share, scale));
    StatesMade(plan.states);
    CrossingSize(plan.steps, len, i, Make(plan.states), (n, n));
  }

  // ---- Plans ----

  function Shrinking(scale: real, of: Feed, perPart: bool): Step {
    Step("soft", "soft.frag", Signature([], [], []), Scaled(of, scale), Rgba8, of, [], [], 0, perPart)
  }

  /** A plan that shrinks the backdrop to three quarters and, for each part, the result
      to three quarters again. */
  function ShrunkTwice(): Plan {
    Plan([Shrinking(0.75, FromInput("backdrop"), false), Shrinking(0.75, FromStep(0), true)], [],
         Reads(false, true, false, false), "backdrop")
  }

  /** It is split after its first step, and in a box of three pixels a side the whole
      plan draws its second step at three and the suffix at two. */
  lemma RoundingDiffers(memo: Memo, prefix: seq<Shot>)
    requires Split(ShrunkTwice(), 1, memo) && |prefix| == 1
    ensures PlanOk(ShrunkTwice()) && LongestAllowed(ShrunkTwice(), Longest, 1) && LongestAllowed(ShrunkTwice(), Resize, 1)
    ensures TakenNest(ShrunkTwice().steps, 1) && CrossingsTell(ShrunkTwice().steps, 1)
    ensures InPixels(RunPlan(ShrunkTwice(), Own(Whole))[1].extent, (3, 3)) == (3, 3)
    ensures InPixels(RunPlan(memo.suffix, Bound(memo.exports, prefix, Own(Whole)))[0].extent, (3, 3)) == (2, 2)
  {
    hide Run, Bound, Make, Split, Shares, Scale, Telling, StepNests;
    var plan := ShrunkTwice();
    ShrunkOnce();
    QuartersTell();
    SuffixOf(plan, 1, memo);
    BoundAllWhole(memo.exports, prefix);
    StatesMade(plan.states);
    CrossingSize(plan.steps, 1, 1, Make(plan.states), (3, 3));
    TakerSize(plan.steps, 1, 1, Bound(memo.exports, prefix, Own(Whole)), Make(plan.states), (3, 3));
    RunPlanIs(plan, Own(Whole));
    RunPlanIs(memo.suffix, Bound(memo.exports, prefix, Own(Whole)));
    ShrunkSides();
  }

  lemma ShrunkOnce()
    ensures PlanOk(ShrunkTwice()) && LongestAllowed(ShrunkTwice(), Longest, 1) && LongestAllowed(ShrunkTwice(), Resize, 1)
    ensures StepNests(ShrunkTwice().steps[..1], 0) && Shares(ShrunkTwice().steps[..1]) == [0.75]
  {
    var plan := ShrunkTwice();
    assert Shareable(plan.steps[0], 0) && !Shareable(plan.steps[1], 1);
    assert plan.steps[..1][..0] == [];
  }

  lemma ShrunkSides()
    ensures Scale(Scale((3, 3), 0.75), 0.75) == (3, 3) && Scale((3, 3), Times(0.75, 0.75)) == (2, 2)
  {
    assert (-2.25).Floor == -3 && (-1.6875).Floor == -2;
    assert Side(3, 0.75) == 3 && Side(3, 0.5625) == 2;
  }

  /** A chain need not nest to meet: the same two steps shared, and each part shrinking
      their result to a third. */
  function ShrunkThrice(): Plan {
    Plan([Shrinking(0.75, FromInput("backdrop"), false), Shrinking(0.75, FromStep(0), false),
          Shrinking(1.0 / 3.0, FromStep(1), true)], [], Reads(false, true, false, false), "backdrop")
  }

  /** Its second step does not nest on its first, and the suffix is of the whole plan's
      size on every box all the same: a quarter is what comes of the last two scales. */
  lemma InnerMissMeets(memo: Memo, prefix: seq<Shot>)
    requires Split(ShrunkThrice(), 2, memo) && |prefix| == 2
    ensures PlanOk(ShrunkThrice()) && LongestAllowed(ShrunkThrice(), Longest, 2)
    ensures !StepNests(ShrunkThrice().steps[..2], 1) && AlwaysSameSizes(ShrunkThrice(), 2, memo, prefix)
  {
    hide Meets, AlwaysSameSizes, Split, StepNests, Make;
    ThriceOk();
    forall box: Pixels | Drawable(box)
      ensures Meets(ShrunkThrice().steps, 2, 2, Make([]), box)
    {
      ThriceMeets(Make([]), box);
    }
    SplitSizesMeet(ShrunkThrice(), 2, memo, prefix);
  }

  lemma ThriceOk()
    ensures PlanOk(ShrunkThrice()) && LongestAllowed(ShrunkThrice(), Longest, 2)
    ensures !StepNests(ShrunkThrice().steps[..2], 1)
    ensures Shares(ShrunkThrice().steps[..2]) == [0.75, Times(0.75, 0.75)]
  {
    hide Nests;
    var steps := ShrunkThrice().steps;
    assert Shareable(steps[0], 0) && Shareable(steps[1], 1) && !Shareable(steps[2], 2);
    assert steps[..2][..1] == steps[..1] && steps[..1][..0] == [];
    assert Shares(steps[..1]) == [0.75];
    assert Shares(steps[..2]) == [0.75] + [Times(0.75, 0.75)];
    QuartersTell();
  }

  lemma ThriceMeets(states: seq<Shot>, box: Pixels)
    requires Drawable(box)
    ensures Meets(ShrunkThrice().steps, 2, 2, states, box)
  {
    hide Scale, Times, Shares, Run;
    var steps := ShrunkThrice().steps;
    ThriceOk();
    var drawn := Run(steps, Own(Whole), states);
    ShrunkFrom(steps, 1, states, box);
    ShrunkFrom(steps, 2, states, box);
    RunAt(steps, 0, Own(Whole), states);
    assert InPixels(drawn[0].extent, box) == Scale(box, 0.75);
    hide InPixels;
    ThirdOfQuarters(box);
  }

  lemma ShrunkFrom(steps: seq<Step>, k: nat, states: seq<Shot>, box: Pixels)
    requires 1 <= k < |steps| && steps[k].size.Scaled? && steps[k].size.of == FromStep(k - 1)
    ensures var drawn := Run(steps, Own(Whole), states);
            InPixels(drawn[k].extent, box) == Scale(InPixels(drawn[k - 1].extent, box), steps[k].size.scale)
  {
    hide Scale, Run;
    RunAt(steps, k, Own(Whole), states);
    assert Run(steps, Own(Whole), states)[..k][k - 1] == Run(steps, Own(Whole), states)[k - 1];
  }

  lemma ThirdOfQuarters(box: Pixels)
    requires Drawable(box)
    ensures Scale(Scale(Scale(box, 0.75), 0.75), 1.0 / 3.0) == Scale(box, Times(Times(0.75, 0.75), 1.0 / 3.0))
  {
    ThirdOfQuartersSide(box.0);
    ThirdOfQuartersSide(box.1);
    hide Side, Times;
  }

  lemma ThirdOfQuartersSide(n: nat)
    requires 1 <= n <= MOST_PIXELS
    ensures Side(Side(Side(n, 0.75), 0.75), 1.0 / 3.0) == Side(n, Times(Times(0.75, 0.75), 1.0 / 3.0))
  {
    hide Side;
    assert Divides(1.0 / 3.0, 3) && Divides(0.25, 4);
    assert Times(0.75, 1.0 / 3.0) == 0.25 && Times(0.75, 0.25) == Times(Times(0.75, 0.75), 1.0 / 3.0);
    hide Times;
    NestedSides(Side(n, 0.75), 0.75, 1.0 / 3.0);
    NestedSides(n, 0.75, 0.25);
  }
}
