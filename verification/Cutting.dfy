/** Where a prefix ends: what the steps read that it leaves out, and how big they are
    that it is cut back by. */
module Cutting {
  import opened Basics
  import opened Effects
  import opened Memos
  import opened Nesting
  import opened Pictures
  import opened Sizes

  /** A scale a 64-bit float can hold: none lies between 1 and the next above it. */
  predicate Held(size: Size) { size.Scaled? ==> size.scale <= 1.0 || size.scale >= 1.0 + EPSILON }

  lemma InPixelsDrawable(extent: Extent, box: Pixels)
    requires Drawable(box)
    ensures Drawable(InPixels(extent, box))
  {}

  lemma AlmostWhole(n: nat, scale: real)
    requires 1 <= n <= MOST_PIXELS && 1.0 - EPSILON < scale <= 1.0
    ensures Side(n, scale) == n
  {
    var short := 1.0 - scale;
    assert n as real * scale == n as real - n as real * short;
    assert 0.0 <= n as real * short <= 4294967295.0 * short < 1.0;
    CeilingIs(n as real * scale, n);
  }

  /** Under the default policy a prefix is cut back over just the steps sized from their
      first feed at a scale of one, or like it, and ends on none. */
  lemma CutBackOverThese(plan: Plan, n: nat, m: nat)
    requires LongestAllowed(plan, Resize, n) && LongestAllowed(plan, Longest, m)
    ensures n <= m
    ensures forall k :: n <= k < m ==>
              var (size, first) := (plan.steps[k].size, plan.steps[k].first);
              size.of == first && (size.Scaled? ==> 1.0 - EPSILON < size.scale < 1.0 + EPSILON)
    ensures n > 0 ==>
              var (size, first) := (plan.steps[n - 1].size, plan.steps[n - 1].first);
              size != Like(first) && forall s :: size == Scaled(first, s) ==> s <= 1.0 - EPSILON || 1.0 + EPSILON <= s
  {
    hide Shareable;
    assert Allowed(plan, Longest, n);
    forall k | n <= k < m
      ensures SameSize(plan.steps[k])
    {
      assert !Allowed(plan, Resize, k + 1);
    }
  }

  /** And each of them is drawn as big as its first feed, on every box. */
  lemma CutBackIsAsBig(plan: Plan, n: nat, m: nat, k: nat, scene: Scene, states: seq<Shot>, box: Pixels)
    requires LongestAllowed(plan, Resize, n) && LongestAllowed(plan, Longest, m) && n <= k < m
    requires Held(plan.steps[k].size) && Drawable(box)
    ensures var (drawn, first) := (Run(plan.steps, scene, states), plan.steps[k].first);
            InPixels(drawn[k].extent, box) == InPixels(Read(first, scene, states, drawn[..k]).extent, box)
  {
    hide Shareable, LongestAllowed, Run, Read;
    CutBackOverThese(plan, n, m);
    assert LongestAllowed(plan, Longest, m) ==> m <= |plan.steps| by { OfItsSteps(plan, m); }
    RunAt(plan.steps, k, scene, states);
    var size := plan.steps[k].size;
    var of := Read(plan.steps[k].first, scene, states, Run(plan.steps[..k], scene, states)).extent;
    InPixelsDrawable(of, box);
    if size.Scaled? {
      AlmostWhole(InPixels(of, box).0, size.scale);
      AlmostWhole(InPixels(of, box).1, size.scale);
    }
  }

  lemma OfItsSteps(plan: Plan, m: nat)
    requires LongestAllowed(plan, Longest, m)
    ensures m <= |plan.steps|
  {}

  /** What some step draws after its run. */
  function DrawnAfter(steps: seq<Step>, k: nat, scene: Scene, states: seq<Shot>): Picture
    requires k < |steps|
  {
    Draw(steps[k], scene, states, Run(steps[..k], scene, states)).picture
  }

  lemma OtherFeed(feed: Feed, index: nat, count: nat)
    returns (one: Scene, two: Scene, states: seq<Shot>, others: seq<Shot>)
    requires !FromBackdrop(feed, index) && FeedOk(feed, index, count)
    ensures one.Look("backdrop") == two.Look("backdrop")
    ensures !feed.FromStep? && Read(feed, one, states, []).picture != Read(feed, two, others, []).picture
  {
    one, two, states, others := Own(Whole), Own(Whole), [], [];
    match feed
    case FromInput(name) => two := Rebound(name, Shot(Blank, Whole), one);
    case FromState(k) => others := seq(k + 1, i => Shot(Source("self"), Whole));
    case FromStep(k) =>
  }

  /** The longest prefix ends for a reason: the next step is a part's own, or draws
      something else over the same backdrop where other inputs or states are other. */
  lemma EndsForAReason(plan: Plan, m: nat) returns (one: Scene, two: Scene, states: seq<Shot>, others: seq<Shot>)
    requires LongestAllowed(plan, Longest, m) && PlanOk(plan)
    requires plan.firstInput == "backdrop" && m < |plan.steps| && !plan.steps[m].perPart
    ensures one.Look("backdrop") == two.Look("backdrop")
    ensures DrawnAfter(plan.steps, m, one, states) != DrawnAfter(plan.steps, m, two, others)
  {
    hide Run;
    var step := plan.steps[m];
    assert !Allowed(plan, Longest, m + 1);
    assert StepOk(step, m, |plan.states|);
    if !FromBackdrop(step.first, m) {
      one, two, states, others := OtherFeed(step.first, m, |plan.states|);
    } else {
      var u :| 0 <= u < |step.uses| && !FromBackdrop(step.uses[u].1, m);
      one, two, states, others := OtherFeed(step.uses[u].1, m, |plan.states|);
      var (drawn, drawn') := (Run(plan.steps[..m], one, states), Run(plan.steps[..m], two, others));
      assert ReadUses(step.uses, one, states, drawn)[u] != ReadUses(step.uses, two, others, drawn')[u];
    }
  }
}
