/** Splitting a plan in two: a prefix that is the same for every part over one backdrop,
    and a suffix that finds the prefix's results under reserved names. The theorem is that
    the two together draw every picture of the whole plan. */
module Memos {
  import opened Basics
  import opened Effects
  import opened Pictures
  import opened Slots
  import opened Decimals

  datatype Export = Export(step: nat, name: string, scale: real)

  datatype Memo = Memo(prefix: Option<Plan>, suffix: Plan, exports: seq<Export>)

  datatype Policy = Resize | Longest | Off

  const EPSILON: real := 1.0 / 4503599627370496.0

  function MemoName(step: nat): string { "memo:" + Decimal(step) }

  /** The step neither grows nor shrinks what it starts from, to within `EPSILON`. */
  predicate SameSize(step: Step) {
    match step.size
    case Scaled(of, scale) => of == step.first && -EPSILON < scale - 1.0 < EPSILON
    case Like(of) => of == step.first
  }

  predicate FromBackdrop(feed: Feed, index: nat) {
    match feed
    case FromInput(name) => name == "backdrop"
    case FromStep(k) => k < index
    case FromState(_) => false
  }

  /** Whether a step reads only the backdrop and earlier steps, and is no part's own. */
  predicate Shareable(step: Step, index: nat) {
    && FromBackdrop(step.first, index)
    && (forall i :: 0 <= i < |step.uses| ==> FromBackdrop(step.uses[i].1, index))
    && !step.perPart
  }

  /** A prefix a policy allows. */
  ghost predicate Allowed(plan: Plan, policy: Policy, n: nat) {
    && n <= |plan.steps| && (forall i :: 0 <= i < n ==> Shareable(plan.steps[i], i))
    && (policy == Off || plan.firstInput != "backdrop" ==> n == 0)
    && (policy == Resize ==> n == 0 || !SameSize(plan.steps[n - 1]))
  }

  ghost predicate LongestAllowed(plan: Plan, policy: Policy, n: nat) {
    Allowed(plan, policy, n) && forall m: nat :: Allowed(plan, policy, m) ==> m <= n
  }

  /** For each step the scales multiplied along its chain of first inputs, down to an input. */
  function Shares(steps: seq<Step>): (shares: seq<real>)
    ensures |shares| == |steps|
  {
    if steps == [] then []
    else
      var before := Shares(steps[..|steps| - 1]);
      var size := steps[|steps| - 1].size;
      before + [if size.Scaled? then Times(ShareOf(size.of, before), size.scale) else ShareOf(size.of, before)]
  }

  function ShareOf(feed: Feed, shares: seq<real>): real {
    match feed
    case FromStep(k) => if k < |shares| then shares[k] else 1.0
    case _ => 1.0
  }

  /** A suffix step's feed: a prefix result by name, a later step moved down. */
  function Renumbered(feed: Feed, len: nat): Feed {
    match feed
    case FromStep(k) => if k < len then FromInput(MemoName(k)) else FromStep(k - len)
    case _ => feed
  }

  function RenumberedUses(uses: seq<(string, Feed)>, len: nat): seq<(string, Feed)> {
    seq(|uses|, i requires 0 <= i < |uses| => (uses[i].0, Renumbered(uses[i].1, len)))
  }

  /** A suffix step's size: taken from the box at a prefix step's share, or moved. */
  function Resized(size: Size, len: nat, shares: seq<real>): Size
    requires |shares| == len
  {
    match size
    case Scaled(FromStep(k), scale) =>
      if k < len then Scaled(FromInput("backdrop"), Times(shares[k], scale)) else Scaled(FromStep(k - len), scale)
    case Like(FromStep(k)) => if k < len then Scaled(FromInput("backdrop"), shares[k]) else Like(FromStep(k - len))
    case _ => size
  }

  function Suffixed(step: Step, len: nat, shares: seq<real>): Step
    requires |shares| == len
  {
    step.(size := Resized(step.size, len, shares), first := Renumbered(step.first, len),
          uses := RenumberedUses(step.uses, len))
  }

  function SuffixSteps(steps: seq<Step>, len: nat, shares: seq<real>): seq<Step>
    requires |shares| == len
  {
    seq(|steps|, i requires 0 <= i < |steps| => Suffixed(steps[i], len, shares))
  }

  // ---- What is exported ----

  predicate Exported(exports: seq<Export>, k: nat) {
    exists i :: 0 <= i < |exports| && exports[i].step == k
  }

  /** Each result once, under its name and at its share. */
  ghost predicate WellNamed(exports: seq<Export>, shares: seq<real>) {
    && (forall i :: 0 <= i < |exports| ==>
          var e := exports[i]; e.step < |shares| && e.name == MemoName(e.step) && e.scale == shares[e.step])
    && forall i, j :: 0 <= i < j < |exports| ==> exports[i].step != exports[j].step
  }

  /** Export a prefix result once. */
  method ExportOne(k: nat, shares: seq<real>, exports: seq<Export>) returns (more: seq<Export>)
    requires k < |shares| && WellNamed(exports, shares)
    ensures WellNamed(more, shares) && forall j: nat :: Exported(more, j) <==> Exported(exports, j) || j == k
  {
    if Exported(exports, k) { return exports; }
    more := exports + [Export(k, MemoName(k), shares[k])];
    forall j: nat
      ensures Exported(more, j) <==> Exported(exports, j) || j == k
    {
      if i :| 0 <= i < |exports| && exports[i].step == j { assert more[i].step == j; }
      assert more[|exports|].step == k;
    }
  }

  /** A suffix step's feed, exporting the prefix result it reads if it reads one. */
  method Renumber(feed: Feed, shares: seq<real>, exports: seq<Export>) returns (moved: Feed, more: seq<Export>)
    requires WellNamed(exports, shares)
    ensures moved == Renumbered(feed, |shares|) && WellNamed(more, shares)
    ensures forall j: nat :: Exported(more, j) <==> Exported(exports, j) || (feed == FromStep(j) && j < |shares|)
  {
    moved, more := Renumbered(feed, |shares|), exports;
    if feed.FromStep? && feed.k < |shares| { more := ExportOne(feed.k, shares, exports); }
  }

  /** One step of the suffix. */
  method SuffixStep(step: Step, shares: seq<real>, exports: seq<Export>) returns (moved: Step, more: seq<Export>)
    requires WellNamed(exports, shares)
    ensures moved == Suffixed(step, |shares|, shares) && WellNamed(more, shares)
    ensures forall j: nat :: Exported(more, j) <==> Exported(exports, j) || (ReadsStep(step, j) && j < |shares|)
  {
    var size := Resized(step.size, |shares|, shares);
    var first, here := Renumber(step.first, shares, exports);
    var uses: seq<(string, Feed)> := [];
    more := here;
    for i := 0 to |step.uses|
      invariant uses == RenumberedUses(step.uses[..i], |shares|) && WellNamed(more, shares)
      invariant forall j: nat :: Exported(more, j) <==>
                  Exported(here, j) || (j < |shares| && exists u :: 0 <= u < i && step.uses[u].1 == FromStep(j))
    {
      var feed, next := Renumber(step.uses[i].1, shares, more);
      uses, more := uses + [(step.uses[i].0, feed)], next;
    }
    assert step.uses[..|step.uses|] == step.uses;
    moved := step.(size := size, first := first, uses := uses);
  }

  function PrefixLength(memo: Memo): nat { if memo.prefix.Some? then |memo.prefix.value.steps| else 0 }

  /** How long a prefix the policy allows at most. */
  method LongestPrefix(plan: Plan, policy: Policy) returns (n: nat)
    requires policy != Off && plan.firstInput == "backdrop"
    ensures LongestAllowed(plan, policy, n)
  {
    hide Shareable, SameSize;
    n := 0;
    while n < |plan.steps| && Shareable(plan.steps[n], n)
      invariant n <= |plan.steps| && forall i :: 0 <= i < n ==> Shareable(plan.steps[i], i)
    {
      n := n + 1;
    }
    while policy == Resize && n > 0 && SameSize(plan.steps[n - 1])
      invariant n <= |plan.steps| && forall i :: 0 <= i < n ==> Shareable(plan.steps[i], i)
      invariant forall m: nat :: Allowed(plan, policy, m) ==> m <= n
    {
      n := n - 1;
    }
  }

  /** The suffix's steps, and what they read of the prefix. */
  method SuffixFor(rest: seq<Step>, shares: seq<real>) returns (steps: seq<Step>, exports: seq<Export>)
    ensures steps == SuffixSteps(rest, |shares|, shares) && WellNamed(exports, shares)
    ensures forall j: nat :: Exported(exports, j) <==> j < |shares| && exists s :: 0 <= s < |rest| && ReadsStep(rest[s], j)
  {
    hide Suffixed, ReadsStep;
    steps, exports := [], [];
    for i := 0 to |rest|
      invariant steps == SuffixSteps(rest[..i], |shares|, shares) && WellNamed(exports, shares)
      invariant forall j: nat :: Exported(exports, j) <==> j < |shares| && exists s :: 0 <= s < i && ReadsStep(rest[s], j)
    {
      var step, more := SuffixStep(rest[i], shares, exports);
      steps, exports := steps + [step], more;
    }
    assert rest[..|rest|] == rest;
  }

  /** Split a plan after the longest prefix its policy allows; the exports are just
      the prefix results the suffix reads, or the last one if it has no steps. */
  method SplitMemo(plan: Plan, policy: Policy) returns (memo: Memo)
    ensures LongestAllowed(plan, policy, PrefixLength(memo))
    ensures policy == Off || plan.firstInput != "backdrop" ==> memo == Memo(None, plan, [])
    ensures if PrefixLength(memo) == 0 then memo == Memo(None, plan, []) else Split(plan, PrefixLength(memo), memo)
  {
    hide Resized, Shareable, SameSize, Shares, ReadsStep, RenumberedUses, WellNamed;
    if policy == Off || plan.firstInput != "backdrop" { return Memo(None, plan, []); }
    var n := LongestPrefix(plan, policy);
    if n == 0 { return Memo(None, plan, []); }
    var shares := Shares(plan.steps[..n]);
    var rest := plan.steps[n..];
    var steps, exports := SuffixFor(rest, shares);
    if steps == [] { exports := ExportOne(n - 1, shares, exports); }
    var first := if steps != [] && steps[0].first.FromInput? then steps[0].first.name else plan.firstInput;
    memo := Memo(Some(Plan(plan.steps[..n], [], Reads(false, true, false, false), "backdrop")),
                 Plan(steps, plan.states, plan.marks, first), exports);
  }

  /** What a split after `len` steps is. */
  ghost predicate Split(plan: Plan, len: nat, memo: Memo) {
    && 0 < len <= |plan.steps| && memo.prefix.Some?
    && var (shares, rest) := (Shares(plan.steps[..len]), plan.steps[len..]);
       var prefix := memo.prefix.value;
       && prefix == Plan(plan.steps[..len], [], Reads(false, true, false, false), "backdrop")
       && memo.suffix == Plan(SuffixSteps(rest, len, shares), plan.states, plan.marks,
                              if rest != [] && Renumbered(rest[0].first, len).FromInput? then Renumbered(rest[0].first, len).name
                              else plan.firstInput)
       && WellNamed(memo.exports, shares)
       && forall j: nat :: Exported(memo.exports, j) <==>
            if rest == [] then j == len - 1 else j < len && exists s :: 0 <= s < |rest| && ReadsStep(rest[s], j)
  }

  // ---- A split plan means what the whole plan meant ----

  /** The suffix's inputs: the exports by name, each the picture the prefix drew. */
  function Bound(exports: seq<Export>, prefix: seq<Shot>, scene: Scene): Scene
    requires forall i :: 0 <= i < |exports| ==> exports[i].step < |prefix|
  {
    if exports == [] then scene
    else
      var last := exports[|exports| - 1];
      Rebound(last.name, Shot(prefix[last.step].picture, scene.Start()), Bound(exports[..|exports| - 1], prefix, scene))
  }

  /** No step reads an input under a name the memo gives its own results. */
  ghost predicate NoMemoInputs(steps: seq<Step>) {
    forall i, k: nat :: 0 <= i < |steps| ==>
      && steps[i].first != FromInput(MemoName(k)) && steps[i].size.of != FromInput(MemoName(k))
      && forall u :: 0 <= u < |steps[i].uses| ==> steps[i].uses[u].1 != FromInput(MemoName(k))
  }

  lemma NamesDiffer(j: nat, k: nat)
    ensures MemoName(j) == MemoName(k) ==> j == k
    ensures MemoName(k) != "backdrop"
  {
    if MemoName(j) == MemoName(k) {
      assert MemoName(j)[5..] == Decimal(j) && MemoName(k)[5..] == Decimal(k);
      DecimalIsOneToOne(j, k);
    }
    assert MemoName(k)[0] == 'm';
  }

  /** What the suffix's scene shows under each name. */
  lemma {:induction false} BoundLooks(exports: seq<Export>, shares: seq<real>, prefix: seq<Shot>, scene: Scene,
                                      name: string)
    requires WellNamed(exports, shares) && |prefix| == |shares|
    ensures (forall k: nat :: name != MemoName(k)) ==> Bound(exports, prefix, scene).Look(name) == scene.Look(name)
    ensures forall k: nat :: Exported(exports, k) && name == MemoName(k) ==>
              k < |prefix| && Bound(exports, prefix, scene).Look(name) == Shot(prefix[k].picture, scene.Start())
  {
    if exports != [] {
      var before, last := exports[..|exports| - 1], exports[|exports| - 1];
      BoundLooks(before, shares, prefix, scene, name);
      assert last.name == MemoName(last.step);
      forall k: nat | Exported(exports, k) && name == MemoName(k)
        ensures k < |prefix| && Bound(exports, prefix, scene).Look(name) == Shot(prefix[k].picture, scene.Start())
      {
        NamesDiffer(k, last.step);
        if k != last.step {
          var i :| 0 <= i < |exports| && exports[i].step == k;
          assert before[i].step == k;
        }
      }
    }
  }

  /** The pictures of two runs, one for one. */
  ghost predicate SamePictures(a: seq<Shot>, b: seq<Shot>) {
    |a| == |b| && forall i :: 0 <= i < |a| ==> a[i].picture == b[i].picture
  }

  /** Two lists of feeds that read the same pictures draw the same picture. */
  lemma SameReads(a: Step, b: Step, one: Scene, two: Scene, states: seq<Shot>, states': seq<Shot>, drawn: seq<Shot>,
                  drawn': seq<Shot>)
    requires a.effect == b.effect && a.frag == b.frag && a.signature == b.signature && a.key == b.key
        && a.perPart == b.perPart
    requires a.uniforms == b.uniforms && a.format == b.format
    requires Read(a.first, one, states, drawn).picture == Read(b.first, two, states', drawn').picture
    requires |a.uses| == |b.uses|
    requires forall i :: 0 <= i < |a.uses| ==> a.uses[i].0 == b.uses[i].0
    requires forall i :: 0 <= i < |a.uses| ==>
        Read(a.uses[i].1, one, states, drawn).picture == Read(b.uses[i].1, two, states', drawn').picture
    ensures Draw(a, one, states, drawn).picture == Draw(b, two, states', drawn').picture
  {
    assert ReadUses(a.uses, one, states, drawn) == ReadUses(b.uses, two, states', drawn');
  }

  /** The prefix's pictures depend on the picture of the backdrop and nothing else. */
  lemma {:induction false} PrefixReadsBackdrop(steps: seq<Step>, one: Scene, two: Scene, states: seq<Shot>,
                                               states': seq<Shot>)
    requires forall i :: 0 <= i < |steps| ==> Shareable(steps[i], i)
    requires one.Look("backdrop").picture == two.Look("backdrop").picture
    ensures SamePictures(Run(steps, one, states), Run(steps, two, states'))
  {
    if steps != [] {
      var before, last := steps[..|steps| - 1], steps[|steps| - 1];
      PrefixReadsBackdrop(before, one, two, states, states');
      assert Shareable(last, |before|);
      SameReads(last, last, one, two, states, states', Run(before, one, states), Run(before, two, states'));
    }
  }

  /** A suffix feed reads the picture its original did. */
  lemma FeedKept(feed: Feed, len: nat, scene: Scene, bound: Scene, states: seq<Shot>, drawn: seq<Shot>,
                 suffix: seq<Shot>)
    requires len <= |drawn| && FeedOk(feed, |drawn|, |states|) && SamePictures(drawn[len..], suffix)
    requires forall k: nat :: feed == FromStep(k) && k < len ==> bound.Look(MemoName(k)).picture == drawn[k].picture
    requires feed.FromInput? ==> bound.Look(feed.name) == scene.Look(feed.name)
    ensures Read(feed, scene, states, drawn).picture == Read(Renumbered(feed, len), bound, states, suffix).picture
  {
    if feed.FromStep? && feed.k >= len { assert drawn[len..][feed.k - len] == drawn[feed.k]; }
  }

  lemma StepKept(step: Step, len: nat, shares: seq<real>, scene: Scene, bound: Scene, states: seq<Shot>,
                 drawn: seq<Shot>, suffix: seq<Shot>)
    requires len <= |drawn| && StepOk(step, |drawn|, |states|) && |shares| == len && SamePictures(drawn[len..], suffix)
    requires forall k: nat :: ReadsStep(step, k) && k < len ==> bound.Look(MemoName(k)).picture == drawn[k].picture
    requires step.first.FromInput? ==> bound.Look(step.first.name) == scene.Look(step.first.name)
    requires forall u :: 0 <= u < |step.uses| && step.uses[u].1.FromInput? ==>
        bound.Look(step.uses[u].1.name) == scene.Look(step.uses[u].1.name)
    ensures Draw(step, scene, states, drawn).picture == Draw(Suffixed(step, len, shares), bound, states, suffix).picture
  {
    var moved := Suffixed(step, len, shares);
    FeedKept(step.first, len, scene, bound, states, drawn, suffix);
    forall u | 0 <= u < |step.uses|
      ensures Read(step.uses[u].1, scene, states, drawn).picture == Read(moved.uses[u].1, bound, states, suffix).picture
    {
      FeedKept(step.uses[u].1, len, scene, bound, states, drawn, suffix);
    }
    SameReads(step, moved, scene, bound, states, states, drawn, suffix);
  }

  /** The scene a suffix is run in shows it what it should. */
  ghost predicate Shows(bound: Scene, scene: Scene, steps: seq<Step>, drawn: seq<Shot>, len: nat)
    requires len <= |drawn|
  {
    forall i :: 0 <= i < |steps| ==>
      && (forall k: nat :: ReadsStep(steps[i], k) && k < len ==> bound.Look(MemoName(k)).picture == drawn[k].picture)
      && (steps[i].first.FromInput? ==> bound.Look(steps[i].first.name) == scene.Look(steps[i].first.name))
      && (forall u :: 0 <= u < |steps[i].uses| && steps[i].uses[u].1.FromInput? ==>
            bound.Look(steps[i].uses[u].1.name) == scene.Look(steps[i].uses[u].1.name))
  }

  lemma NoneKept(steps: seq<Step>, len: nat, shares: seq<real>, scene: Scene, bound: Scene, states: seq<Shot>)
    requires len <= |steps| && |shares| == len
    ensures SamePictures(Run(steps, scene, states)[len..len],
                         Run(SuffixSteps(steps[len..len], len, shares), bound, states))
  {}

  lemma {:induction false} SuffixKept(steps: seq<Step>, len: nat, to: nat, shares: seq<real>, scene: Scene,
                                      bound: Scene, states: seq<Shot>)
    requires len <= to <= |steps| && |shares| == len && StepsOk(steps, |states|)
    requires Shows(bound, scene, steps[len..], Run(steps, scene, states), len)
    ensures SamePictures(Run(steps, scene, states)[len..to],
                         Run(SuffixSteps(steps[len..to], len, shares), bound, states))
  {
    hide *;
    if to == len {
      NoneKept(steps, len, shares, scene, bound, states);
    } else {
      var i := to - 1;
      SuffixKept(steps, len, i, shares, scene, bound, states);
      var drawn := Run(steps, scene, states);
      var before := SuffixSteps(steps[len..i], len, shares);
      OneKept(steps, len, i, shares, scene, bound, states, Run(before, bound, states));
      SuffixSplit(steps, len, i, shares);
      RunStep(before, Suffixed(steps[i], len, shares), bound, states);
      SliceOneMore(drawn, len, i);
      SameJoin(drawn[len..i], Run(before, bound, states), drawn[i],
               Draw(Suffixed(steps[i], len, shares), bound, states, Run(before, bound, states)));
    }
  }

  lemma SliceOneMore<T>(s: seq<T>, from: nat, to: nat)
    requires from <= to < |s|
    ensures s[from..to + 1] == s[from..to] + [s[to]]
  {}

  lemma SuffixSplit(steps: seq<Step>, len: nat, i: nat, shares: seq<real>)
    requires len <= i < |steps| && |shares| == len
    ensures SuffixSteps(steps[len..i + 1], len, shares)
        == SuffixSteps(steps[len..i], len, shares) + [Suffixed(steps[i], len, shares)]
  {
    hide Suffixed;
  }

  lemma SameJoin(a: seq<Shot>, b: seq<Shot>, x: Shot, y: Shot)
    requires SamePictures(a, b) && x.picture == y.picture
    ensures SamePictures(a + [x], b + [y])
  {}

  /** The suffix's step for step `i` draws what step `i` draws. */
  lemma OneKept(steps: seq<Step>, len: nat, i: nat, shares: seq<real>, scene: Scene, bound: Scene, states: seq<Shot>,
                suffix: seq<Shot>)
    requires len <= i < |steps| && |shares| == len && StepsOk(steps, |states|)
    requires Shows(bound, scene, steps[len..], Run(steps, scene, states), len)
    requires SamePictures(Run(steps, scene, states)[len..i], suffix)
    ensures Run(steps, scene, states)[i].picture == Draw(Suffixed(steps[i], len, shares), bound, states, suffix).picture
  {
    hide Run, Draw, Suffixed, Read;
    var drawn := Run(steps, scene, states);
    RunAt(steps, i, scene, states);
    assert drawn[..i][len..] == drawn[len..i];
    assert StepOk(steps[i], i, |states|);
    ShownAt(steps, len, i, scene, bound, drawn);
    StepKept(steps[i], len, shares, scene, bound, states, drawn[..i], suffix);
  }

  lemma ShownAt(steps: seq<Step>, len: nat, i: nat, scene: Scene, bound: Scene, drawn: seq<Shot>)
    requires len <= i < |steps| == |drawn| && Shows(bound, scene, steps[len..], drawn, len)
    ensures forall k: nat :: ReadsStep(steps[i], k) && k < len ==>
        bound.Look(MemoName(k)).picture == drawn[..i][k].picture
    ensures steps[i].first.FromInput? ==> bound.Look(steps[i].first.name) == scene.Look(steps[i].first.name)
    ensures forall u :: 0 <= u < |steps[i].uses| && steps[i].uses[u].1.FromInput? ==>
              bound.Look(steps[i].uses[u].1.name) == scene.Look(steps[i].uses[u].1.name)
  {
    assert steps[len..][i - len] == steps[i];
  }

  /** A prefix result a suffix step reads is shown to it under its name. */
  lemma ReadShown(plan: Plan, len: nat, memo: Memo, scene: Scene, prefix: seq<Shot>, drawn: seq<Shot>, i: nat, k: nat)
    requires Split(plan, len, memo) && |prefix| == len <= |drawn| && SamePictures(prefix, drawn[..len])
    requires i < |plan.steps[len..]| && ReadsStep(plan.steps[len..][i], k) && k < len
    ensures Bound(memo.exports, prefix, scene).Look(MemoName(k)).picture == drawn[k].picture
  {
    hide Bound, Shares, ReadsStep;
    assert Exported(memo.exports, k);
    BoundLooks(memo.exports, Shares(plan.steps[..len]), prefix, scene, MemoName(k));
    assert prefix[k].picture == drawn[..len][k].picture;
  }

  lemma SuffixShows(plan: Plan, len: nat, memo: Memo, scene: Scene, prefix: seq<Shot>, drawn: seq<Shot>)
    requires Split(plan, len, memo) && NoMemoInputs(plan.steps) && |prefix| == len <= |drawn|
    requires SamePictures(prefix, drawn[..len])
    ensures Shows(Bound(memo.exports, prefix, scene), scene, plan.steps[len..], drawn, len)
  {
    hide Bound, Shares, ReadsStep, SamePictures, NoMemoInputs, SuffixSteps, Exported;
    var bound, rest := Bound(memo.exports, prefix, scene), plan.steps[len..];
    forall i | 0 <= i < |rest|
      ensures forall k: nat :: ReadsStep(rest[i], k) && k < len ==> bound.Look(MemoName(k)).picture == drawn[k].picture
      ensures rest[i].first.FromInput? ==> bound.Look(rest[i].first.name) == scene.Look(rest[i].first.name)
      ensures forall u :: 0 <= u < |rest[i].uses| && rest[i].uses[u].1.FromInput? ==>
                bound.Look(rest[i].uses[u].1.name) == scene.Look(rest[i].uses[u].1.name)
    {
      InputsShown(plan, len, memo, scene, prefix, len + i);
      forall k: nat | ReadsStep(rest[i], k) && k < len
        ensures bound.Look(MemoName(k)).picture == drawn[k].picture
      {
        ReadShown(plan, len, memo, scene, prefix, drawn, i, k);
      }
    }
  }

  /** Running the prefix anywhere the backdrop is the same, binding its exports and
      running the suffix draws every picture the whole plan draws. */
  lemma SplitMeansTheSame(plan: Plan, len: nat, memo: Memo, scene: Scene, elsewhere: Scene)
    requires PlanOk(plan) && Split(plan, len, memo) && NoMemoInputs(plan.steps)
    requires forall i :: 0 <= i < len ==> Shareable(plan.steps[i], i)
    requires elsewhere.Look("backdrop").picture == scene.Look("backdrop").picture
    ensures var prefix := RunPlan(memo.prefix.value, elsewhere);
            && SamePictures(prefix, RunPlan(plan, scene)[..len])
            && SamePictures(RunPlan(memo.suffix, Bound(memo.exports, prefix, scene)), RunPlan(plan, scene)[len..])
  {
    hide Run, Make, Bound, Shareable;
    var states := Make(plan.states);
    var prefix := RunPlan(memo.prefix.value, elsewhere);
    var drawn := RunPlan(plan, scene);
    PrefixReadsBackdrop(plan.steps[..len], elsewhere, scene, Make(memo.prefix.value.states), states);
    RunPrefix(plan.steps, len, scene, states);
    SuffixShows(plan, len, memo, scene, prefix, drawn);
    var n := |plan.steps|;
    SuffixKept(plan.steps, len, n, Shares(plan.steps[..len]), scene, Bound(memo.exports, prefix, scene), states);
    ToTheEnd(plan.steps, len);
    ToTheEnd(drawn, len);
  }

  lemma ToTheEnd<T>(s: seq<T>, from: nat)
    requires from <= |s|
    ensures s[from..|s|] == s[from..]
  {}

  /** The inputs a step names are shown to the suffix as they are. */
  lemma InputsShown(plan: Plan, len: nat, memo: Memo, scene: Scene, prefix: seq<Shot>, i: nat)
    requires Split(plan, len, memo) && NoMemoInputs(plan.steps) && i < |plan.steps| && |prefix| == len
    ensures var (step, bound) := (plan.steps[i], Bound(memo.exports, prefix, scene));
            && (step.first.FromInput? ==> bound.Look(step.first.name) == scene.Look(step.first.name))
            && (step.size.of.FromInput? ==> bound.Look(step.size.of.name) == scene.Look(step.size.of.name))
            && (forall u :: 0 <= u < |step.uses| && step.uses[u].1.FromInput? ==>
                  bound.Look(step.uses[u].1.name) == scene.Look(step.uses[u].1.name))
  {
    var step, shares := plan.steps[i], Shares(plan.steps[..len]);
    if step.first.FromInput? { BoundLooks(memo.exports, shares, prefix, scene, step.first.name); }
    if step.size.of.FromInput? { BoundLooks(memo.exports, shares, prefix, scene, step.size.of.name); }
    forall u | 0 <= u < |step.uses| && step.uses[u].1.FromInput?
      ensures Bound(memo.exports, prefix, scene).Look(step.uses[u].1.name) == scene.Look(step.uses[u].1.name)
    {
      BoundLooks(memo.exports, shares, prefix, scene, step.uses[u].1.name);
    }
  }
}
