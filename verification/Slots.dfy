/** Render targets: which slot each step draws into, why reuse is never seen, and
    why no assignment uses fewer. */
module Slots {
  import opened Basics
  import opened Effects
  import opened Pictures
  import opened Sizes

  /** A step reads another's result through its first input or its uses. */
  predicate ReadsStep(step: Step, k: nat) {
    step.first == FromStep(k) || exists i :: 0 <= i < |step.uses| && step.uses[i].1 == FromStep(k)
  }

  /** Whether some step from `from` on reads step `k`. */
  predicate ReadFrom(steps: seq<Step>, k: nat, from: nat) {
    exists j :: from <= j < |steps| && ReadsStep(steps[j], k)
  }

  /** The last reader of step `k`, if it has one. */
  ghost predicate IsLastReader(steps: seq<Step>, k: nat, reader: Option<nat>) {
    match reader
    case None => !ReadFrom(steps, k, 0)
    case Some(j) => j < |steps| && ReadsStep(steps[j], k) && !ReadFrom(steps, k, j + 1)
  }

  /** Among the first `n` steps. */
  ghost predicate LastBefore(steps: seq<Step>, n: nat, k: nat, reader: Option<nat>)
    requires n <= |steps|
  {
    match reader
    case None => forall j :: 0 <= j < n ==> !ReadsStep(steps[j], k)
    case Some(j) => j < n && ReadsStep(steps[j], k) && forall i :: j < i < n ==> !ReadsStep(steps[i], k)
  }

  /** The step after which a result is wanted no longer, if any reads it. */
  method LastReaders(steps: seq<Step>) returns (last: seq<Option<nat>>)
    ensures |last| == |steps| && forall k :: 0 <= k < |last| ==> IsLastReader(steps, k, last[k])
  {
    last := seq(|steps|, _ => None);
    for index := 0 to |steps|
      invariant |last| == |steps| && forall k :: 0 <= k < |last| ==> LastBefore(steps, index, k, last[k])
    {
      var step := steps[index];
      ghost var before := last;
      if step.first.FromStep? && step.first.k < |last| { last := last[step.first.k := Some(index)]; }
      for u := 0 to |step.uses|
        invariant |last| == |steps|
        invariant forall k :: 0 <= k < |last| ==>
                    last[k] == if step.first == FromStep(k) || (exists i :: 0 <= i < u && step.uses[i].1 == FromStep(k))
                               then Some(index) else before[k]
      {
        var feed := step.uses[u].1;
        if feed.FromStep? && feed.k < |last| { last := last[feed.k := Some(index)]; }
      }
    }
  }

  function SizeAt(sizes: seq<Pixels>, index: nat): Pixels {
    if index < |sizes| then sizes[index] else (1, 1)
  }

  /** Two steps whose results may be kept in one target at different times. */
  predicate Alike(steps: seq<Step>, sizes: seq<Pixels>, h: nat, i: nat)
    requires h < |steps| && i < |steps|
  {
    SizeAt(sizes, h) == SizeAt(sizes, i) && steps[h].format == steps[i].format
  }

  /** Steps share a target only at one size and format, and only once nothing from
      the later one on reads the earlier one. */
  ghost predicate Keeps(steps: seq<Step>, sizes: seq<Pixels>, slots: seq<nat>) {
    && |slots| == |steps|
    && forall h, i :: 0 <= h < i < |steps| && slots[h] == slots[i] ==>
         Alike(steps, sizes, h, i) && !ReadFrom(steps, h, i)
  }

  /** In the steps' own terms, one size given for each. */
  lemma KeepsIs(steps: seq<Step>, sizes: seq<Pixels>, slots: seq<nat>)
    requires |slots| == |sizes| == |steps|
    ensures Keeps(steps, sizes, slots) <==>
              forall h, i :: 0 <= h < i < |steps| && slots[h] == slots[i] ==>
                && sizes[h] == sizes[i] && steps[h].format == steps[i].format
                && forall k :: i <= k < |steps| ==>
                     && steps[k].first != FromStep(h)
                     && forall u :: 0 <= u < |steps[k].uses| ==> steps[k].uses[u].1 != FromStep(h)
  {}

  /** The targets an assignment uses. */
  ghost function Targets(slots: seq<nat>): set<nat> { set t | t in slots }

  // ---- The assignment ----

  /** A render target in use, and the number of the step that drew in it last. */
  datatype Target = Target(size: Pixels, format: Format, holder: nat)

  /** Whether a target may be drawn into at a step. */
  predicate Free(target: Target, step: Step, size: Pixels, index: nat, readers: seq<Option<nat>>) {
    && target.size == size && target.format == step.format
    && (target.holder >= |readers| || readers[target.holder].None? || readers[target.holder].value < index)
  }

  function FirstFree(held: seq<Target>, step: Step, size: Pixels, index: nat, readers: seq<Option<nat>>,
                     from: nat): (slot: Option<nat>)
    ensures slot.Some? ==> from <= slot.value < |held| && Free(held[slot.value], step, size, index, readers)
    ensures slot.Some? ==> held[slot.value].size == size && held[slot.value].format == step.format
    ensures slot.None? ==> forall s :: from <= s < |held| ==> !Free(held[s], step, size, index, readers)
    decreases |held| - from
  {
    if from >= |held| then None
    else if Free(held[from], step, size, index, readers) then Some(from)
    else FirstFree(held, step, size, index, readers, from + 1)
  }

  /** Each target holds the last step that drew into it. */
  ghost predicate Holding(steps: seq<Step>, sizes: seq<Pixels>, slots: seq<nat>, held: seq<Target>, index: nat)
    requires |slots| == index <= |steps|
  {
    && (forall i :: 0 <= i < index ==> slots[i] < |held| && i <= held[slots[i]].holder)
    && forall s :: 0 <= s < |held| ==>
         && held[s].holder < index && slots[held[s].holder] == s
         && held[s].size == SizeAt(sizes, held[s].holder) && held[s].format == steps[held[s].holder].format
  }

  /** Of the first `index` steps. */
  ghost predicate KeptSoFar(steps: seq<Step>, sizes: seq<Pixels>, slots: seq<nat>, index: nat)
    requires |slots| == index <= |steps|
  {
    forall h, i :: 0 <= h < i < index && slots[h] == slots[i] ==> Alike(steps, sizes, h, i) && !ReadFrom(steps, h, i)
  }

  predicate SameClass(one: Target, two: Target) { one.size == two.size && one.format == two.format }

  /** One step for each target, so chosen that two steps of one size and format are
      both wanted at once: no assignment can give them one target. */
  ghost predicate Apart(steps: seq<Step>, sizes: seq<Pixels>, held: seq<Target>, stand: seq<nat>) {
    && |stand| == |held|
    && (forall s :: 0 <= s < |held| ==>
          stand[s] < |steps| && SizeAt(sizes, stand[s]) == held[s].size && steps[stand[s]].format == held[s].format)
    && forall s, t :: 0 <= s < |held| && 0 <= t < |held| && s != t && SameClass(held[s], held[t]) ==>
         Overlap(steps, stand[s], stand[t])
  }

  /** Two steps whose results are wanted at once. */
  ghost predicate Overlap(steps: seq<Step>, a: nat, b: nat) {
    (a < b && ReadFrom(steps, a, b)) || (b < a && ReadFrom(steps, b, a))
  }

  /** Greedy allocation: a step takes the first target it may draw into, or a new one. The
      contract is the optimum: `Keeps` holds, and any assignment for which it holds names
      at least `count` targets. */
  method Assign(steps: seq<Step>, sizes: seq<Pixels>) returns (slots: seq<nat>, count: nat)
    ensures Keeps(steps, sizes, slots) && forall i :: 0 <= i < |slots| ==> slots[i] < count
    ensures forall other: seq<nat> :: Keeps(steps, sizes, other) ==> count <= |Targets(other)|
  {
    hide Free, ReadFrom, IsLastReader, Apart, Holding, KeptSoFar, Keeps, Targets, Standing;
    var readers := LastReaders(steps);
    slots := [];
    var held: seq<Target> := [];
    ghost var stand: seq<nat> := [];
    NothingHeld(steps, sizes);
    for index := 0 to |steps|
      invariant |slots| == index && Holding(steps, sizes, slots, held, index) && KeptSoFar(steps, sizes, slots, index)
      invariant Apart(steps, sizes, held, stand)
    {
      var size := SizeAt(sizes, index);
      var free := FirstFree(held, steps[index], size, index, readers, 0);
      if free.Some? {
        ReuseKeeps(steps, sizes, slots, held, index, free.value, readers);
        ReuseHolds(steps, sizes, slots, held, stand, index, free.value);
        held := held[free.value := held[free.value].(holder := index)];
        slots := slots + [free.value];
      } else {
        OpenHolds(steps, sizes, slots, held, index);
        StandingHolds(steps, sizes, slots, held, stand, index, readers);
        stand := Standing(held, stand, Target(size, steps[index].format, index));
        held := held + [Target(size, steps[index].format, index)];
        slots := slots + [|held| - 1];
      }
    }
    AllKept(steps, sizes, slots, held);
    count := |held|;
    forall other: seq<nat> | Keeps(steps, sizes, other)
      ensures count <= |Targets(other)|
    {
      NoneFewer(steps, sizes, held, stand, other);
    }
  }

  lemma NothingHeld(steps: seq<Step>, sizes: seq<Pixels>)
    ensures Holding(steps, sizes, [], [], 0) && KeptSoFar(steps, sizes, [], 0) && Apart(steps, sizes, [], [])
  {}

  lemma AllKept(steps: seq<Step>, sizes: seq<Pixels>, slots: seq<nat>, held: seq<Target>)
    requires |slots| == |steps| && Holding(steps, sizes, slots, held, |steps|) && KeptSoFar(steps, sizes, slots, |steps|)
    ensures Keeps(steps, sizes, slots) && forall i :: 0 <= i < |slots| ==> slots[i] < |held|
  {}

  lemma ReaderBefore(steps: seq<Step>, readers: seq<Option<nat>>, k: nat, index: nat)
    requires k < |readers| && IsLastReader(steps, k, readers[k])
    ensures readers[k].None? || readers[k].value < index <==> !ReadFrom(steps, k, index)
  {}

  lemma ReuseHolds(steps: seq<Step>, sizes: seq<Pixels>, slots: seq<nat>, held: seq<Target>, stand: seq<nat>,
                   index: nat, free: nat)
    requires |slots| == index < |steps| && Holding(steps, sizes, slots, held, index) && Apart(steps, sizes, held, stand)
    requires free < |held| && held[free].size == SizeAt(sizes, index) && held[free].format == steps[index].format
    ensures Holding(steps, sizes, slots + [free], held[free := held[free].(holder := index)], index + 1)
    ensures Apart(steps, sizes, held[free := held[free].(holder := index)], stand)
  {}

  lemma OpenHolds(steps: seq<Step>, sizes: seq<Pixels>, slots: seq<nat>, held: seq<Target>, index: nat)
    requires |slots| == index < |steps| && Holding(steps, sizes, slots, held, index)
        && KeptSoFar(steps, sizes, slots, index)
    ensures Holding(steps, sizes, slots + [|held|], held + [Target(SizeAt(sizes, index), steps[index].format, index)],
                    index + 1)
    ensures KeptSoFar(steps, sizes, slots + [|held|], index + 1)
  {}

  lemma ReuseKeeps(steps: seq<Step>, sizes: seq<Pixels>, slots: seq<nat>, held: seq<Target>, index: nat, free: nat,
                   readers: seq<Option<nat>>)
    requires |slots| == index < |steps| && Holding(steps, sizes, slots, held, index)
        && KeptSoFar(steps, sizes, slots, index)
    requires |readers| == |steps| && forall k :: 0 <= k < |readers| ==> IsLastReader(steps, k, readers[k])
    requires free < |held| && Free(held[free], steps[index], SizeAt(sizes, index), index, readers)
    ensures KeptSoFar(steps, sizes, slots + [free], index + 1)
  {
    var holder := held[free].holder;
    ReaderBefore(steps, readers, holder, index);
    forall h | 0 <= h < index && slots[h] == free
      ensures Alike(steps, sizes, h, index) && !ReadFrom(steps, h, index)
    {
      if h != holder {
        assert h < holder && slots[h] == slots[holder];
        assert !ReadFrom(steps, h, holder);
      }
    }
  }

  /** When a new target is opened every target of its size and format is wanted, so
      the steps in them stand for theirs and the new step for its own. */
  ghost function Standing(held: seq<Target>, stand: seq<nat>, added: Target): (more: seq<nat>)
    requires |stand| == |held|
    ensures |more| == |held| + 1 && more[|held|] == added.holder
    ensures forall s :: 0 <= s < |held| ==> more[s] == if SameClass(held[s], added) then held[s].holder else stand[s]
  {
    if held == [] then [added.holder]
    else
      var one := if SameClass(held[0], added) then held[0].holder else stand[0];
      [one] + Standing(held[1..], stand[1..], added)
  }

  /** A target that may not be drawn into, though of the size and format, is wanted. */
  lemma HeldIsWanted(steps: seq<Step>, sizes: seq<Pixels>, held: seq<Target>, index: nat, readers: seq<Option<nat>>,
                     s: nat)
    requires index < |steps| == |readers| && s < |held| && held[s].holder < index
    requires IsLastReader(steps, held[s].holder, readers[held[s].holder])
    requires !Free(held[s], steps[index], SizeAt(sizes, index), index, readers)
    requires SameClass(held[s], Target(SizeAt(sizes, index), steps[index].format, index))
    ensures ReadFrom(steps, held[s].holder, index)
  {
    hide ReadFrom, IsLastReader;
    ReaderBefore(steps, readers, held[s].holder, index);
  }

  lemma StandingHolds(steps: seq<Step>, sizes: seq<Pixels>, slots: seq<nat>, held: seq<Target>, stand: seq<nat>,
                      index: nat, readers: seq<Option<nat>>)
    requires |slots| == index < |steps| && Holding(steps, sizes, slots, held, index) && Apart(steps, sizes, held, stand)
    requires |readers| == |steps| && forall k :: 0 <= k < |readers| ==> IsLastReader(steps, k, readers[k])
    requires forall s :: 0 <= s < |held| ==> !Free(held[s], steps[index], SizeAt(sizes, index), index, readers)
    ensures |stand| == |held|
    ensures var added := Target(SizeAt(sizes, index), steps[index].format, index);
            Apart(steps, sizes, held + [added], Standing(held, stand, added))
  {
    hide ReadFrom, IsLastReader, Free, Standing;
    var added := Target(SizeAt(sizes, index), steps[index].format, index);
    var more, stood := held + [added], Standing(held, stand, added);
    forall s | 0 <= s < |held| && SameClass(held[s], added)
      ensures ReadFrom(steps, held[s].holder, index)
    {
      HeldIsWanted(steps, sizes, held, index, readers, s);
    }
    forall s, t | 0 <= s < |more| && 0 <= t < |more| && s != t && SameClass(more[s], more[t])
      ensures Overlap(steps, stood[s], stood[t])
    {
      if s < |held| && t < |held| {
        if SameClass(held[s], added) {
          assert slots[held[s].holder] == s && slots[held[t].holder] == t;
          WantedLater(steps, held[s].holder, held[t].holder, index);
          WantedLater(steps, held[t].holder, held[s].holder, index);
        } else {
          assert SameClass(held[s], held[t]);
        }
      }
    }
  }

  lemma WantedLater(steps: seq<Step>, a: nat, b: nat, index: nat)
    requires a < index && b < index && ReadFrom(steps, a, index)
    ensures ReadFrom(steps, a, b)
  {}

  lemma NoneFewer(steps: seq<Step>, sizes: seq<Pixels>, held: seq<Target>, stand: seq<nat>, other: seq<nat>)
    requires Apart(steps, sizes, held, stand) && Keeps(steps, sizes, other)
    ensures |held| <= |Targets(other)|
  {
    var images := seq(|held|, s requires 0 <= s < |held| => other[stand[s]]);
    forall s, t | 0 <= s < t < |images|
      ensures images[s] != images[t]
    {
      if held[s].size == held[t].size && held[s].format == held[t].format { assert Overlap(steps, stand[s], stand[t]); }
      assert stand[s] != stand[t];
    }
    DistinctCount(images);
    assert Targets(images) <= Targets(other);
    SubsetSize(Targets(images), Targets(other));
  }

  lemma DistinctCount(s: seq<nat>)
    requires forall i, j :: 0 <= i < j < |s| ==> s[i] != s[j]
    ensures |Targets(s)| == |s|
  {
    if s != [] {
      var rest, last := s[..|s| - 1], s[|s| - 1];
      DistinctCount(rest);
      assert Targets(s) == Targets(rest) + {last};
      assert last !in rest;
    }
  }

  lemma SubsetSize(a: set<nat>, b: set<nat>)
    requires a <= b
    ensures |a| <= |b|
  {
    assert b == a + (b - a);
  }

  // ---- Reuse is never seen ----

  /** What each earlier step's target holds now. */
  function Seen(slots: seq<nat>, memory: map<nat, Picture>, n: nat): seq<Shot>
    requires n <= |slots|
  {
    seq(n, k requires 0 <= k < n => Shot(if slots[k] in memory then memory[slots[k]] else Blank, Whole))
  }

  /** What a step draws when it reads its feeds from the targets they were drawn in. */
  function DrawInSlots(steps: seq<Step>, slots: seq<nat>, i: nat, memory: map<nat, Picture>, scene: Scene,
                       states: seq<Shot>): Picture
    requires i < |steps| == |slots|
  {
    Draw(steps[i], scene, states, Seen(slots, memory, i)).picture
  }

  /** The targets after the first `n` steps, each overwriting its own. */
  function Memory(steps: seq<Step>, slots: seq<nat>, n: nat, scene: Scene, states: seq<Shot>): map<nat, Picture>
    requires n <= |steps| == |slots|
  {
    if n == 0 then map[]
    else
      var before := Memory(steps, slots, n - 1, scene, states);
      before[slots[n - 1] := DrawInSlots(steps, slots, n - 1, before, scene, states)]
  }

  /** Step `k`'s target still holds what step `k` drew. */
  ghost predicate Intact(steps: seq<Step>, slots: seq<nat>, memory: map<nat, Picture>, k: nat, scene: Scene,
                         states: seq<Shot>)
    requires k < |steps| == |slots|
  {
    slots[k] in memory && memory[slots[k]] == Run(steps, scene, states)[k].picture
  }

  /** A step draws the same picture from the targets if those it reads are intact. */
  lemma SameDrawn(steps: seq<Step>, slots: seq<nat>, i: nat, memory: map<nat, Picture>, scene: Scene, states: seq<Shot>)
    requires i < |steps| == |slots| && StepsOk(steps, |states|)
    requires forall k :: 0 <= k < i && ReadsStep(steps[i], k) ==> Intact(steps, slots, memory, k, scene, states)
    ensures DrawInSlots(steps, slots, i, memory, scene, states) == Run(steps, scene, states)[i].picture
  {
    var step, drawn, seen := steps[i], Run(steps, scene, states), Seen(slots, memory, i);
    RunAt(steps, i, scene, states);
    assert StepOk(step, i, |states|);
    if step.first.FromStep? { assert ReadsStep(step, step.first.k); }
    assert Read(step.first, scene, states, seen).picture == Read(step.first, scene, states, drawn[..i]).picture;
    forall u | 0 <= u < |step.uses|
      ensures Read(step.uses[u].1, scene, states, seen).picture
          == Read(step.uses[u].1, scene, states, drawn[..i]).picture
    {
      if step.uses[u].1.FromStep? { assert ReadsStep(step, step.uses[u].1.k); }
    }
    assert ReadUses(step.uses, scene, states, seen) == ReadUses(step.uses, scene, states, drawn[..i]);
  }

  /** After `n` steps every result still wanted, and the last, is in its target. */
  lemma {:induction false} WantedIsIntact(steps: seq<Step>, sizes: seq<Pixels>, slots: seq<nat>, n: nat, scene: Scene,
                                          states: seq<Shot>)
    requires n <= |steps| && StepsOk(steps, |states|) && Keeps(steps, sizes, slots)
    ensures forall k :: 0 <= k < n && (ReadFrom(steps, k, n) || k == n - 1) ==>
              Intact(steps, slots, Memory(steps, slots, n, scene, states), k, scene, states)
  {
    if n > 0 {
      WantedIsIntact(steps, sizes, slots, n - 1, scene, states);
      var before := Memory(steps, slots, n - 1, scene, states);
      forall k | 0 <= k < n - 1 && ReadsStep(steps[n - 1], k)
        ensures Intact(steps, slots, before, k, scene, states)
      {
        assert ReadFrom(steps, k, n - 1);
      }
      SameDrawn(steps, slots, n - 1, before, scene, states);
      forall k | 0 <= k < n - 1 && ReadFrom(steps, k, n)
        ensures Intact(steps, slots, Memory(steps, slots, n, scene, states), k, scene, states)
      {
        assert ReadFrom(steps, k, n - 1);
        assert slots[k] != slots[n - 1];
      }
    }
  }

  /** Drawing in shared targets is drawing in one target a step: each step draws the
      same picture, reads nothing it draws over, and the last one's is left at the
      end; and targets are shared only at one size and format. */
  lemma ReuseIsUnseen(steps: seq<Step>, sizes: seq<Pixels>, slots: seq<nat>, scene: Scene, states: seq<Shot>)
    requires StepsOk(steps, |states|) && Keeps(steps, sizes, slots)
    ensures forall i :: 0 <= i < |steps| ==>
              DrawInSlots(steps, slots, i, Memory(steps, slots, i, scene, states), scene, states)
                  == Run(steps, scene, states)[i].picture
    ensures forall i, k :: 0 <= k < i < |steps| && ReadsStep(steps[i], k) ==>
              slots[k] != slots[i] && Intact(steps, slots, Memory(steps, slots, i, scene, states), k, scene, states)
    ensures steps != [] ==>
        Intact(steps, slots, Memory(steps, slots, |steps|, scene, states), |steps| - 1, scene, states)
  {
    forall i | 0 <= i < |steps|
      ensures forall k :: 0 <= k < i && ReadsStep(steps[i], k) ==>
                slots[k] != slots[i] && Intact(steps, slots, Memory(steps, slots, i, scene, states), k, scene, states)
      ensures DrawInSlots(steps, slots, i, Memory(steps, slots, i, scene, states), scene, states)
          == Run(steps, scene, states)[i].picture
    {
      WantedIsIntact(steps, sizes, slots, i, scene, states);
      forall k | 0 <= k < i && ReadsStep(steps[i], k)
        ensures slots[k] != slots[i] && Intact(steps, slots, Memory(steps, slots, i, scene, states), k, scene, states)
      {
        assert ReadFrom(steps, k, i);
      }
      SameDrawn(steps, slots, i, Memory(steps, slots, i, scene, states), scene, states);
    }
    WantedIsIntact(steps, sizes, slots, |steps|, scene, states);
  }
}
