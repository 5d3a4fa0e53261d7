/** What an effect's stages mean, read directly: results are pictures, not feeds;
    there are no step numbers, no step lists and no states list. */
module Interpreter {
  import opened Basics
  import opened Effects
  import opened Pictures

  /** Where a value came from: an input, a pass of this list, or a state. */
  datatype Origin = OfInput | OfStep | OfState

  /** A value, and for a pass how many of this list's were drawn with it. */
  datatype Val = Val(origin: Origin, shot: Shot, turn: nat)

  /** A state as it is kept, and everything drawn for it. */
  datatype Kept = Kept(name: string, format: Format, scale: real, depends: Depends, trace: seq<Shot>)

  /** The last result, the saved names, the sizes down passes left, the passes run,
      everything drawn into the list being made, and the states made. */
  datatype Env = Env(
    last: Val, saved: map<string, Val>, levels: seq<Extent>, count: nat, trace: seq<Shot>, kept: seq<Kept>)
  {
    function Turns(): nat { |trace| }

    function Latest(otherwise: Shot): Shot { if trace == [] then otherwise else trace[|trace| - 1] }
  }

  /** What a walk is given: the effects in use, outermost first, what the first
      input's name reads, how big the inputs are here, and the repeats around it. */
  datatype Walk = Walk(cx: Context, given: Option<Val>, stack: seq<string>, start: Extent, extra: seq<(string, real)>)

  function Lookup(w: Walk, saved: map<string, Val>, name: string): Result<Val, Error> {
    if name in saved then Ok(saved[name])
    else if "state:" + name in w.cx.inputs then Err(NotMade)
    else if name == w.cx.first && w.given.Some? then Ok(w.given.value)
    else if name in w.cx.inputs then Ok(Val(OfInput, Shot(Source(name), w.start), 0))
    else Err(NotDeclared)
  }

  /** The textures a pass uses, by name; the shape is no texture. */
  function LookupUses(w: Walk, saved: map<string, Val>, uses: seq<string>): Result<seq<(string, Picture)>, Error> {
    if uses == [] then Ok([])
    else
      var before :- LookupUses(w, saved, uses[..|uses| - 1]);
      var name := uses[|uses| - 1];
      if name == "shape" then Ok(before)
      else
        var val :- Lookup(w, saved, name);
        Ok(before + [(name, val.shot.picture)])
  }

  /** The size of a pass: up passes return to the level they came from. */
  function PassExtent(scale: real, levels: seq<Extent>, first: Extent): Extent {
    if scale > 1.0 && levels != [] then levels[|levels| - 1] else Part(first, scale)
  }

  function LevelsAfter(scale: real, levels: seq<Extent>, first: Extent): seq<Extent> {
    if scale > 1.0 then (if levels == [] then [] else levels[..|levels| - 1])
    else if scale < 1.0 then levels + [first]
    else levels
  }

  /** Names of the textures, as the program declares them. */
  function UseNames<T>(uses: seq<(string, T)>): seq<string> {
    seq(|uses|, i requires 0 <= i < |uses| => uses[i].0)
  }

  function PassProgram(w: Walk, frag: string, names: seq<string>, perPart: bool): Program {
    Program(w.cx.effect, frag, Signature(w.cx.params + ExtraKinds(w.extra), names, w.cx.known), 0, perPart)
  }

  function PlayPass(w: Walk, stage: Stage, e: Env): Result<Env, Error>
    requires stage.Pass?
  {
    if e.count >= MOST_STEPS then Err(TooManyPasses) else
    var first :- if stage.input.Some? then Lookup(w, e.saved, stage.input.value) else Ok(e.last);
    var uses :- LookupUses(w, e.saved, stage.uses);
    if |uses| + 1 > MOST_TEXTURES then Err(TooManyTextures) else
    var picture := Drawn(PassProgram(w, stage.frag, UseNames(uses), stage.perPart),
                         w.cx.uniforms + ExtraUniforms(w.extra), stage.format, first.shot.picture, uses);
    var shot := Shot(picture, PassExtent(stage.scale, e.levels, first.shot.extent));
    Ok(Env(Val(OfStep, shot, e.Turns() + 1), e.saved, LevelsAfter(stage.scale, e.levels, first.shot.extent),
           e.count + 1, e.trace + [shot], e.kept))
  }

  /** What a state sees of the saved names: its inputs, sized as it starts, and the
      states before it, never a pass's result. */
  function ForState(saved: map<string, Val>, start: Extent): map<string, Val> {
    map name | name in saved && saved[name].origin != OfStep ::
      if saved[name].origin == OfInput then Val(OfInput, Shot(saved[name].shot.picture, start), 0) else saved[name]
  }

  function Names(stack: seq<string>): set<string> { set s | s in stack }

  lemma FewerLeft(names: set<string>, stack: seq<string>, name: string)
    requires name in names && name !in stack
    ensures names - Names(stack + [name]) < names - Names(stack)
  {
    assert name in names - Names(stack) && name in Names(stack + [name]);
    assert Names(stack) <= Names(stack + [name]);
  }

  /** Every stage in order. */
  function Play(lib: Library, w: Walk, stages: seq<Stage>, e: Env): Result<Env, Error>
    decreases lib.names - Names(w.stack), stages, 0
  {
    if stages == [] then Ok(e)
    else
      var next :- PlayOne(lib, w, stages[0], e);
      Play(lib, w, stages[1..], next)
  }

  function PlayOne(lib: Library, w: Walk, stage: Stage, e: Env): Result<Env, Error>
    decreases lib.names - Names(w.stack), stage, 0
  {
    match stage
    case Pass(_, _, _, _, _, _) => PlayPass(w, stage, e)
    case Save(name) => Ok(e.(saved := e.saved[name := e.last]))
    case Get(name) =>
      var val :- Lookup(w, e.saved, name);
      Ok(e.(last := val))
    case Repeat(over, asName, body) =>
      if !IsIdentifier(asName) then Err(BadName)
      else if ParamNamed(w.cx, w.extra, asName) then Err(ParamTaken)
      else PlayEach(lib, w, over, asName, body, e)
    case Use(effect, params) =>
      if effect in w.stack then Err(Cycle) else
      var binding :- lib.Resolve(effect, params);
      assert lib.names - Names(w.stack + [effect]) < lib.names - Names(w.stack) by { FewerLeft(lib.names, w.stack, effect); }
      PlayBound(lib, w.stack, w.start, effect, binding, e)
    case State(name, format, scale, depends, body) =>
      if depends == OnRegion then Err(NoRegions) else
      var start := Part(Whole, scale);
      var inside := w.(given := None, start := start);
      var inner :- Play(lib, inside, body,
                        Env(Val(OfInput, Shot(Source(w.cx.first), start), 0), ForState(e.saved, start), [], e.count, [],
                            e.kept));
      Ok(e.(saved := e.saved[name := Val(OfState, inner.Latest(Shot(Blank, start)), 0)], count := inner.count,
            kept := inner.kept + [Kept(name, format, scale, depends, inner.trace)]))
  }

  /** `repeat`, one number after another. */
  function PlayEach(lib: Library, w: Walk, over: seq<real>, asName: string, body: seq<Stage>,
                    e: Env): Result<Env, Error>
    decreases lib.names - Names(w.stack), body, |over| + 1
  {
    if over == [] then Ok(e)
    else
      var next :- Play(lib, w.(extra := w.extra + [(asName, over[0])]), body, e);
      PlayEach(lib, w, over[1..], asName, body, next)
  }

  /** An effect already bound, given the last result: its own names and levels. */
  function PlayBound(lib: Library, stack: seq<string>, start: Extent, name: string, binding: Binding,
                     e: Env): Result<Env, Error>
    requires name in lib.names && name !in stack
    decreases lib.names - Names(stack + [name]), binding.stages, 1
  {
    var cx := ContextOf(name, binding);
    var bad := CheckKnown(cx.known, cx.known);
    if bad.Some? then Err(bad.value) else
    var inner :- Play(lib, Walk(cx, Some(e.last), stack + [name], start, []), binding.stages,
                      Env(e.last, map[], [], e.count, e.trace, e.kept));
    Ok(e.(last := inner.last, count := inner.count, trace := inner.trace, kept := inner.kept))
  }

  /** A whole effect, bound by name, over the part's own inputs. */
  function PlayEffect(lib: Library, root: string, overrides: Params): Result<Env, Error> {
    var binding :- lib.Resolve(root, overrides);
    var first := if binding.inputs == [] then "self" else binding.inputs[0];
    PlayBound(lib, [], Whole, root, binding, Env(Val(OfInput, Shot(Source(first), Whole), 0), map[], [], 0, [], []))
  }
}
