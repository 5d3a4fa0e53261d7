/** What an effect is refused for, in its own words: its names, its passes and their
    textures. */
module Limits {
  import opened Basics
  import opened Effects
  import opened Pictures
  import opened Interpreter
  import opened Unrolling

  /** A small letter or a line, by its number. */
  predicate Begins(c: char) { 0x61 <= c as int <= 0x7a || c as int == 0x5f }

  /** Or a digit. */
  predicate Continues(c: char) { Begins(c) || 0x30 <= c as int <= 0x39 }

  /** A name is small letters, digits and lines, with no digit first. */
  lemma IdentifierIs(name: string)
    ensures IsIdentifier(name) <==> name != "" && Begins(name[0]) && forall i :: 0 <= i < |name| ==> Continues(name[i])
  {
    assert forall c :: LowerOrLine(c) <==> Begins(c);
  }

  /** What the prelude declares itself for another known name. */
  predicate Beside(name: string, known: seq<string>) {
    exists other :: other in known && name in {other + "_sampler", other + "_box", other + "_clamp"}
  }

  lemma OwnOfIs(name: string, known: seq<string>)
    ensures OwnOf(name, known) <==> Beside(name, known)
  {}

  /** A name the prelude cannot declare beside the others. */
  predicate Unfit(name: string, known: seq<string>) {
    !IsIdentifier(name) || name in VOCABULARY || Beside(name, known)
  }

  /** The known names are refused exactly where one is unfit. */
  lemma {:induction false} KnownRefused(known: seq<string>, all: seq<string>)
    ensures CheckKnown(known, all).Some? <==> exists name :: name in known && Unfit(name, all)
    ensures CheckKnown(known, all).Some? ==> CheckKnown(known, all).value in {BadName, NameTaken}
  {
    hide IsIdentifier, VOCABULARY, OwnOf, Beside;
    if known != [] {
      OwnOfIs(known[0], all);
      assert Unfit(known[0], all) <==> !IsIdentifier(known[0]) || known[0] in VOCABULARY || OwnOf(known[0], all);
      KnownRefused(known[1..], all);
      assert forall name :: name in known <==> name == known[0] || name in known[1..];
    }
  }

  /** So an effect is refused for any unfit name that it saves, makes a state or has for an
      input. */
  lemma NamesRefused(lib: Library, root: string, overrides: Params, name: string)
    requires lib.Resolve(root, overrides).Ok?
    requires var binding := lib.Resolve(root, overrides).value;
             && (Mentions(binding.stages, name)
                 || exists i ::
                      0 <= i < |binding.inputs| && binding.inputs[i] != "shape" && KnownAs(binding.inputs[i], name))
             && (!IsIdentifier(name) || name in VOCABULARY)
    ensures PlayEffect(lib, root, overrides).Err? && PlayEffect(lib, root, overrides).error in {BadName, NameTaken}
  {
    hide IsIdentifier, VOCABULARY, Mentions, KnownAs, Play, CheckKnown, NamesIn, InputNames;
    var binding := lib.Resolve(root, overrides).value;
    var known := ContextOf(root, binding).known;
    KnownIs(root, binding);
    KnownRefused(known, known);
    assert Unfit(name, known);
  }

  /** A param that is handed to GLSL, by name: any but a word. */
  predicate SentAs(params: Params, name: string) {
    exists i :: 0 <= i < |params| && params[i].0 == name && !params[i].1.Word?
  }

  predicate Declared(kinds: seq<(string, Kind)>, name: string) {
    exists j :: 0 <= j < |kinds| && kinds[j].0 == name
  }

  lemma DeclaredFirst(first: (string, Kind), rest: seq<(string, Kind)>, name: string)
    ensures Declared([first] + rest, name) <==> first.0 == name || Declared(rest, name)
  {
    var all := [first] + rest;
    if first.0 == name { assert all[0].0 == name; }
    if j :| 0 <= j < |rest| && rest[j].0 == name { assert all[j + 1] == rest[j]; }
  }

  lemma SentOrLater(params: Params, name: string)
    requires params != []
    ensures SentAs(params, name) <==> (params[0].0 == name && !params[0].1.Word?) || SentAs(params[1..], name)
  {
    assert forall i :: 0 < i < |params| ==> params[i] == params[1..][i - 1];
    if i :| 0 <= i < |params[1..]| && params[1..][i].0 == name && !params[1..][i].1.Word? {
      assert params[i + 1] == params[1..][i];
    }
  }

  lemma {:induction false} KindNames(params: Params, name: string)
    ensures Declared(Kinds(params), name) <==> SentAs(params, name)
  {
    if params != [] {
      hide Declared, SentAs;
      KindNames(params[1..], name);
      SentOrLater(params, name);
      if !params[0].1.Word? { DeclaredFirst((params[0].0, KindOf(params[0].1).value), Kinds(params[1..]), name); }
    }
  }

  /** A `repeat` is refused its name exactly where it is no name, or a param of its effect's
      or a `repeat` around it has it. */
  lemma RepeatNamed(lib: Library, w: Walk, effect: string, binding: Binding, over: seq<real>, asName: string,
                    body: seq<Stage>, e: Env)
    requires w.cx == ContextOf(effect, binding)
    ensures PlayOne(lib, w, Repeat(over, asName, body), e)
         == if !IsIdentifier(asName) then Err(BadName)
            else if SentAs(binding.params, asName) || (exists i :: 0 <= i < |w.extra| && w.extra[i].0 == asName)
            then Err(ParamTaken)
            else PlayEach(lib, w, over, asName, body, e)
  {
    hide IsIdentifier, PlayEach;
    KindNames(binding.params, asName);
  }

  // ---- How many passes ----

  lemma {:induction false} EachCounts(lib: Library, w: Walk, over: seq<real>, asName: string, pass: Stage, e: Env)
    requires pass.Pass? && pass.input.None? && pass.uses == [] && e.count <= 256
    ensures var played := PlayEach(lib, w, over, asName, [pass], e);
            if e.count + |over| <= 256 then played.Ok? && played.value.count == e.count + |over|
            else played == Err(TooManyPasses)
    decreases |over|
  {
    if over != [] {
      var more := w.(extra := w.extra + [(asName, over[0])]);
      var next := PlayPass(more, pass, e);
      OnePlayed(lib, more, pass, e);
      hide PlayPass;
      if next.Ok? { EachCounts(lib, w, over[1..], asName, pass, next.value); }
    }
  }

  lemma OnePlayed(lib: Library, w: Walk, pass: Stage, e: Env)
    requires pass.Pass? && pass.input.None? && pass.uses == [] && e.count <= 256
    ensures Play(lib, w, [pass], e) == PlayPass(w, pass, e)
    ensures var played := PlayPass(w, pass, e);
            if e.count < 256 then played.Ok? && played.value.count == e.count + 1 else played == Err(TooManyPasses)
  {
    assert [pass][1..] == [];
  }

  /** A `repeat` of one pass is refused exactly where it is more than 256 passes. */
  lemma RepeatsAllowed(lib: Library, root: string, overrides: Params, over: seq<real>, asName: string, pass: Stage)
    requires lib.Resolve(root, overrides) == Ok(Binding([Repeat(over, asName, [pass])], [], []))
    requires root in lib.names && IsIdentifier(asName) && pass.Pass? && pass.input.None? && pass.uses == []
    ensures PlayEffect(lib, root, overrides).Ok? <==> |over| <= 256
    ensures |over| > 256 ==> PlayEffect(lib, root, overrides) == Err(TooManyPasses)
  {
    hide PlayEach, IsIdentifier;
    var binding := lib.Resolve(root, overrides).value;
    var cx := ContextOf(root, binding);
    var val := Val(OfInput, Shot(Source("self"), Whole), 0);
    assert binding.stages[1..] == [] && [pass][1..] == [];
    assert NamesIn([pass], []) == [] && NamesIn(binding.stages, []) == [] && cx.known == [];
    var w := Walk(cx, Some(val), [] + [root], Whole, []);
    var begun := Env(val, map[], [], 0, [], []);
    EachCounts(lib, w, over, asName, pass, begun);
    hide NamesIn, ContextOf;
    assert PlayOne(lib, w, binding.stages[0], begun) == PlayEach(lib, w, over, asName, [pass], begun);
    assert Play(lib, w, binding.stages, begun) == PlayEach(lib, w, over, asName, [pass], begun);
  }

  // ---- How many textures ----

  lemma {:induction false} UsesCount(w: Walk, saved: map<string, Val>, uses: seq<string>)
    requires forall i :: 0 <= i < |uses| ==> uses[i] != "shape" && Lookup(w, saved, uses[i]).Ok?
    ensures LookupUses(w, saved, uses).Ok? && |LookupUses(w, saved, uses).value| == |uses|
  {
    hide Lookup;
    if uses != [] { UsesCount(w, saved, uses[..|uses| - 1]); }
  }

  /** A pass whose names are all found is refused its textures exactly where it uses more
      than seven beside the one it starts from. */
  lemma TexturesAllowed(w: Walk, pass: Stage, e: Env)
    requires pass.Pass? && pass.input.None? && e.count < 256
    requires forall i :: 0 <= i < |pass.uses| ==> pass.uses[i] != "shape" && Lookup(w, e.saved, pass.uses[i]).Ok?
    ensures PlayPass(w, pass, e).Ok? <==> |pass.uses| <= 7
    ensures |pass.uses| > 7 ==> PlayPass(w, pass, e) == Err(TooManyTextures)
  {
    hide Lookup;
    UsesCount(w, e.saved, pass.uses);
  }
}
