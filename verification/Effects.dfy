/** The stage model: an effect's stages as written, and the plan they are
    flattened into. */
module Effects {
  import opened Basics

  /** A plan may hold this many steps, counting those that make its states. */
  const MOST_STEPS: nat := 256

  /** A pass may bind this many textures, counting the one it starts from. */
  const MOST_TEXTURES: nat := 8

  datatype Value =
    | Number(number: real)
    | Int(whole: int)
    | Bool(flag: bool)
    | Vec4(x: real, y: real, z: real, w: real)
    | Word(word: string)

  datatype Kind = FloatKind | IntKind | Vec4Kind

  /** A value's GLSL kind; a word has none. */
  function KindOf(value: Value): Option<Kind> {
    match value
    case Number(_) => Some(FloatKind)
    case Int(_) => Some(IntKind)
    case Bool(_) => Some(IntKind)
    case Vec4(_, _, _, _) => Some(Vec4Kind)
    case Word(_) => None
  }

  type Params = seq<(string, Value)>

  datatype Format = Rgba8 | Rgba16f

  datatype Depends = OnShape | OnParams | OnSelfCommit | OnRegion

  datatype Stage =
    | Pass(frag: string, scale: real, format: Format, uses: seq<string>, input: Option<string>, perPart: bool)
    | Repeat(over: seq<real>, asName: string, body: seq<Stage>)
    | Save(name: string)
    | Get(name: string)
    | Use(effect: string, params: Params)
    | State(name: string, format: Format, scale: real, depends: Depends, body: seq<Stage>)

  /** What a step reads, as the finished plan writes it down. */
  datatype Feed = FromInput(name: string) | FromStep(k: nat) | FromState(k: nat)

  /** What a step's size is taken from. */
  datatype Size = Scaled(of: Feed, scale: real) | Like(of: Feed)

  datatype Signature = Signature(params: seq<(string, Kind)>, uses: seq<string>, known: seq<string>)

  datatype Step = Step(
    effect: string, frag: string, signature: Signature, size: Size, format: Format,
    first: Feed, uses: seq<(string, Feed)>, uniforms: Params, key: nat, perPart: bool)

  datatype StatePlan = StatePlan(name: string, format: Format, scale: real, depends: Depends, steps: seq<Step>)

  datatype Reads = Reads(own: bool, backdrop: bool, shape: bool, before: bool)

  datatype Plan = Plan(steps: seq<Step>, states: seq<StatePlan>, marks: Reads, firstInput: string)

  datatype Binding = Binding(stages: seq<Stage>, inputs: seq<string>, params: Params)

  datatype Error =
    | NoEffect | Cycle | Unbindable | NotMade | NotDeclared
    | TooManyPasses | TooManyTextures | BadName | NameTaken | ParamTaken | NoRegions

  /** The effects there are, and how one is bound by name: the resolver. */
  datatype Library = Library(names: set<string>, bind: (string, Params) -> Result<Binding, Error>) {
    function Resolve(name: string, params: Params): Result<Binding, Error> {
      if name in names then bind(name, params) else Err(NoEffect)
    }
  }

  // ---- Names ----

  predicate LowerOrLine(c: char) { ('a' <= c <= 'z') || c == '_' }

  predicate IsIdentifier(name: string) {
    && name != [] && LowerOrLine(name[0])
    && forall i :: 0 <= i < |name| ==> LowerOrLine(name[i]) || ('0' <= name[i] <= '9')
  }

  const VOCABULARY: set<string> := {
    "effect", "tex", "tex_sampler", "tex_box", "tex_clamp", "texel", "size", "content", "box_px", "radii",
    "progress", "clamped", "direction", "seed", "time", "to_content", "to_uv", "part", "to_pane", "sdf_rrect",
    "sdf", "shape", "hash", "noise"
  }

  predicate OwnOf(name: string, known: seq<string>) {
    exists other :: other in known && (name == other + "_sampler" || name == other + "_box" || name == other + "_clamp")
  }

  /** Why the prelude cannot declare some known name, if it cannot. */
  function CheckKnown(known: seq<string>, all: seq<string>): Option<Error> {
    if known == [] then None
    else if !IsIdentifier(known[0]) then Some(BadName)
    else if known[0] in VOCABULARY || OwnOf(known[0], all) then Some(NameTaken)
    else CheckKnown(known[1..], all)
  }

  function TrimState(input: string): string {
    if "state:" <= input then TrimState(input[6..]) else input
  }

  function Adding(known: seq<string>, name: string): seq<string> {
    if name in known then known else known + [name]
  }

  /** `known` and every name that a `save` or a `state` in these stages introduces, each once. */
  function NamesIn(stages: seq<Stage>, known: seq<string>): seq<string>
    decreases stages
  {
    if stages == [] then known
    else
      var here := match stages[0]
        case Save(name) => Adding(known, name)
        case State(name, _, _, _, body) => NamesIn(body, Adding(known, name))
        case Repeat(_, _, body) => NamesIn(body, known)
        case _ => known;
      NamesIn(stages[1..], here)
  }

  function InputNames(inputs: seq<string>): seq<string> {
    if inputs == [] then []
    else
      var before := InputNames(inputs[..|inputs| - 1]);
      var last := inputs[|inputs| - 1];
      if last == "shape" then before else Adding(before, TrimState(last))
  }

  // ---- The part of an effect that its stages refer to ----

  datatype Context = Context(
    effect: string, params: seq<(string, Kind)>, uniforms: Params, known: seq<string>, inputs: seq<string>,
      first: string)

  function Kinds(params: Params): seq<(string, Kind)> {
    if params == [] then []
    else
      var rest := Kinds(params[1..]);
      var kind := KindOf(params[0].1);
      if kind.Some? then [(params[0].0, kind.value)] + rest else rest
  }

  function Uniforms(params: Params): Params {
    if params == [] then []
    else if KindOf(params[0].1).Some? then [params[0]] + Uniforms(params[1..]) else Uniforms(params[1..])
  }

  function ContextOf(name: string, binding: Binding): Context {
    Context(name, Kinds(binding.params), Uniforms(binding.params), NamesIn(binding.stages, InputNames(binding.inputs)),
            binding.inputs, if binding.inputs == [] then "self" else binding.inputs[0])
  }

  /** A repeat's values, as the params and uniforms they become. */
  function ExtraKinds(extra: seq<(string, real)>): seq<(string, Kind)> {
    seq(|extra|, i requires 0 <= i < |extra| => (extra[i].0, FloatKind))
  }

  function ExtraUniforms(extra: seq<(string, real)>): Params {
    seq(|extra|, i requires 0 <= i < |extra| => (extra[i].0, Number(extra[i].1)))
  }

  predicate ParamNamed(cx: Context, extra: seq<(string, real)>, name: string) {
    || (exists i :: 0 <= i < |cx.params| && cx.params[i].0 == name)
    || (exists i :: 0 <= i < |extra| && extra[i].0 == name)
  }
}
