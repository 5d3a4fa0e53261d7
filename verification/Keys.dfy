/** The content hash, and the chained keys under which steps' results are shared. */
module Keys {
  import opened Effects
  import opened Pictures
  import opened Decimals
  import opened TextBytes
  import opened Bits

  const BASIS: Word := 0xcbf2_9ce4_8422_2325

  /** The byte after each part. */
  const MARK: Byte := 0xff

  // ---- The content hash ----

  /** One byte hashed in: exclusive or, and a product that wraps at 64 bits. */
  function Mixed(hash: Word, byte: Byte): Word { Xor(hash, byte) * PRIME % WORDS }

  function Hashed(bytes: Bytes): Word {
    if bytes == [] then BASIS else Mixed(Hashed(bytes[..|bytes| - 1]), bytes[|bytes| - 1])
  }

  /** Parts run together, each with its mark after it. */
  function Framed(parts: seq<Bytes>): Bytes {
    if parts == [] then [] else Framed(parts[..|parts| - 1]) + parts[|parts| - 1] + [MARK]
  }

  lemma HashOne(bytes: Bytes, byte: Byte)
    ensures Hashed(bytes + [byte]) == Mixed(Hashed(bytes), byte)
  {
    hide Mixed;
    assert (bytes + [byte])[..|bytes|] == bytes;
  }

  method ContentHash(parts: seq<Bytes>) returns (hash: Word)
    ensures hash == Hashed(Framed(parts))
  {
    hide Mixed, Hashed;
    hash := HashOfNone();
    for i := 0 to |parts|
      invariant hash == Hashed(Framed(parts[..i]))
    {
      var part := parts[i] + [MARK];
      ghost var before := Framed(parts[..i]);
      assert before + part[..0] == before;
      for j := 0 to |part|
        invariant hash == Hashed(before + part[..j])
      {
        assert before + part[..j + 1] == before + part[..j] + [part[j]];
        HashOne(before + part[..j], part[j]);
        hash := Mixed(hash, part[j]);
      }
      assert parts[..i + 1][..i] == parts[..i] && before + part[..|part|] == Framed(parts[..i + 1]);
    }
    assert parts[..|parts|] == parts;
  }

  method HashOfNone() returns (hash: Word)
    ensures hash == Hashed(Framed([]))
  {
    hash := BASIS;
  }

  // ---- What the hash tells apart ----

  lemma MixedTells(h: Word, b: Byte, g: Word, c: Byte)
    requires Mixed(h, b) == Mixed(g, c)
    ensures b == c <==> h == g
  {
    hide Xor;
    XorOfWords(h, b);
    XorOfWords(g, c);
    ProductTells(Xor(h, b), Xor(g, c));
    if b == c { XorTells(h, g, b); }
    if h == g {
      EitherWay(h, b);
      EitherWay(h, c);
      XorTells(b, c, h);
    }
  }

  /** Bytes put after two texts leave their hashes alike or unlike as they were. */
  lemma {:induction false} EndsTell(x: Bytes, y: Bytes, end: Bytes)
    ensures Hashed(x + end) == Hashed(y + end) <==> Hashed(x) == Hashed(y)
  {
    hide Mixed, Hashed;
    if end == [] {
      assert x + end == x && y + end == y;
    } else {
      var n := |end| - 1;
      EndsTell(x, y, end[..n]);
      assert x + end == x + end[..n] + [end[n]] && y + end == y + end[..n] + [end[n]];
      HashOne(x + end[..n], end[n]);
      HashOne(y + end[..n], end[n]);
      if Hashed(x + end) == Hashed(y + end) { MixedTells(Hashed(x + end[..n]), end[n], Hashed(y + end[..n]), end[n]); }
    }
  }

  /** Texts of one length that differ in a single byte never hash alike. */
  lemma ByteTells(head: Bytes, b: Byte, c: Byte, end: Bytes)
    ensures Hashed(head + [b] + end) == Hashed(head + [c] + end) <==> b == c
  {
    hide Mixed, Hashed;
    HashOne(head, b);
    HashOne(head, c);
    EndsTell(head + [b], head + [c], end);
    if Hashed(head + [b]) == Hashed(head + [c]) { MixedTells(Hashed(head), b, Hashed(head), c); }
  }

  /** Nor do parts: one byte of one of them changed changes the hash of all. */
  lemma {:induction false} PartsTell(parts: seq<Bytes>, i: nat, j: nat, byte: Byte)
    requires i < |parts| && j < |parts[i]| && byte != parts[i][j]
    ensures Hashed(Framed(parts)) != Hashed(Framed(parts[i := parts[i][..j] + [byte] + parts[i][j + 1..]]))
  {
    hide Hashed;
    var (n, part, other) := (|parts| - 1, parts[i], parts[i := parts[i][..j] + [byte] + parts[i][j + 1..]]);
    if i == n {
      var (before, end) := (Framed(parts[..n]), part[j + 1..] + [MARK]);
      assert other[..n] == parts[..n];
      assert Framed(parts) == before + part[..j] + [part[j]] + end;
      assert Framed(other) == before + part[..j] + [byte] + end;
      ByteTells(before + part[..j], part[j], byte, end);
    } else {
      var end := parts[n] + [MARK];
      PartsTell(parts[..n], i, j, byte);
      assert other[..n] == parts[..n][i := part[..j] + [byte] + part[j + 1..]];
      assert Framed(parts) == Framed(parts[..n]) + end && Framed(other) == Framed(other[..n]) + end;
      EndsTell(Framed(parts[..n]), Framed(other[..n]), end);
    }
  }

  /** The hash of no parts, and of the one part `a`. */
  lemma KnownHashes()
    ensures Hashed(Framed([])) == 0xcbf2_9ce4_8422_2325
    ensures Hashed(Framed([Utf8("a")])) == 0x089b_c907_b544_c769
  {
    var one := [Utf8("a")];
    assert one[0] == [0x61] && one[..0] == [];
    assert Framed(one) == [] + [0x61] + [MARK];
    HashOne([], 0x61);
    HashOne([0x61], MARK);
    MixedIn();
  }

  lemma MixedIn()
    ensures Mixed(BASIS, 0x61) == 0xaf63_dc4c_8601_ec8c && Mixed(0xaf63_dc4c_8601_ec8c, MARK) == 0x089b_c907_b544_c769
  {
    assert Xor(0x32f_ca73_9210_888c, 0x1) == 0x32f_ca73_9210_888d;
    assert Xor(0x65f_94e7_2421_1119, 0x3) == 0x65f_94e7_2421_111a;
    assert Xor(0xcbf_29ce_4842_2232, 0x6) == 0xcbf_29ce_4842_2234;
    assert Xor(0x197e_539c_9084_4464, 0xc) == 0x197e_539c_9084_4468;
    assert Xor(0x32fc_a739_2108_88c9, 0x18) == 0x32fc_a739_2108_88d1;
    assert Xor(0x65f9_4e72_4211_1192, 0x30) == 0x65f9_4e72_4211_11a2;
    assert Xor(0xcbf2_9ce4_8422_2325, 0x61) == 0xcbf2_9ce4_8422_2344;
    assert Xor(0x15e_c7b8_990c_03d9, 0x1) == 0x15e_c7b8_990c_03d8;
    assert Xor(0x2bd_8f71_3218_07b2, 0x3) == 0x2bd_8f71_3218_07b1;
    assert Xor(0x57b_1ee2_6430_0f64, 0x7) == 0x57b_1ee2_6430_0f63;
    assert Xor(0xaf6_3dc4_c860_1ec8, 0xf) == 0xaf6_3dc4_c860_1ec7;
    assert Xor(0x15ec_7b89_90c0_3d91, 0x1f) == 0x15ec_7b89_90c0_3d8e;
    assert Xor(0x2bd8_f713_2180_7b23, 0x3f) == 0x2bd8_f713_2180_7b1c;
    assert Xor(0x57b1_ee26_4300_f646, 0x7f) == 0x57b1_ee26_4300_f639;
    assert Xor(0xaf63_dc4c_8601_ec8c, 0xff) == 0xaf63_dc4c_8601_ec73;
  }

  predicate Unmarked(part: Bytes) { MARK !in part }

  /** Parts free of the mark never run together. */
  lemma {:induction false} FramingIsOneToOne(a: seq<Bytes>, b: seq<Bytes>)
    requires forall part :: part in a || part in b ==> Unmarked(part)
    requires Framed(a) == Framed(b)
    ensures a == b
  {
    if a != [] && b != [] {
      var (m, n) := (|a| - 1, |b| - 1);
      var (x, y) := (Framed(a[..m]), Framed(b[..n]));
      EndsMarked(a[..m]);
      EndsMarked(b[..n]);
      LastPart(x, a[m], y, b[n]);
      FramingIsOneToOne(a[..m], b[..n]);
    }
  }

  lemma EndsMarked(parts: seq<Bytes>)
    ensures var all := Framed(parts); all == [] || all[|all| - 1] == MARK
  {}

  lemma LaterIsIn(x: Bytes, a: Bytes, k: int)
    ensures |x| <= k < |x| + |a| ==> (x + a)[k] in a
  {
    assert |x| <= k < |x| + |a| ==> (x + a)[k] == a[k - |x|];
  }

  lemma EarlierIsIn(x: Bytes, a: Bytes, k: int)
    ensures 0 <= k < |x| ==> (x + a)[k] == x[k]
  {}

  lemma NotShorter(x: Bytes, a: Bytes, y: Bytes, b: Bytes)
    requires x + a == y + b && Unmarked(a) && (y == [] || y[|y| - 1] == MARK)
    ensures |x| >= |y|
  {
    LaterIsIn(x, a, |y| - 1);
    EarlierIsIn(y, b, |y| - 1);
  }

  lemma LastPart(x: Bytes, a: Bytes, y: Bytes, b: Bytes)
    requires x + a + [MARK] == y + b + [MARK] && Unmarked(a) && Unmarked(b)
    requires (x == [] || x[|x| - 1] == MARK) && (y == [] || y[|y| - 1] == MARK)
    ensures x == y && a == b
  {
    var all := x + a + [MARK];
    assert x + a == all[..|all| - 1] == y + b;
    NotShorter(x, a, y, b);
    NotShorter(y, b, x, a);
    assert x == (x + a)[..|x|] && y == (y + b)[..|y|] && a == (x + a)[|x|..] && b == (y + b)[|y|..];
  }

  /** With a mark inside a part they may. */
  lemma MarkedPartsRunTogether()
    ensures Framed([[MARK]]) == Framed([[], []])
  {
    var one: seq<Bytes>, two: seq<Bytes> := [[MARK]], [[], []];
    assert one[..0] == [] && two[..1][..0] == [];
    assert Framed(one) == [MARK, MARK] && Framed(two[..1]) == [MARK];
  }

  // ---- Chained keys ----

  /** What a step's key covers of it. */
  datatype View = View(key: nat, uniforms: Params, size: Size, format: Format, first: Feed, uses: seq<(string, Feed)>)

  function ViewOf(step: Step): View { View(step.key, step.uniforms, step.size, step.format, step.first, step.uses) }

  /** How a view is printed. */
  type Printing = View -> string

  /** No two of these steps' views that differ print alike, and each prints in
      brackets. */
  ghost predicate Faithful(show: Printing, steps: seq<Step>) {
    && (forall i :: 0 <= i < |steps| ==> show(ViewOf(steps[i])) != "" && show(ViewOf(steps[i]))[0] == '(')
    && forall i, j :: 0 <= i < |steps| && 0 <= j < |steps| && show(ViewOf(steps[i])) == show(ViewOf(steps[j])) ==>
         ViewOf(steps[i]) == ViewOf(steps[j])
  }

  lemma PartsFaithful(show: Printing, a: seq<Step>, b: seq<Step>, x: seq<Step>, y: seq<Step>)
    requires Faithful(show, a + b) && x <= a && y <= b
    ensures Faithful(show, x + y)
  {
    var (all, part) := (a + b, x + y);
    forall i | 0 <= i < |part|
      ensures exists k :: 0 <= k < |all| && all[k] == part[i]
    {
      assert all[if i < |x| then i else |a| + i - |x|] == part[i];
    }
  }

  /** What is hashed for the key of some steps. */
  function Text(first: string, steps: seq<Step>, show: Printing): string
    decreases |steps|, 0
  {
    if steps == [] then first
    else Decimal(KeyOf(first, steps[..|steps| - 1], show)) + show(ViewOf(steps[|steps| - 1]))
  }

  function KeyOf(first: string, steps: seq<Step>, show: Printing): Word
    decreases |steps|, 1
  {
    Hashed(Framed([Utf8(Text(first, steps, show))]))
  }

  /** Each step's key, of the first input and the steps up to it. */
  method ChainedKeys(plan: Plan, show: Printing) returns (keys: seq<Word>)
    ensures |keys| == |plan.steps|
    ensures forall k :: 0 <= k < |keys| ==> keys[k] == KeyOf(plan.firstInput, plan.steps[..k + 1], show)
  {
    hide Hashed, Framed;
    var last := ContentHash([Utf8(plan.firstInput)]);
    keys := [];
    assert plan.steps[..0] == [];
    for k := 0 to |plan.steps|
      invariant |keys| == k && last == KeyOf(plan.firstInput, plan.steps[..k], show)
      invariant forall j :: 0 <= j < k ==> keys[j] == KeyOf(plan.firstInput, plan.steps[..j + 1], show)
    {
      var text := Decimal(last) + show(ViewOf(plan.steps[k]));
      assert plan.steps[..k + 1][..k] == plan.steps[..k];
      last := ContentHash([Utf8(text)]);
      keys := keys + [last];
    }
  }

  /** The key that stands for what a plan hands on. */
  method PlanKey(plan: Plan, show: Printing) returns (key: Word)
    ensures key == KeyOf(plan.firstInput, plan.steps, show)
  {
    hide Hashed, Framed;
    var keys := ChainedKeys(plan, show);
    if keys == [] {
      key := ContentHash([Utf8(plan.firstInput)]);
    } else {
      key := keys[|keys| - 1];
      assert plan.steps[..|keys|] == plan.steps;
    }
  }

  /** Steps up to `last` alone. */
  function UpTo(plan: Plan, last: nat): Plan {
    plan.(steps := plan.steps[..if last + 1 <= |plan.steps| then last + 1 else |plan.steps|])
  }

  /** A plan cut after a step has that step's key, and draws what the whole plan
      draws to there. */
  lemma UpToKeepsKey(plan: Plan, k: nat, show: Printing, scene: Scene)
    requires k < |plan.steps|
    ensures var cut := UpTo(plan, k);
            && KeyOf(cut.firstInput, cut.steps, show) == KeyOf(plan.firstInput, plan.steps[..k + 1], show)
            && Outcome(cut, scene) == RunPlan(plan, scene)[k]
  {
    RunPrefix(plan.steps, k + 1, scene, Make(plan.states));
    assert RunPlan(plan, scene)[..k + 1][k] == RunPlan(plan, scene)[k];
  }

  // ---- What a shared key means ----

  /** Step for step the same, in all their keys cover. */
  ghost predicate Agree(a: seq<Step>, b: seq<Step>) {
    |a| == |b| && forall i :: 0 <= i < |a| ==> ViewOf(a[i]) == ViewOf(b[i])
  }

  predicate BeginsWithDigit(text: string) { text != "" && IsDigit(text[0]) }

  /** Names that begin with a small letter or a line, as flattened plans' first inputs
      do, begin with no digit. Any other kind of name might be the very text that is
      hashed for some steps, and so share their key. */
  lemma DigitsRunTogether(first: string, g: string, steps: seq<Step>, show: Printing)
    ensures first != "" && LowerOrLine(first[0]) ==> !BeginsWithDigit(first)
    ensures steps != [] ==>
              var other := Text(g, steps, show);
              BeginsWithDigit(other) && KeyOf(other, [], show) == KeyOf(g, steps, show)
  {
    hide Framed, Hashed, Utf8;
    if steps != [] { TextBegins(g, steps, show); }
  }

  /** Heads that agree have one key. */
  lemma {:induction false} AgreeingHeadsShareKeys(first: string, a: seq<Step>, b: seq<Step>, show: Printing)
    requires Agree(a, b)
    ensures KeyOf(first, a, show) == KeyOf(first, b, show)
  {
    if a != [] { AgreeingHeadsShareKeys(first, a[..|a| - 1], b[..|b| - 1], show); }
  }

  /** Two parts the hash was given, different bytes and hashed alike. */
  ghost predicate Collide(f: string, a: seq<Step>, i: nat, g: string, b: seq<Step>, j: nat, show: Printing) {
    && i <= |a| && j <= |b|
    && Framed([Utf8(Text(f, a[..i], show))]) != Framed([Utf8(Text(g, b[..j], show))])
    && KeyOf(f, a[..i], show) == KeyOf(g, b[..j], show)
  }

  lemma TextBegins(first: string, steps: seq<Step>, show: Printing)
    requires steps != []
    ensures BeginsWithDigit(Text(first, steps, show))
  {}

  /** One text's bytes, framed, are no other's. */
  lemma OneFraming(s: string, t: string)
    requires Framed([Utf8(s)]) == Framed([Utf8(t)])
    ensures s == t
  {
    hide Framed, Utf8;
    FramingIsOneToOne([Utf8(s)], [Utf8(t)]);
    assert [Utf8(s)][0] == [Utf8(t)][0];
    Utf8IsOneToOne(s, t);
  }

  lemma TextsAgree(f: string, a: seq<Step>, g: string, b: seq<Step>, show: Printing)
    requires Faithful(show, a + b) && a != [] && b != [] && Text(f, a, show) == Text(g, b, show)
    ensures KeyOf(f, a[..|a| - 1], show) == KeyOf(g, b[..|b| - 1], show)
    ensures ViewOf(a[|a| - 1]) == ViewOf(b[|b| - 1])
  {
    hide KeyOf;
    var (m, n) := (|a| - 1, |b| - 1);
    assert (a + b)[m] == a[m] && (a + b)[|a| + n] == b[n];
    NumberThenText(KeyOf(f, a[..m], show), KeyOf(g, b[..n], show), show(ViewOf(a[m])), show(ViewOf(b[n])));
  }

  /** One text is of no steps only when the other is, and then it is the input. */
  lemma BothOrNeither(f: string, a: seq<Step>, g: string, b: seq<Step>, show: Printing)
    requires Text(f, a, show) == Text(g, b, show)
    requires |a| == |b| || (!BeginsWithDigit(f) && !BeginsWithDigit(g))
    ensures (a == [] <==> b == []) && (a == [] ==> f == g)
  {
    if a != [] { TextBegins(f, a, show); }
    if b != [] { TextBegins(g, b, show); }
  }

  /** Two plans with one key begin alike, unless the hash gave one value to two of
      the texts it was given for them, which are named. */
  lemma {:induction false} OneKeyMeansOneHead(f: string, a: seq<Step>, g: string, b: seq<Step>, show: Printing)
    returns (i: nat, j: nat)
    requires Faithful(show, a + b) && KeyOf(f, a, show) == KeyOf(g, b, show)
    requires |a| == |b| || (!BeginsWithDigit(f) && !BeginsWithDigit(g))
    ensures (f == g && Agree(a, b)) || Collide(f, a, i, g, b, j, show)
    decreases |a|
  {
    hide KeyOf, Text, Framed, Utf8, Faithful;
    i, j := |a|, |b|;
    assert a[..i] == a && b[..j] == b;
    if Framed([Utf8(Text(f, a, show))]) == Framed([Utf8(Text(g, b, show))]) {
      OneFraming(Text(f, a, show), Text(g, b, show));
      BothOrNeither(f, a, g, b, show);
      if a != [] {
        TextsAgree(f, a, g, b, show);
        var x, y := a[..|a| - 1], b[..|b| - 1];
        PartsFaithful(show, a, b, x, y);
        i, j := OneKeyMeansOneHead(f, x, g, y, show);
        if i <= |x| && j <= |y| { assert x[..i] == a[..i] && y[..j] == b[..j]; }
      }
    }
  }

  // ---- What a program is ----

  /** The strings a pass's program is compiled from: the vertex shader, the prelude
      its signature makes, the text of its fragment shader and the epilogue. */
  type Sources = (string, string, Signature) -> seq<string>

  function PartsOf(texts: seq<string>): seq<Bytes> {
    seq(|texts|, i requires 0 <= i < |texts| => Utf8(texts[i]))
  }

  /** The key the host gives a step: its program's strings, hashed. */
  function ProgramKey(step: Step, sources: Sources): Word {
    Hashed(Framed(PartsOf(sources(step.effect, step.frag, step.signature))))
  }

  ghost predicate Keyed(steps: seq<Step>, sources: Sources) {
    forall i :: 0 <= i < |steps| ==> steps[i].key == ProgramKey(steps[i], sources)
  }

  /** Two steps' programs, of different strings and hashed alike. */
  ghost predicate ProgramsCollide(a: Step, b: Step, sources: Sources) {
    && ProgramKey(a, sources) == ProgramKey(b, sources)
    && Framed(PartsOf(sources(a.effect, a.frag, a.signature))) != Framed(PartsOf(sources(b.effect, b.frag, b.signature)))
  }

  lemma OneProgram(a: Step, b: Step, sources: Sources)
    requires ProgramKey(a, sources) == ProgramKey(b, sources) && !ProgramsCollide(a, b, sources)
    ensures sources(a.effect, a.frag, a.signature) == sources(b.effect, b.frag, b.signature)
  {
    hide Framed, Utf8;
    var (s, t) := (sources(a.effect, a.frag, a.signature), sources(b.effect, b.frag, b.signature));
    FramingIsOneToOne(PartsOf(s), PartsOf(t));
    assert |s| == |PartsOf(s)| == |t|;
    forall i | 0 <= i < |s| ensures s[i] == t[i] {
      assert PartsOf(s)[i] == PartsOf(t)[i];
      Utf8IsOneToOne(s[i], t[i]);
    }
  }

  /** A picture as it is drawn: each pass by the strings of its program, whatever
      effect and file they are from and whether its stage says it is the part's own. */
  datatype Image =
    | Unmade
    | Given(name: string)
    | Painted(program: seq<string>, uniforms: Params, format: Format, first: Image, uses: seq<(string, Image)>)

  function ImageOf(picture: Picture, sources: Sources): Image {
    match picture
    case Blank => Unmade
    case Source(name) => Given(name)
    case Drawn(program, uniforms, format, first, uses) =>
      Painted(sources(program.effect, program.frag, program.signature), uniforms, format, ImageOf(first, sources),
              seq(|uses|, i requires 0 <= i < |uses| => (uses[i].0, ImageOf(uses[i].1, sources))))
  }

  /** One image at one size. */
  ghost predicate LookAlike(a: Shot, b: Shot, sources: Sources) {
    ImageOf(a.picture, sources) == ImageOf(b.picture, sources) && a.extent == b.extent
  }

  ghost predicate AllAlike(a: seq<Shot>, b: seq<Shot>, sources: Sources) {
    |a| == |b| && forall i :: 0 <= i < |a| ==> LookAlike(a[i], b[i], sources)
  }

  /** Two plans' states look alike under a feed, if it is of a state. */
  ghost predicate StateAlike(feed: Feed, states: seq<Shot>, others: seq<Shot>, sources: Sources) {
    feed.FromState? ==>
      && (feed.k < |states| <==> feed.k < |others|)
      && (feed.k < |states| ==> LookAlike(states[feed.k], others[feed.k], sources))
  }

  /** So they do under every feed some steps read. A step's key covers a state's number and
      not how the state is made. */
  ghost predicate StatesAlike(steps: seq<Step>, states: seq<Shot>, others: seq<Shot>, sources: Sources) {
    forall i :: 0 <= i < |steps| ==>
      && StateAlike(steps[i].first, states, others, sources) && StateAlike(steps[i].size.of, states, others, sources)
      && forall u :: 0 <= u < |steps[i].uses| ==> StateAlike(steps[i].uses[u].1, states, others, sources)
  }

  /** Two steps alike in all their keys cover, of one program, reading results that
      look alike, draw what looks alike. */
  lemma DrawAlike(a: Step, b: Step, scene: Scene, states: seq<Shot>, others: seq<Shot>, one: seq<Shot>, two: seq<Shot>,
                  sources: Sources)
    requires ViewOf(a) == ViewOf(b) && StatesAlike([a], states, others, sources) && AllAlike(one, two, sources)
    requires sources(a.effect, a.frag, a.signature) == sources(b.effect, b.frag, b.signature)
    ensures LookAlike(Draw(a, scene, states, one), Draw(b, scene, others, two), sources)
  {
    assert [a][0] == a;
    FeedAlike(a.first, scene, states, others, one, two, sources);
    FeedAlike(a.size.of, scene, states, others, one, two, sources);
    var (x, y) := (ReadUses(a.uses, scene, states, one), ReadUses(b.uses, scene, others, two));
    forall u | 0 <= u < |a.uses|
      ensures x[u].0 == y[u].0 && ImageOf(x[u].1, sources) == ImageOf(y[u].1, sources)
    {
      FeedAlike(a.uses[u].1, scene, states, others, one, two, sources);
    }
  }

  lemma FeedAlike(feed: Feed, scene: Scene, states: seq<Shot>, others: seq<Shot>, one: seq<Shot>, two: seq<Shot>,
                  sources: Sources)
    requires StateAlike(feed, states, others, sources) && AllAlike(one, two, sources)
    ensures LookAlike(Read(feed, scene, states, one), Read(feed, scene, others, two), sources)
  {}

  /** Heads that agree draw what looks alike, over states that do, unless two different
      programs have one key. */
  lemma {:induction false} AgreeingHeadsDrawAlike(a: seq<Step>, b: seq<Step>, scene: Scene, states: seq<Shot>,
                                                  others: seq<Shot>, sources: Sources)
    requires Agree(a, b) && Keyed(a, sources) && Keyed(b, sources) && StatesAlike(a, states, others, sources)
    requires forall i :: 0 <= i < |a| ==> !ProgramsCollide(a[i], b[i], sources)
    ensures AllAlike(Run(a, scene, states), Run(b, scene, others), sources)
  {
    hide ProgramKey, ProgramsCollide, LookAlike, Draw, PartsOf;
    if a != [] {
      var n := |a| - 1;
      assert [a[n]][0] == a[n];
      AgreeingHeadsDrawAlike(a[..n], b[..n], scene, states, others, sources);
      assert ViewOf(a[n]) == ViewOf(b[n]) && a[n].key == b[n].key;
      OneProgram(a[n], b[n], sources);
      DrawAlike(a[n], b[n], scene, states, others, Run(a[..n], scene, states), Run(b[..n], scene, others), sources);
    }
  }

  /** So one key is one result: two plans whose states look alike, with one key at two of
      their steps, draw there what looks alike and is of one size, unless the hash gave
      one value to two texts or two programs of theirs, which are named. */
  lemma OneKeyDrawsOneImage(one: Plan, k: nat, two: Plan, l: nat, show: Printing, sources: Sources, scene: Scene)
    returns (i: nat, j: nat)
    requires k < |one.steps| && l < |two.steps| && Faithful(show, one.steps[..k + 1] + two.steps[..l + 1])
    requires k == l || (!BeginsWithDigit(one.firstInput) && !BeginsWithDigit(two.firstInput))
    requires KeyOf(one.firstInput, one.steps[..k + 1], show) == KeyOf(two.firstInput, two.steps[..l + 1], show)
    requires Keyed(one.steps, sources) && Keyed(two.steps, sources)
    requires StatesAlike(one.steps[..k + 1], Make(one.states), Make(two.states), sources)
    ensures (k == l && LookAlike(RunPlan(one, scene)[k], RunPlan(two, scene)[k], sources))
         || Collide(one.firstInput, one.steps[..k + 1], i, two.firstInput, two.steps[..l + 1], j, show)
         || (i < |one.steps| && i < |two.steps| && ProgramsCollide(one.steps[i], two.steps[i], sources))
  {
    hide KeyOf, Text, Run, Make, ProgramKey, ProgramsCollide, LookAlike, Faithful, Collide;
    var (a, b) := (one.steps[..k + 1], two.steps[..l + 1]);
    i, j := OneKeyMeansOneHead(one.firstInput, a, two.firstInput, b, show);
    if !Collide(one.firstInput, a, i, two.firstInput, b, j, show) {
      if c :| 0 <= c < |a| && ProgramsCollide(a[c], b[c], sources) {
        i := c;
      } else {
        AgreeingHeadsDrawAlike(a, b, scene, Make(one.states), Make(two.states), sources);
        RunPrefix(one.steps, k + 1, scene, Make(one.states));
        RunPrefix(two.steps, k + 1, scene, Make(two.states));
        assert RunPlan(one, scene)[..k + 1][k] == RunPlan(one, scene)[k];
        assert RunPlan(two, scene)[..k + 1][k] == RunPlan(two, scene)[k];
      }
    }
  }
}
