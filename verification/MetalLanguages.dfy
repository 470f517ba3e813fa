/** An effect language and a Metal, each by the names it has itself, over arbitrary primitives: types, intrinsics,
    options of sampling and formats of numbers all mean different things. The Metal realises the effect language, so
    that the hypothesis about the languages can be met. Where it could not, the emitted text is wrong. */
module MetalLanguages {
  import opened Options
  import opened MetalTranspiler
  import opened MetalSyntax
  import opened MetalMachines
  import opened MetalRefinement

  datatype Base = Float32 | Float16 | Int32 | Uint32 | Int16 | Uint16

  datatype Kind = Flat | Solid | Cube

  datatype Meaning =
    | Numbers(base: Base, n: nat)
    | Sampled(kind: Kind)
    | Record(name: string)
    | SlopeX | SlopeY | Fraction | Mixed
    | LevelOption | BiasOption | GradientOption
    | Matrices(rows: nat)
    | Unavailable
    | Other(name: string)

  /** How the level of detail of a lookup is chosen. */
  datatype Detail = Automatic | Biased(bias: real) | AtLevel(level: real) | Gradients(x: seq<real>, y: seq<real>)

  /** What a machine has; nothing is known about it. */
  datatype Primitives = Primitives(
    half: real -> real,
    short: real -> real,
    ushort: real -> real,
    wrap: real -> real,
    slopeX: Value -> Value,
    slopeY: Value -> Value,
    lookup: (nat, nat, Detail, Value) -> Option<Value>,
    texel: (nat, seq<real>, real) -> Option<Value>,
    literal: string -> Value,
    apply: (string, seq<Value>) -> Option<Value>,
    truth: Value -> bool,
    convert: (Meaning, Value) -> Option<Value>,
    initial: Meaning -> Value,
    update: (Value, seq<string>, Value) -> Option<Value>)

  // ---------------------------------------------------------------------------------------------------------
  // What names mean

  /** In Metal, chapter 2 of its specification for the types, and chapter 6 for functions and options. It has no numbers
      of double precision, no rectangle textures, no `clip`, and no types of ten or thirteen bits. */
  function MslMeaning(n: string): Meaning {
    match n
    case "float" => Numbers(Float32, 1)
    case "float2" => Numbers(Float32, 2)
    case "float3" => Numbers(Float32, 3)
    case "float4" => Numbers(Float32, 4)
    case "half" => Numbers(Float16, 1)
    case "half2" => Numbers(Float16, 2)
    case "half3" => Numbers(Float16, 3)
    case "half4" => Numbers(Float16, 4)
    case "short" => Numbers(Int16, 1)
    case "short2" => Numbers(Int16, 2)
    case "short3" => Numbers(Int16, 3)
    case "short4" => Numbers(Int16, 4)
    case "ushort" => Numbers(Uint16, 1)
    case "ushort2" => Numbers(Uint16, 2)
    case "ushort3" => Numbers(Uint16, 3)
    case "ushort4" => Numbers(Uint16, 4)
    case "int" => Numbers(Int32, 1)
    case "int2" => Numbers(Int32, 2)
    case "int3" => Numbers(Int32, 3)
    case "int4" => Numbers(Int32, 4)
    case "uint" => Numbers(Uint32, 1)
    case "uint2" => Numbers(Uint32, 2)
    case "uint3" => Numbers(Uint32, 3)
    case "uint4" => Numbers(Uint32, 4)
    case "texture2d<float>" => Sampled(Flat)
    case "texture3d<float>" => Sampled(Solid)
    case "texturecube<float>" => Sampled(Cube)
    case "dfdx" => SlopeX
    case "dfdy" => SlopeY
    case "fract" => Fraction
    case "mix" => Mixed
    case "level" => LevelOption
    case "bias" => BiasOption
    case "gradient2d" => GradientOption
    case "float3x3" => Matrices(3)
    case "float4x4" => Matrices(4)
    case "double" => Unavailable
    case "clip" => Unavailable
    case "texture_rect" => Unavailable
    case "min10float" => Unavailable
    case "min13int" => Unavailable
    case _ => Other(n)
  }

  /** In effect files, where `half` is as wide as `float`; what they do not have themselves is taken for Metal. */
  function HlslMeaning(n: string): Meaning {
    match n
    case "half" => Numbers(Float32, 1)
    case "half2" => Numbers(Float32, 2)
    case "half3" => Numbers(Float32, 3)
    case "half4" => Numbers(Float32, 4)
    case "min16float" => Numbers(Float16, 1)
    case "min16float2" => Numbers(Float16, 2)
    case "min16float3" => Numbers(Float16, 3)
    case "min16float4" => Numbers(Float16, 4)
    case "min16int" => Numbers(Int16, 1)
    case "min16int2" => Numbers(Int16, 2)
    case "min16int3" => Numbers(Int16, 3)
    case "min16int4" => Numbers(Int16, 4)
    case "min16uint" => Numbers(Uint16, 1)
    case "min16uint2" => Numbers(Uint16, 2)
    case "min16uint3" => Numbers(Uint16, 3)
    case "min16uint4" => Numbers(Uint16, 4)
    case "texture2d" => Sampled(Flat)
    case "texture3d" => Sampled(Solid)
    case "texture_cube" => Sampled(Cube)
    case "ddx" => SlopeX
    case "ddy" => SlopeY
    case "frac" => Fraction
    case "lerp" => Mixed
    case _ => MslMeaning(n)
  }

  /** Structs that are both input and output have another name as outputs. */
  function MslType(sh: Shader, t: string): Meaning {
    if |t| >= 4 && t[|t| - 4..] == "_Out" && t[..|t| - 4] in sh.inOutStructs then Record(t[..|t| - 4])
    else MslMeaning(t)
  }

  function HlslType(sh: Shader, t: string): Meaning {
    if t in sh.inOutStructs then Record(t)
    else if HlslMeaning(t) == MslMeaning(t) then MslType(sh, t)
    else HlslMeaning(t)
  }

  // ---------------------------------------------------------------------------------------------------------
  // Operations

  function Truncated(x: real): real {
    if x < 0.0 then -((-x).Floor as real) else x.Floor as real
  }

  function Cast(p: Primitives, base: Base, x: real): real {
    match base
    case Float32 => x
    case Float16 => p.half(x)
    case Int32 => Truncated(x)
    case Uint32 => if x < 0.0 then p.wrap(x) else x.Floor as real
    case Int16 => p.short(x)
    case Uint16 => p.ushort(x)
  }

  function CastAll(p: Primitives, base: Base, cs: seq<real>): seq<real> {
    seq(|cs|, i requires 0 <= i < |cs| => Cast(p, base, cs[i]))
  }

  predicate NoneEmpty(vs: seq<Value>) {
    forall i :: 0 <= i < |vs| ==> vs[i].components != []
  }

  function Joined(vs: seq<Value>): seq<real> {
    if vs == [] then [] else vs[0].components + Joined(vs[1..])
  }

  /** A vector from its components. */
  function Built(p: Primitives, base: Base, n: nat, vs: seq<Value>): Option<Value> {
    if NoneEmpty(vs) && |Joined(vs)| == n then Some(Value(CastAll(p, base, Joined(vs)))) else None
  }

  /** What a variable of that type gets: a scalar fills all components. */
  function Converted(p: Primitives, base: Base, n: nat, v: Value): Option<Value> {
    if |v.components| == n then Some(Value(CastAll(p, base, v.components)))
    else if |v.components| == 1 then Some(Value(seq(n, i => Cast(p, base, v.components[0]))))
    else None
  }

  function Each(f: real -> real, v: Value): Value {
    Value(seq(|v.components|, i requires 0 <= i < |v.components| => f(v.components[i])))
  }

  /** Component by component; a scalar serves all components. */
  function Zip(f: (real, real) -> real, a: Value, b: Value): Option<Value> {
    var x, y := a.components, b.components;
    if |x| == |y| then Some(Value(seq(|x|, i requires 0 <= i < |x| => f(x[i], y[i]))))
    else if |y| == 1 then Some(Value(seq(|x|, i requires 0 <= i < |x| => f(x[i], y[0]))))
    else if |x| == 1 then Some(Value(seq(|y|, i requires 0 <= i < |y| => f(x[0], y[i]))))
    else None
  }

  function Plus(a: Value, b: Value): Option<Value> {
    Zip((x: real, y: real) => x + y, a, b)
  }

  function Scaled(a: Value, b: Value): Option<Value> {
    Zip((x: real, y: real) => x * y, a, b)
  }

  function Blend(a: Value, b: Value, t: Value): Option<Value> {
    var s :- Zip((x: real, y: real) => x - y, Value([1.0]), t);
    var u :- Scaled(a, s);
    var v :- Scaled(b, t);
    Plus(u, v)
  }

  function Dot(a: seq<real>, b: seq<real>): real {
    if a == [] || b == [] then 0.0 else a[0] * b[0] + Dot(a[1..], b[1..])
  }

  function Entry(m: seq<real>, n: nat, row: nat, column: nat): real {
    if column * n + row < |m| then m[column * n + row] else 0.0
  }

  function RowOf(m: seq<real>, n: nat, row: nat): seq<real> {
    seq(n, j requires 0 <= j < n => Entry(m, n, row, j))
  }

  function ColumnOf(m: seq<real>, n: nat, column: nat): seq<real> {
    seq(n, i requires 0 <= i < n => Entry(m, n, i, column))
  }

  /** Square matrices of three or four columns, one column after the other, and vectors of as many components. */
  function Side(a: Value, b: Value): nat {
    var x, y := |a.components|, |b.components|;
    if (x == 9 && (y == 3 || y == 9)) || (x == 3 && y == 9) then 3
    else if (x == 16 && (y == 4 || y == 16)) || (x == 4 && y == 16) then 4
    else 0
  }

  function Linear(n: nat, a: Value, b: Value): Value {
    var x, y := a.components, b.components;
    if |x| == n then Value(seq(n, j requires 0 <= j < n => Dot(x, ColumnOf(y, n, j))))
    else if |y| == n then Value(seq(n, i requires 0 <= i < n => Dot(RowOf(x, n, i), y)))
    else Value(seq(n * n, k requires 0 <= k < n * n => Dot(RowOf(x, n, k % n), ColumnOf(y, n, k / n))))
  }

  predicate Small(a: Value, b: Value) {
    |a.components| <= 4 && |b.components| <= 4
  }

  // ---------------------------------------------------------------------------------------------------------
  // Metal

  /** In Metal `*` is the linear product if a matrix is involved. */
  function MslProduct(a: Value, b: Value): Option<Value> {
    if Side(a, b) > 0 then Some(Linear(Side(a, b), a, b)) else Scaled(a, b)
  }

  function MslApply(p: Primitives, f: string, vs: seq<Value>): Option<Value> {
    var n := |vs|;
    if f == "*" && n == 2 then MslProduct(vs[0], vs[1])
    else if f == "+" && n == 2 then Plus(vs[0], vs[1])
    else if f == ".xy" && n == 1 then
      if |vs[0].components| >= 2 then Some(Value(vs[0].components[..2])) else None
    else MslFunction(p, MslMeaning(f), f, vs)
  }

  function MslFunction(p: Primitives, m: Meaning, f: string, vs: seq<Value>): Option<Value> {
    var n := |vs|;
    match m
    case Numbers(base, k) => Built(p, base, k, vs)
    case SlopeX => if n == 1 then Some(p.slopeX(vs[0])) else None
    case SlopeY => if n == 1 then Some(p.slopeY(vs[0])) else None
    case Fraction => if n == 1 then Some(Each((x: real) => x - x.Floor as real, vs[0])) else None
    case Mixed => if n == 3 then Blend(vs[0], vs[1], vs[2]) else None
    case LevelOption => if n == 1 && |vs[0].components| == 1 then Some(Value(vs[0].components + [1.0])) else None
    case BiasOption => if n == 1 && |vs[0].components| == 1 then Some(Value(vs[0].components + [2.0])) else None
    case GradientOption =>
      if n == 2 && |vs[0].components| == |vs[1].components| == 2 then
        Some(Value(vs[0].components + vs[1].components))
      else None
    case Matrices(k) => if |Joined(vs)| == k * k then Some(Value(Joined(vs))) else None
    case Sampled(_) => None
    case Record(_) => None
    case Unavailable => None
    case Other(_) => p.apply(f, vs)
  }

  /** Options are told apart by their second component, and gradients by having four. */
  function DetailOf(option: Value): Option<Detail> {
    var c := option.components;
    if |c| == 2 && c[1] == 1.0 then Some(AtLevel(c[0]))
    else if |c| == 2 && c[1] == 2.0 then Some(Biased(c[0]))
    else if |c| == 4 then Some(Gradients(c[..2], c[2..]))
    else None
  }

  function MslCall(p: Primitives, t: nat, f: string, args: seq<Arg>): Option<Value> {
    if f == "sample" && |args| == 2 && args[0].Sampler? && args[1].Val? then
      p.lookup(t, args[0].id, Automatic, args[1].value)
    else if f == "sample" && |args| == 3 && args[0].Sampler? && args[1].Val? && args[2].Val? then
      var detail :- DetailOf(args[2].value);
      p.lookup(t, args[0].id, detail, args[1].value)
    else if f == "read" && |args| == 2 && args[0].Val? && args[1].Val? && |args[1].value.components| == 1 then
      p.texel(t, args[0].value.components, args[1].value.components[0])
    else None
  }

  function LiteralOf(p: Primitives, n: string): Value {
    if n == "0" then Value([0.0]) else p.literal(n)
  }

  function ConvertedTo(p: Primitives, m: Meaning, v: Value): Option<Value> {
    if m.Numbers? then Converted(p, m.base, m.n, v) else p.convert(m, v)
  }

  function Msl(p: Primitives, sh: Shader): Metal {
    Metal(
      n => LiteralOf(p, n),
      (f, vs) => MslApply(p, f, vs),
      (t: nat, f: string, args: seq<Arg>) => MslCall(p, t, f, args),
      p.truth,
      (t, v) => ConvertedTo(p, MslType(sh, t), v),
      t => p.initial(MslType(sh, t)),
      p.update)
  }

  // ---------------------------------------------------------------------------------------------------------
  // The effect language

  /** Products by `mul` are linear; those by `*` are not. A matrix that is put together, an inner product, and an
      integer vector of a scalar and a vector are not realised. */
  function HlslApply(p: Primitives, f: string, vs: seq<Value>): Option<Value> {
    var n := |vs|;
    if f == "mul" && n == 2 then
      if Side(vs[0], vs[1]) > 0 then Some(Linear(Side(vs[0], vs[1]), vs[0], vs[1]))
      else if |vs[0].components| == 1 || |vs[1].components| == 1 then Scaled(vs[0], vs[1])
      else None
    else if f == "mad" && n == 3 then
      if Small(vs[0], vs[1]) then
        var product :- Scaled(vs[0], vs[1]);
        Plus(product, vs[2])
      else None
    else if f == "*" && n == 2 then if Small(vs[0], vs[1]) then Scaled(vs[0], vs[1]) else None
    else if f == "+" && n == 2 then Plus(vs[0], vs[1])
    else if f == ".xy" && n == 1 then
      if |vs[0].components| >= 2 then Some(Value(vs[0].components[..2])) else None
    else if f == "int3" && n == 2 && |vs[0].components| != 2 then None
    else if HlslMeaning(f).Matrices? then None
    else MslFunction(p, HlslMeaning(f), f, vs)
  }

  function HlslAccess(p: Primitives, f: string, t: nat, s: nat, vs: seq<Value>): Option<Value> {
    var n := |vs|;
    match f
    case "Sample" => if n == 1 then p.lookup(t, s, Automatic, vs[0]) else None
    case "SampleBias" =>
      if n == 2 && |vs[1].components| == 1 then p.lookup(t, s, Biased(vs[1].components[0]), vs[0]) else None
    case "SampleLevel" =>
      if n == 2 && |vs[1].components| == 1 then p.lookup(t, s, AtLevel(vs[1].components[0]), vs[0]) else None
    case "SampleGrad" =>
      if n == 3 && |vs[1].components| == |vs[2].components| == 2 then
        p.lookup(t, s, Gradients(vs[1].components, vs[2].components), vs[0])
      else None
    case _ => None
  }

  /** A texel by two coordinates and a level, rounded to integers and none of them negative. A coordinate that is one
      value is realised at level zero only. */
  function HlslLoad(p: Primitives, t: nat, vs: seq<Value>): Option<Value> {
    var c := Joined(vs);
    if |c| != 3 || c[0] < 0.0 || c[1] < 0.0 || c[2] < 0.0 || !NoneEmpty(vs) then None
    else if |vs| == 1 && Truncated(c[2]) != 0.0 then None
    else if |vs| == 2 && |vs[0].components| != 2 then None
    else p.texel(t, [Truncated(c[0]), Truncated(c[1])], Truncated(c[2]))
  }

  function Hlsl(p: Primitives, sh: Shader): Effect {
    Effect(
      n => LiteralOf(p, n),
      (f, vs) => HlslApply(p, f, vs),
      (f: string, t: nat, s: nat, vs: seq<Value>) => HlslAccess(p, f, t, s, vs),
      (t: nat, vs: seq<Value>) => HlslLoad(p, t, vs),
      p.truth,
      (t, v) => ConvertedTo(p, HlslType(sh, t), v),
      t => p.initial(HlslType(sh, t)),
      p.update)
  }

  // ---------------------------------------------------------------------------------------------------------
  // Names

  lemma HalfNames()
    ensures forall n ::
      n in ["half", "half2", "half3", "half4", "min16float", "min16float2", "min16float3", "min16float4"] ==>
        MslMeaning(MetalName(n)) == HlslMeaning(n) && HlslMeaning(n).Numbers?
  {
  }

  lemma ShortNames()
    ensures forall n ::
      n in ["min16int", "min16int2", "min16int3", "min16int4", "min16uint", "min16uint2", "min16uint3", "min16uint4"]
      ==> MslMeaning(MetalName(n)) == HlslMeaning(n) && HlslMeaning(n).Numbers?
  {
  }

  lemma TextureNames()
    ensures forall n :: n in ["texture2d", "texture3d", "texture_cube"] ==>
      MslMeaning(MetalName(n)) == HlslMeaning(n) && HlslMeaning(n).Sampled?
  {
  }

  lemma FunctionNames()
    ensures forall n :: n in ["ddx", "ddy", "frac", "lerp"] ==>
      MslMeaning(MetalName(n)) == HlslMeaning(n) && !HlslMeaning(n).Other?
  {
  }

  lemma RespelledAre(n: string)
    requires MetalName(n) != n
    ensures n in ["half", "half2", "half3", "half4", "min16float", "min16float2", "min16float3", "min16float4"]
         || n in ["min16int", "min16int2", "min16int3", "min16int4"]
         || n in ["min16uint", "min16uint2", "min16uint3", "min16uint4"]
         || n in ["texture2d", "texture3d", "texture_cube"] || n in ["ddx", "ddy", "frac", "lerp"]
  {
  }

  lemma OthersAre(n: string)
    requires MetalName(n) == n
    ensures HlslMeaning(n) == MslMeaning(n)
  {
  }

  /** Every name means in Metal, as it is spelled there, what it means in an effect file. */
  lemma NamesMeanTheSame(n: string)
    ensures MslMeaning(MetalName(n)) == HlslMeaning(n)
    ensures MetalName(n) != n ==> !HlslMeaning(n).Other?
  {
    hide MetalName, MslMeaning, HlslMeaning;
    if MetalName(n) == n {
      OthersAre(n);
    } else {
      RespelledAre(n);
      HalfNames();
      ShortNames();
      TextureNames();
      FunctionNames();
    }
  }

  /** A name is refused if and only if Metal has nothing for it. */
  lemma RefusedExactly(n: string)
    ensures ConvertType(n).Thrown? || ConvertIntrinsic(n).Thrown? <==> HlslMeaning(n) == Unavailable
  {
  }

  lemma OutputName(sh: Shader, t: string)
    requires t in sh.inOutStructs
    ensures MslType(sh, t + "_Out") == Record(t)
  {
    var n := t + "_Out";
    assert n[|n| - 4..] == "_Out" && n[..|n| - 4] == t;
  }

  lemma ShortOrPlain(sh: Shader, n: string)
    requires MetalName(n) != n
    ensures MslType(sh, MetalName(n)) == MslMeaning(MetalName(n))
    ensures HlslMeaning(n) != MslMeaning(n)
  {
    hide MslMeaning, HlslMeaning;
    NoOutput(n);
    OwnMeaning(n);
  }

  lemma NoOutput(n: string)
    requires MetalName(n) != n
    ensures var m := MetalName(n); |m| < 4 || m[|m| - 4] != '_'
  {
  }

  lemma HalfDiffer()
    ensures forall n ::
      n in ["half", "half2", "half3", "half4", "min16float", "min16float2", "min16float3", "min16float4"] ==>
        HlslMeaning(n) != MslMeaning(n)
  {
  }

  lemma OthersDiffer()
    ensures forall n :: n in ["min16int", "min16int2", "min16int3", "min16int4"] ==> HlslMeaning(n) != MslMeaning(n)
    ensures forall n :: n in ["min16uint", "min16uint2", "min16uint3", "min16uint4"] ==> HlslMeaning(n) != MslMeaning(n)
    ensures forall n :: n in ["texture2d", "texture3d", "texture_cube"] ==> HlslMeaning(n) != MslMeaning(n)
    ensures forall n :: n in ["ddx", "ddy", "frac", "lerp"] ==> HlslMeaning(n) != MslMeaning(n)
  {
  }

  lemma OwnMeaning(n: string)
    requires MetalName(n) != n
    ensures HlslMeaning(n) != MslMeaning(n)
  {
    hide MetalName, MslMeaning, HlslMeaning;
    RespelledAre(n);
    HalfDiffer();
    OthersDiffer();
  }

  /** So does every type, also that of an output. */
  lemma TypesMeanTheSame(sh: Shader, t: string)
    ensures MslType(sh, MetalType(sh, t)) == HlslType(sh, t)
  {
    if t in sh.inOutStructs {
      OutputName(sh, t);
    } else if MetalName(t) != t {
      ShortOrPlain(sh, t);
      NamesMeanTheSame(t);
    } else {
      OthersAre(t);
    }
    hide MslMeaning, HlslMeaning, MetalName;
  }

  // ---------------------------------------------------------------------------------------------------------
  // Functions

  lemma ScalarBuilt(p: Primitives, base: Base, v: Value)
    ensures Built(p, base, 1, [v])
         == if |v.components| == 1 then Some(Value([Cast(p, base, v.components[0])])) else None
  {
    assert [v][1..] == [] && Joined([v]) == v.components + [] == v.components;
    assert |v.components| == 1 ==> CastAll(p, base, v.components) == [Cast(p, base, v.components[0])];
    hide Cast;
  }

  lemma JoinedTwo(a: Value, b: Value)
    ensures Joined([a, b]) == a.components + b.components
  {
    assert [a, b][1..] == [b] && [b][1..] == [];
    assert Joined([b]) == b.components + [];
  }

  lemma JoinedThree(a: Value, b: Value, c: Value)
    ensures Joined([a, b, c]) == a.components + (b.components + c.components)
  {
    assert [a, b, c][1..] == [b, c];
    JoinedTwo(b, c);
  }

  lemma TruncatedTwice(x: real)
    ensures Truncated(Truncated(x)) == Truncated(x)
  {
    var n := if x < 0.0 then -((-x).Floor) else x.Floor;
    assert Truncated(x) == n as real;
    assert (n as real).Floor == n && ((-n) as real).Floor == -n && (-n) as real == -(n as real);
  }

  lemma ProductsAre(p: Primitives, sh: Shader, vs: seq<Value>)
    ensures |vs| == 2 ==> Below(HlslApply(p, "mul", vs), InducedApply(Msl(p, sh), "mul", vs))
    ensures |vs| == 3 ==> Below(HlslApply(p, "mad", vs), InducedApply(Msl(p, sh), "mad", vs))
    ensures |vs| == 2 ==> Below(HlslApply(p, "*", vs), InducedApply(Msl(p, sh), "*", vs))
  {
    assert MetalName("*") == "*" && "mad"[0] != "*"[0] && "mul" != "mad";
    hide Scaled, Plus, Linear, HlslMeaning, MslMeaning, MslFunction, MetalName;
  }

  lemma IntegersAre(p: Primitives, sh: Shader, vs: seq<Value>)
    requires |vs| == 2 || |vs| == 3
    ensures Below(HlslApply(p, "int3", vs), InducedApply(Msl(p, sh), "int3", vs))
  {
    hide *;
    IntegersByName(p, sh);
    if |vs| == 3 {
      ThreeIntegers(p, sh, vs);
    } else {
      TwoIntegers(p, sh, vs);
    }
  }

  lemma IntegersByName(p: Primitives, sh: Shader)
    ensures forall vs :: Msl(p, sh).apply("int", vs) == Built(p, Int32, 1, vs)
    ensures forall vs :: Msl(p, sh).apply("int2", vs) == Built(p, Int32, 2, vs)
    ensures forall vs :: Msl(p, sh).apply("int3", vs) == Built(p, Int32, 3, vs)
    ensures forall vs :: Msl(p, sh).apply("uint", vs) == Built(p, Uint32, 1, vs)
    ensures forall vs :: Msl(p, sh).apply("uint2", vs) == Built(p, Uint32, 2, vs)
    ensures forall vs: seq<Value> ::
      HlslApply(p, "int3", vs)
      == if |vs| == 2 && |vs[0].components| != 2 then None else Built(p, Int32, 3, vs)
  {
    hide Built;
  }

  lemma ThreeIntegers(p: Primitives, sh: Shader, vs: seq<Value>)
    requires |vs| == 3
    requires forall us :: Msl(p, sh).apply("int", us) == Built(p, Int32, 1, us)
    requires forall us :: Msl(p, sh).apply("int3", us) == Built(p, Int32, 3, us)
    ensures Below(Built(p, Int32, 3, vs), InducedApply(Msl(p, sh), "int3", vs))
  {
    hide Msl, Built, Joined, MetalName;
    assert vs == [vs[0], vs[1], vs[2]];
    if Built(p, Int32, 3, vs).Some? {
      ThreeBuilt(p, vs[0], vs[1], vs[2]);
    }
    assert "int3" != "mul" && "int3" != "mad";
  }

  /** Three integers are as good as a vector of three. */
  lemma ThreeBuilt(p: Primitives, a: Value, b: Value, c: Value)
    requires Built(p, Int32, 3, [a, b, c]).Some?
    ensures var x, y, z := Built(p, Int32, 1, [a]), Built(p, Int32, 1, [b]), Built(p, Int32, 1, [c]);
      x.Some? && y.Some? && z.Some?
      && Built(p, Int32, 3, [x.value, y.value, z.value]) == Built(p, Int32, 3, [a, b, c])
  {
    var x, y, z := Built(p, Int32, 1, [a]), Built(p, Int32, 1, [b]), Built(p, Int32, 1, [c]);
    JoinedThree(a, b, c);
    assert [a, b, c][0] == a && [a, b, c][1] == b && [a, b, c][2] == c;
    assert a.components != [] && b.components != [] && c.components != [];
    ScalarBuilt(p, Int32, a);
    ScalarBuilt(p, Int32, b);
    ScalarBuilt(p, Int32, c);
    hide Built;
    JoinedThree(x.value, y.value, z.value);
    TruncatedTwice(a.components[0]);
    TruncatedTwice(b.components[0]);
    TruncatedTwice(c.components[0]);
    BuiltThree(p, a, b, c);
    BuiltThree(p, x.value, y.value, z.value);
  }

  lemma BuiltThree(p: Primitives, a: Value, b: Value, c: Value)
    requires |a.components| == |b.components| == |c.components| == 1
    ensures Built(p, Int32, 3, [a, b, c])
         == Some(Value([Truncated(a.components[0]), Truncated(b.components[0]), Truncated(c.components[0])]))
  {
    var all := a.components + (b.components + c.components);
    JoinedThree(a, b, c);
    assert CastAll(p, Int32, all) == [Truncated(all[0]), Truncated(all[1]), Truncated(all[2])];
    hide Joined, Truncated;
  }

  lemma TwoIntegers(p: Primitives, sh: Shader, vs: seq<Value>)
    requires |vs| == 2
    requires forall us :: Msl(p, sh).apply("int", us) == Built(p, Int32, 1, us)
    requires forall us :: Msl(p, sh).apply("int2", us) == Built(p, Int32, 2, us)
    requires forall us :: Msl(p, sh).apply("int3", us) == Built(p, Int32, 3, us)
    ensures Below(if |vs[0].components| != 2 then None else Built(p, Int32, 3, vs),
                  InducedApply(Msl(p, sh), "int3", vs))
  {
    hide Msl, Built, Joined, MetalName;
    assert vs == [vs[0], vs[1]];
    if |vs[0].components| == 2 && Built(p, Int32, 3, vs).Some? {
      TwoBuilt(p, vs[0], vs[1]);
    }
    assert "int3" != "mul" && "int3" != "mad";
  }

  lemma BuiltTwo(p: Primitives, a: Value)
    requires |a.components| == 2
    ensures Built(p, Int32, 2, [a]) == Some(Value([Truncated(a.components[0]), Truncated(a.components[1])]))
  {
    assert [a][1..] == [] && Joined([a]) == a.components + [] == a.components;
    assert CastAll(p, Int32, a.components) == [Truncated(a.components[0]), Truncated(a.components[1])];
    hide Truncated;
  }

  lemma BuiltPair(p: Primitives, a: Value, b: Value)
    requires |a.components| == 2
    ensures Built(p, Int32, 3, [a, b])
         == if |b.components| == 1 then
              Some(Value([Truncated(a.components[0]), Truncated(a.components[1]), Truncated(b.components[0])]))
            else None
  {
    JoinedTwo(a, b);
    assert [a, b][0] == a && [a, b][1] == b;
    var all := a.components + b.components;
    assert |all| == 3 ==> CastAll(p, Int32, all) == [Truncated(all[0]), Truncated(all[1]), Truncated(all[2])];
    hide Joined, Truncated;
  }

  lemma TwoBuilt(p: Primitives, a: Value, b: Value)
    requires |a.components| == 2 && Built(p, Int32, 3, [a, b]).Some?
    ensures var x, y := Built(p, Int32, 2, [a]), Built(p, Int32, 1, [b]);
      x.Some? && y.Some? && Built(p, Int32, 3, [x.value, y.value]) == Built(p, Int32, 3, [a, b])
  {
    BuiltTwo(p, a);
    BuiltPair(p, a, b);
    ScalarBuilt(p, Int32, b);
    TruncatedTwice(a.components[0]);
    TruncatedTwice(a.components[1]);
    TruncatedTwice(b.components[0]);
    BuiltPair(p, Value([Truncated(a.components[0]), Truncated(a.components[1])]), Value([Truncated(b.components[0])]));
    hide Built, Truncated;
  }

  lemma OperatorNames(f: string)
    ensures f == "*" || f == "+" || f == ".xy" <==> MetalName(f) == "*" || MetalName(f) == "+" || MetalName(f) == ".xy"
    ensures f == "*" || f == "+" || f == ".xy" ==> MetalName(f) == f
  {
  }

  lemma FunctionsAre(p: Primitives, sh: Shader, f: string, vs: seq<Value>)
    requires !(f == "mul" && |vs| == 2) && !(f == "mad" && |vs| == 3) && !(f == "*" && |vs| == 2)
    requires !(f == "int3" && 2 <= |vs| <= 3)
    ensures Below(HlslApply(p, f, vs), InducedApply(Msl(p, sh), f, vs))
  {
    NamesMeanTheSame(f);
    OperatorNames(f);
    hide MetalName, MslMeaning, HlslMeaning, MslFunction, Plus;
    FunctionByMeaning(p, HlslMeaning(f), MetalName(f), f, vs);
  }

  lemma FunctionByMeaning(p: Primitives, m: Meaning, f: string, n: string, vs: seq<Value>)
    ensures f == n || !m.Other? ==> MslFunction(p, m, f, vs) == MslFunction(p, m, n, vs)
  {
    hide Built, Each, Blend;
  }

  lemma ApplyIsRealised(p: Primitives, sh: Shader, f: string, vs: seq<Value>)
    ensures Below(HlslApply(p, f, vs), InducedApply(Msl(p, sh), f, vs))
  {
    hide *;
    if f == "int3" && 2 <= |vs| <= 3 {
      IntegersAre(p, sh, vs);
    } else if (f == "mul" && |vs| == 2) || (f == "mad" && |vs| == 3) || (f == "*" && |vs| == 2) {
      ProductsAre(p, sh, vs);
    } else {
      FunctionsAre(p, sh, f, vs);
    }
  }

  // ---------------------------------------------------------------------------------------------------------
  // Textures

  lemma OptionsByName(p: Primitives, sh: Shader, x: real)
    ensures Msl(p, sh).apply("level", [Value([x])]) == Some(Value([x, 1.0]))
    ensures Msl(p, sh).apply("bias", [Value([x])]) == Some(Value([x, 2.0]))
  {
    assert [x] + [1.0] == [x, 1.0] && [x] + [2.0] == [x, 2.0];
  }

  lemma GradientsByName(p: Primitives, sh: Shader, x: seq<real>, y: seq<real>)
    requires |x| == |y| == 2
    ensures Msl(p, sh).apply("gradient2d", [Value(x), Value(y)]) == Some(Value(x + y))
    ensures DetailOf(Value(x + y)) == Some(Gradients(x, y))
  {
    assert (x + y)[..2] == x && (x + y)[2..] == y;
  }

  lemma AccessIsRealised(p: Primitives, sh: Shader, f: string, t: nat, s: nat, vs: seq<Value>)
    ensures Below(HlslAccess(p, f, t, s, vs), InducedAccess(Msl(p, sh), f, t, s, vs))
  {
    if |vs| == 2 && |vs[1].components| == 1 {
      var x := vs[1].components[0];
      assert vs[1].components == [x] && vs[1..] == [Value([x])];
      OptionsByName(p, sh, x);
    } else if |vs| == 3 && |vs[1].components| == |vs[2].components| == 2 {
      assert vs[1..] == [Value(vs[1].components), Value(vs[2].components)];
      GradientsByName(p, sh, vs[1].components, vs[2].components);
    }
    hide MslApply;
  }

  lemma NotNegative(p: Primitives, x: real)
    requires x >= 0.0
    ensures Cast(p, Uint32, x) == Truncated(x) && Truncated(x) >= 0.0 && Cast(p, Uint32, Truncated(x)) == Truncated(x)
  {
    TruncatedTwice(x);
  }

  lemma CoordinateBuilt(p: Primitives, v: Value, x: real, y: real)
    requires v.components == [x, y]
    ensures Built(p, Uint32, 2, [v]) == Some(Value([Cast(p, Uint32, x), Cast(p, Uint32, y)]))
  {
    assert [v][1..] == [] && Joined([v]) == v.components + [] == v.components;
    assert CastAll(p, Uint32, v.components) == [Cast(p, Uint32, x), Cast(p, Uint32, y)];
    hide Cast;
  }

  lemma CoordinatesBuilt(p: Primitives, x: real, y: real)
    ensures Built(p, Uint32, 2, [Value([x]), Value([y])]) == Some(Value([Cast(p, Uint32, x), Cast(p, Uint32, y)]))
  {
    JoinedTwo(Value([x]), Value([y]));
    assert [x] + [y] == [x, y];
    assert CastAll(p, Uint32, [x, y]) == [Cast(p, Uint32, x), Cast(p, Uint32, y)];
    hide Cast, Joined;
  }

  lemma FirstTwo(p: Primitives, sh: Shader, v: Value)
    requires |v.components| >= 2
    ensures Msl(p, sh).apply(".xy", [v]) == Some(Value(v.components[..2]))
  {
  }

  /** A coordinate in one value is read at level zero. */
  lemma LoadAtZero(p: Primitives, sh: Shader, t: nat, v: Value)
    requires |v.components| >= 2 && v.components[0] >= 0.0 && v.components[1] >= 0.0
    ensures InducedLoad(Msl(p, sh), t, [v])
         == p.texel(t, [Truncated(v.components[0]), Truncated(v.components[1])], 0.0)
  {
    var x, y := v.components[0], v.components[1];
    var g, xy := Msl(p, sh), Value(v.components[..2]);
    FirstTwo(p, sh, v);
    IntegersByName(p, sh);
    CoordinateBuilt(p, xy, x, y);
    NotNegative(p, x);
    NotNegative(p, y);
    assert g.literal("0") == Value([0.0]);
    hide Built, Cast, MslApply, Truncated;
  }

  lemma ReadIs(p: Primitives, sh: Shader, t: nat, at: Value, level: real)
    ensures Msl(p, sh).call(t, "read", [Val(at), Val(Value([level]))]) == p.texel(t, at.components, level)
  {
  }

  lemma ThreeSteps(g: Metal, t: nat, vs: seq<Value>, x: Value, y: Value, z: Value, at: Value, level: Value)
    requires |vs| == 3 && g.apply("int", [vs[0]]) == Some(x) && g.apply("int", [vs[1]]) == Some(y)
    requires g.apply("int", [vs[2]]) == Some(z) && g.apply("uint2", [x, y]) == Some(at)
    requires g.apply("uint", [z]) == Some(level)
    ensures InducedLoad(g, t, vs) == g.call(t, "read", [Val(at), Val(level)])
  {
  }

  lemma TwoSteps(g: Metal, t: nat, vs: seq<Value>, xy: Value, z: Value, at: Value, level: Value)
    requires |vs| == 2 && g.apply("int2", [vs[0]]) == Some(xy) && g.apply("int", [vs[1]]) == Some(z)
    requires g.apply("uint2", [xy]) == Some(at) && g.apply("uint", [z]) == Some(level)
    ensures InducedLoad(g, t, vs) == g.call(t, "read", [Val(at), Val(level)])
  {
  }

  /** Where nothing is negative, integers do not change when they become unsigned. */
  lemma IntegerIs(p: Primitives, sh: Shader, x: real)
    requires x >= 0.0
    ensures Msl(p, sh).apply("int", [Value([x])]) == Some(Value([Truncated(x)]))
    ensures Msl(p, sh).apply("uint", [Value([Truncated(x)])]) == Some(Value([Truncated(x)]))
  {
    IntegersByName(p, sh);
    ScalarBuilt(p, Int32, Value([x]));
    ScalarBuilt(p, Uint32, Value([Truncated(x)]));
    NotNegative(p, x);
    hide Built, MslApply, Truncated;
  }

  lemma PairIs(p: Primitives, sh: Shader, x: real, y: real)
    requires x >= 0.0 && y >= 0.0
    ensures var at := Some(Value([Truncated(x), Truncated(y)]));
      && Msl(p, sh).apply("uint2", [Value([Truncated(x)]), Value([Truncated(y)])]) == at
      && Msl(p, sh).apply("uint2", [Value([Truncated(x), Truncated(y)])]) == at
  {
    IntegersByName(p, sh);
    CoordinatesBuilt(p, Truncated(x), Truncated(y));
    CoordinateBuilt(p, Value([Truncated(x), Truncated(y)]), Truncated(x), Truncated(y));
    NotNegative(p, x);
    NotNegative(p, y);
    hide Built, MslApply, Truncated;
  }

  lemma LoadByThree(p: Primitives, sh: Shader, t: nat, x: real, y: real, z: real)
    requires x >= 0.0 && y >= 0.0 && z >= 0.0
    ensures InducedLoad(Msl(p, sh), t, [Value([x]), Value([y]), Value([z])])
         == p.texel(t, [Truncated(x), Truncated(y)], Truncated(z))
  {
    hide *;
    var at := Value([Truncated(x), Truncated(y)]);
    IntegerIs(p, sh, x);
    IntegerIs(p, sh, y);
    IntegerIs(p, sh, z);
    PairIs(p, sh, x, y);
    ThreeSteps(Msl(p, sh), t, [Value([x]), Value([y]), Value([z])], Value([Truncated(x)]), Value([Truncated(y)]),
               Value([Truncated(z)]), at, Value([Truncated(z)]));
    ReadIs(p, sh, t, at, Truncated(z));
  }

  lemma LoadByTwo(p: Primitives, sh: Shader, t: nat, xy: Value, z: real)
    requires |xy.components| == 2 && xy.components[0] >= 0.0 && xy.components[1] >= 0.0 && z >= 0.0
    ensures InducedLoad(Msl(p, sh), t, [xy, Value([z])])
         == p.texel(t, [Truncated(xy.components[0]), Truncated(xy.components[1])], Truncated(z))
  {
    hide *;
    var at := Value([Truncated(xy.components[0]), Truncated(xy.components[1])]);
    IntegersByName(p, sh);
    BuiltTwo(p, xy);
    IntegerIs(p, sh, z);
    PairIs(p, sh, xy.components[0], xy.components[1]);
    TwoSteps(Msl(p, sh), t, [xy, Value([z])], at, Value([Truncated(z)]), at, Value([Truncated(z)]));
    ReadIs(p, sh, t, at, Truncated(z));
  }

  lemma LoadIsRealised(p: Primitives, sh: Shader, t: nat, vs: seq<Value>)
    ensures Below(HlslLoad(p, t, vs), InducedLoad(Msl(p, sh), t, vs))
  {
    hide Truncated, InducedLoad, Msl;
    if HlslLoad(p, t, vs).Some? {
      if |vs| == 1 {
        assert vs == [vs[0]] && vs[1..] == [] && Joined(vs) == vs[0].components + [] == vs[0].components;
        LoadAtZero(p, sh, t, vs[0]);
      } else if |vs| == 2 {
        assert vs == [vs[0], vs[1]];
        JoinedTwo(vs[0], vs[1]);
        assert vs[1] == Value([vs[1].components[0]]);
        LoadByTwo(p, sh, t, vs[0], vs[1].components[0]);
      } else {
        ThreeScalars(vs);
        LoadByThree(p, sh, t, vs[0].components[0], vs[1].components[0], vs[2].components[0]);
      }
    }
  }

  lemma ThreeScalars(vs: seq<Value>)
    requires |vs| > 2 && NoneEmpty(vs) && |Joined(vs)| == 3
    ensures |vs| == 3 && |vs[0].components| == |vs[1].components| == |vs[2].components| == 1
    ensures vs == [Value([Joined(vs)[0]]), Value([Joined(vs)[1]]), Value([Joined(vs)[2]])]
  {
    AtLeastOneEach(vs);
    assert vs == [vs[0], vs[1], vs[2]];
    JoinedThree(vs[0], vs[1], vs[2]);
    assert vs[0].components == [Joined(vs)[0]] && vs[1].components == [Joined(vs)[1]];
    assert vs[2].components == [Joined(vs)[2]];
    hide Joined;
  }

  lemma {:induction false} AtLeastOneEach(vs: seq<Value>)
    requires NoneEmpty(vs)
    ensures |Joined(vs)| >= |vs|
  {
    if vs != [] {
      assert forall i :: 0 <= i < |vs| - 1 ==> vs[1..][i] == vs[i + 1];
      AtLeastOneEach(vs[1..]);
    }
  }

  /** Whatever an effect program in this language yields, its translation yields in this Metal. */
  lemma MetalRealises(p: Primitives, sh: Shader)
    ensures Refines(Hlsl(p, sh), Induced(sh, Msl(p, sh)))
  {
    var h, k := Hlsl(p, sh), Induced(sh, Msl(p, sh));
    hide Msl, HlslApply, HlslAccess, HlslLoad, InducedApply, InducedAccess, InducedLoad, MetalType, MslType, HlslType,
         ConvertedTo;
    MslFields(p, sh);
    forall f, vs ensures Below(h.apply(f, vs), k.apply(f, vs)) {
      ApplyIsRealised(p, sh, f, vs);
    }
    forall f, t, s, vs ensures Below(h.access(f, t, s, vs), k.access(f, t, s, vs)) {
      AccessIsRealised(p, sh, f, t, s, vs);
    }
    forall t, vs ensures Below(h.load(t, vs), k.load(t, vs)) {
      LoadIsRealised(p, sh, t, vs);
    }
    forall t, v ensures Below(h.convert(t, v), k.convert(t, v)) {
      TypesMeanTheSame(sh, t);
    }
    forall t ensures h.initial(t) == k.initial(t) {
      TypesMeanTheSame(sh, t);
    }
  }

  lemma MslFields(p: Primitives, sh: Shader)
    ensures var g := Msl(p, sh);
      && (forall n :: g.literal(n) == LiteralOf(p, n)) && g.truth == p.truth && g.update == p.update
      && (forall t, v :: g.convert(t, v) == ConvertedTo(p, MslType(sh, t), v))
      && (forall t :: g.initial(t) == p.initial(MslType(sh, t)))
  {
  }

  // ---------------------------------------------------------------------------------------------------------
  // What is not realised

  /** An integer vector of two arguments is right if and only if the first one has two components: the emitted text
      takes it for that. */
  lemma IntegersAgreeExactly(p: Primitives, sh: Shader, a: Value, b: Value)
    requires a.components != [] && b.components != [] && |a.components| + |b.components| == 3
    ensures InducedApply(Msl(p, sh), "int3", [a, b]) == Built(p, Int32, 3, [a, b]) <==> |a.components| == 2
  {
    hide Msl, Joined, MetalName;
    IntegersByName(p, sh);
    JoinedTwo(a, b);
    assert [a, b][0] == a && [a, b][1] == b && NoneEmpty([a, b]);
    assert "int3" != "mul" && "int3" != "mad";
    if |a.components| == 2 {
      TwoBuilt(p, a, b);
    } else {
      assert [a][1..] == [] && |Joined([a])| == 1 by { JoinedOne(a); }
    }
  }

  lemma JoinedOne(a: Value)
    ensures Joined([a]) == a.components
  {
    assert [a][1..] == [] && Joined([a]) == a.components + [];
  }

  /** The linear product of two vectors of the same length is their inner product. What is emitted for it is right if
      and only if they have one component. */
  lemma VectorProductsAgreeExactly(p: Primitives, sh: Shader, a: Value, b: Value)
    requires 1 <= |a.components| == |b.components| <= 4
    ensures InducedApply(Msl(p, sh), "mul", [a, b]) == Some(Value([Dot(a.components, b.components)]))
        <==> |a.components| == 1
  {
    var x, y := a.components, b.components;
    assert InducedApply(Msl(p, sh), "mul", [a, b]) == Scaled(a, b);
    assert Scaled(a, b).Some? && |Scaled(a, b).value.components| == |x|;
    if |x| == 1 {
      assert Dot(x[1..], y[1..]) == 0.0;
      assert Dot(x, y) == x[0] * y[0];
      assert Scaled(a, b).value.components == [x[0] * y[0]];
    }
    hide MslApply, Linear;
  }

  /** In effect files the components are rows. */
  function Meant(cs: seq<real>, n: nat, row: nat, column: nat): real {
    if row * n + column < |cs| then cs[row * n + column] else 0.0
  }

  predicate Symmetric(cs: seq<real>, n: nat) {
    forall i, j :: 0 <= i < n && 0 <= j < n ==> Meant(cs, n, i, j) == Meant(cs, n, j, i)
  }

  ghost predicate IsMeant(m: Option<Value>, cs: seq<real>, n: nat) {
    && m.Some? && |m.value.components| == |cs|
    && forall i, j :: 0 <= i < n && 0 <= j < n ==> Entry(m.value.components, n, i, j) == Meant(cs, n, i, j)
  }

  lemma TransposedExactly(cs: seq<real>, n: nat)
    ensures IsMeant(Some(Value(cs)), cs, n) <==> Symmetric(cs, n)
  {
    assert forall i, j :: 0 <= i < n && 0 <= j < n ==> Entry(cs, n, i, j) == Meant(cs, n, j, i);
    hide Entry, Meant;
  }

  /** A matrix that is put together from its components is right if and only if it is symmetric: what are rows in effect
      files are columns in Metal. */
  lemma MatricesAgreeExactly(p: Primitives, sh: Shader, vs: seq<Value>)
    ensures var g, cs := Msl(p, sh), Joined(vs);
      && (|cs| == 9 ==> (IsMeant(InducedApply(g, "float3x3", vs), cs, 3) <==> Symmetric(cs, 3)))
      && (|cs| == 16 ==> (IsMeant(InducedApply(g, "float4x4", vs), cs, 4) <==> Symmetric(cs, 4)))
  {
    var cs := Joined(vs);
    assert InducedApply(Msl(p, sh), "float3x3", vs) == if |cs| == 9 then Some(Value(cs)) else None;
    assert InducedApply(Msl(p, sh), "float4x4", vs) == if |cs| == 16 then Some(Value(cs)) else None;
    hide *;
    TransposedExactly(cs, 3);
    TransposedExactly(cs, 4);
  }
}
