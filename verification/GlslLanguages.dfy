/** An effect language and a GLSL, each by the names it has itself, over arbitrary primitives: types, intrinsics, and
    the methods and kinds of textures all mean different things. The writer translates the one into the other, except
    for four names, which mean something else in GLSL. */
module GlslLanguages {
  import opened ShaderTokens
  import opened GlslWriter
  import opened GlslPieces
  import opened GlslValues

  /** What is sampled. */
  datatype Kind = Flat | Solid | Cube | Rectangle | NoTexture

  /** Scalars are vectors of one component. */
  datatype Datum =
    | Vector(cs: seq<real>)
    | Matrix(columns: seq<seq<real>>)
    | Handle(name: string, kind: Kind)
    | Undefined

  /** How the level of detail of a lookup is chosen. */
  datatype Detail = Automatic | Biased(bias: Datum) | Level(level: Datum) | Gradients(x: Datum, y: Datum)

  /** What a machine has; nothing is known about it. A lookup is by texture and sampler, a texel is read without one. */
  datatype Primitives = Primitives(
    toInt: real -> real,
    toUint: real -> real,
    arcTangent: (real, real) -> real,
    slopeX: real -> real,
    slopeY: real -> real,
    inverseRoot: real -> real,
    literal: string -> real,
    variable: Token -> Datum,
    lookup: (string, string, Detail, seq<real>) -> Datum,
    texel: (string, seq<real>, real) -> Datum,
    call: (string, seq<Datum>) -> Datum,
    field: (Datum, string) -> Datum,
    prefix: (string, Datum) -> Datum,
    infix: (string, Datum, Datum) -> Datum)

  // ---------------------------------------------------------------------------------------------------------
  // What names mean

  datatype Meaning =
    | Floats(n: nat) | Ints(n: nat) | Uints(n: nat)
    | ByRows(rows: nat, width: nat)
    | ByColumns(count: nat, height: nat)
    | ArcTangent | SlopeX | SlopeY | Truncated | Floored | Fraction | Mixed | InverseRoot | Clamped
    | Look | LookAtLevel | LookWithGradients
    | Fetch(from: Kind)
    | TypeOnly
    | Unknown(name: string)

  /** In GLSL, section 5.4 of its specification for the constructors and chapter 8 for the functions. The two loading
      functions are defined in the text itself. */
  function GlMeaning(f: string): Meaning {
    match f
    case "vec2" => Floats(2)
    case "vec3" => Floats(3)
    case "vec4" => Floats(4)
    case "ivec2" => Ints(2)
    case "ivec3" => Ints(3)
    case "ivec4" => Ints(4)
    case "uvec2" => Uints(2)
    case "uvec3" => Uints(3)
    case "uvec4" => Uints(4)
    case "mat3x3" => ByColumns(3, 3)
    case "mat3x4" => ByColumns(3, 4)
    case "mat4x4" => ByColumns(4, 4)
    case "atan" => ArcTangent
    case "dFdx" => SlopeX
    case "dFdy" => SlopeY
    case "mod" => Floored
    case "fract" => Fraction
    case "mix" => Mixed
    case "inversesqrt" => InverseRoot
    case "clamp" => Clamped
    case "texture" => Look
    case "textureLod" => LookAtLevel
    case "textureGrad" => LookWithGradients
    case "obs_load_2d" => Fetch(Flat)
    case "obs_load_3d" => Fetch(Solid)
    case "sampler2D" => TypeOnly
    case "sampler3D" => TypeOnly
    case "samplerCube" => TypeOnly
    case "sampler2DRect" => TypeOnly
    case _ => Unknown(f)
  }

  /** In effect files; what they do not have themselves is taken for GLSL. */
  function EffectMeaning(f: string): Meaning {
    match f
    case "float2" => Floats(2)
    case "float3" => Floats(3)
    case "float4" => Floats(4)
    case "int2" => Ints(2)
    case "int3" => Ints(3)
    case "int4" => Ints(4)
    case "uint2" => Uints(2)
    case "uint3" => Uints(3)
    case "uint4" => Uints(4)
    case "float3x3" => ByRows(3, 3)
    case "float3x4" => ByRows(3, 4)
    case "float4x4" => ByRows(4, 4)
    case "atan2" => ArcTangent
    case "ddx" => SlopeX
    case "ddy" => SlopeY
    case "fmod" => Truncated
    case "frac" => Fraction
    case "lerp" => Mixed
    case "rsqrt" => InverseRoot
    case "texture2d" => TypeOnly
    case "texture3d" => TypeOnly
    case "texture_cube" => TypeOnly
    case "texture_rect" => TypeOnly
    case _ => GlMeaning(f)
  }

  /** Remainders and matrices. */
  const UNLIKE: set<string> := {"fmod", "float3x3", "float3x4", "float4x4"}

  function GlKind(typeName: string): Kind {
    match typeName
    case "sampler2D" => Flat
    case "sampler3D" => Solid
    case "samplerCube" => Cube
    case "sampler2DRect" => Rectangle
    case _ => NoTexture
  }

  /** Textures are declared by the types that effect files have for them. */
  predicate NoSamplerTypes(params: seq<Param>) {
    forall i :: 0 <= i < |params| ==> GlKind(params[i].typeName) == NoTexture
  }

  function EffectKind(typeName: string): Kind {
    match typeName
    case "texture2d" => Flat
    case "texture3d" => Solid
    case "texture_cube" => Cube
    case "texture_rect" => Rectangle
    case _ => NoTexture
  }

  // ---------------------------------------------------------------------------------------------------------
  // Operations

  /** Component by component; a scalar serves all components. */
  function Zip(f: (real, real) -> real, a: Datum, b: Datum): Datum {
    if !a.Vector? || !b.Vector? then Undefined
    else if |a.cs| == |b.cs| then Vector(seq(|a.cs|, i requires 0 <= i < |a.cs| => f(a.cs[i], b.cs[i])))
    else if |b.cs| == 1 then Vector(seq(|a.cs|, i requires 0 <= i < |a.cs| => f(a.cs[i], b.cs[0])))
    else if |a.cs| == 1 then Vector(seq(|b.cs|, i requires 0 <= i < |b.cs| => f(a.cs[0], b.cs[i])))
    else Undefined
  }

  function Each(f: real -> real, a: Datum): Datum {
    if a.Vector? then Vector(seq(|a.cs|, i requires 0 <= i < |a.cs| => f(a.cs[i]))) else Undefined
  }

  function Components(args: seq<Datum>): seq<real> {
    if args == [] then [] else (if args[0].Vector? then args[0].cs else []) + Components(args[1..])
  }

  /** A vector of so many components. */
  function Built(convert: real -> real, n: nat, args: seq<Datum>): Datum {
    if |Components(args)| == n then Each(convert, Vector(Components(args))) else Undefined
  }

  function Groups(cs: seq<real>, n: nat, size: nat): seq<seq<real>>
    requires |cs| == n * size
  {
    seq(n, i requires 0 <= i < n => seq(size, j requires 0 <= j < size => At(cs, size, i, j)))
  }

  function At(cs: seq<real>, size: nat, i: nat, j: nat): real {
    if i * size + j < |cs| then cs[i * size + j] else 0.0
  }

  function Transposed(groups: seq<seq<real>>, size: nat): seq<seq<real>>
    requires forall i :: 0 <= i < |groups| ==> |groups[i]| == size
  {
    seq(size, j requires 0 <= j < size =>
      seq(|groups|, i requires 0 <= i < |groups| => groups[i][j]))
  }

  function ColumnMatrix(n: nat, size: nat, args: seq<Datum>): Datum {
    if |Components(args)| == n * size then Matrix(Groups(Components(args), n, size)) else Undefined
  }

  function RowMatrix(n: nat, size: nat, args: seq<Datum>): Datum {
    if |Components(args)| == n * size then Matrix(Transposed(Groups(Components(args), n, size), size)) else Undefined
  }

  function TruncatedRemainder(x: real, y: real): real {
    if y == 0.0 then 0.0 else x - y * Whole(x / y)
  }

  function Whole(q: real): real {
    if q < 0.0 then -((-q).Floor as real) else q.Floor as real
  }

  function FlooredRemainder(x: real, y: real): real {
    if y == 0.0 then 0.0 else x - y * ((x / y).Floor as real)
  }

  function Between(v: Datum, low: Datum, high: Datum): Datum {
    Zip((x, y) => if x > y then y else x, Zip((x, y) => if x < y then y else x, v, low), high)
  }

  function Plus(a: Datum, b: Datum): Datum { Zip((x, y) => x + y, a, b) }

  function Times(a: Datum, b: Datum): Datum { Zip((x, y) => x * y, a, b) }

  function Blend(a: Datum, b: Datum, t: Datum): Datum {
    Plus(Times(a, Zip((x, y) => x - y, Vector([1.0]), t)), Times(b, t))
  }

  function Dot(a: seq<real>, b: seq<real>): real {
    if a == [] || b == [] then 0.0 else a[0] * b[0] + Dot(a[1..], b[1..])
  }

  /** The linear product, of which at least one operand is a matrix. */
  function Linear(a: Datum, b: Datum): Datum {
    if a.Matrix? && b.Vector? then Vector(Combined(a.columns, b.cs))
    else if a.Vector? && b.Matrix? then
      Vector(seq(|b.columns|, i requires 0 <= i < |b.columns| => Dot(a.cs, b.columns[i])))
    else if a.Matrix? && b.Matrix? then
      Matrix(seq(|b.columns|, i requires 0 <= i < |b.columns| => Combined(a.columns, b.columns[i])))
    else Undefined
  }

  function Combined(columns: seq<seq<real>>, factors: seq<real>): seq<real> {
    if columns == [] then []
    else
      seq(|columns[0]|, i requires 0 <= i < |columns[0]| => Dot(Entries(columns, i), factors))
  }

  function Entries(columns: seq<seq<real>>, i: nat): seq<real> {
    if columns == [] then []
    else [if i < |columns[0]| then columns[0][i] else 0.0] + Entries(columns[1..], i)
  }

  // ---------------------------------------------------------------------------------------------------------
  // Textures

  function Dimensions(kind: Kind): nat {
    match kind
    case Flat => 2
    case Rectangle => 2
    case Solid => 3
    case Cube => 3
    case NoTexture => 0
  }

  function LookedUp(p: Primitives, t: Datum, sampler: string, detail: Detail, at: Datum): Datum {
    if t.Handle? && at.Vector? && !t.kind.NoTexture? && |at.cs| == Dimensions(t.kind)
    then p.lookup(t.name, sampler, detail, at.cs) else Undefined
  }

  /** The coordinates are followed by the level. */
  function Fetched(p: Primitives, t: Datum, kind: Kind, at: Datum): Datum {
    if t.Handle? && t.kind == kind && at.Vector? && |at.cs| == Dimensions(kind) + 1
    then p.texel(t.name, at.cs[..Dimensions(kind)], at.cs[Dimensions(kind)]) else Undefined
  }

  /** GLSL samples with what the texture is bound to. */
  function BoundSampler(env: Env, bound: map<string, nat>, t: Datum): string {
    if t.Handle? && t.name in bound && bound[t.name] < |env.samplers| then env.samplers[bound[t.name]] else ""
  }

  // ---------------------------------------------------------------------------------------------------------
  // The two languages

  /** A call with another number of arguments is left to the machine. */
  function Applied(p: Primitives, env: Env, bound: map<string, nat>, m: Meaning, args: seq<Datum>): Datum {
    var n := |args|;
    match m
    case Floats(k) => Built(x => x, k, args)
    case Ints(k) => Built(p.toInt, k, args)
    case Uints(k) => Built(p.toUint, k, args)
    case ByRows(k, size) => RowMatrix(k, size, args)
    case ByColumns(k, size) => ColumnMatrix(k, size, args)
    case ArcTangent => if n == 2 then Zip(p.arcTangent, args[0], args[1]) else p.call("atan", args)
    case SlopeX => if n == 1 then Each(p.slopeX, args[0]) else Undefined
    case SlopeY => if n == 1 then Each(p.slopeY, args[0]) else Undefined
    case Truncated => if n == 2 then Zip(TruncatedRemainder, args[0], args[1]) else Undefined
    case Floored => if n == 2 then Zip(FlooredRemainder, args[0], args[1]) else Undefined
    case Fraction => if n == 1 then Each((x: real) => x - x.Floor as real, args[0]) else Undefined
    case Mixed => if n == 3 then Blend(args[0], args[1], args[2]) else Undefined
    case InverseRoot => if n == 1 then Each(p.inverseRoot, args[0]) else Undefined
    case Clamped => if n == 3 then Between(args[0], args[1], args[2]) else Undefined
    case Look =>
      if n == 2 then LookedUp(p, args[0], BoundSampler(env, bound, args[0]), Automatic, args[1])
      else if n == 3 then LookedUp(p, args[0], BoundSampler(env, bound, args[0]), Biased(args[2]), args[1])
      else Undefined
    case LookAtLevel =>
      if n == 3 then LookedUp(p, args[0], BoundSampler(env, bound, args[0]), Level(args[2]), args[1]) else Undefined
    case LookWithGradients =>
      if n == 4 then LookedUp(p, args[0], BoundSampler(env, bound, args[0]), Gradients(args[2], args[3]), args[1])
      else Undefined
    case Fetch(kind) => if n == 2 then Fetched(p, args[0], kind, args[1]) else Undefined
    case TypeOnly => Undefined
    case Unknown(name) => p.call(name, args)
  }

  /** The methods of a texture. `Sample` with one argument more is a biased lookup. */
  function MethodOf(p: Primitives, t: Datum, f: string, sampler: string, args: seq<Datum>): Datum {
    var n := |args|;
    match f
    case "Sample" =>
      if n == 1 then LookedUp(p, t, sampler, Automatic, args[0])
      else if n == 2 then LookedUp(p, t, sampler, Biased(args[1]), args[0]) else Undefined
    case "SampleBias" =>
      if n == 1 then LookedUp(p, t, sampler, Automatic, args[0])
      else if n == 2 then LookedUp(p, t, sampler, Biased(args[1]), args[0]) else Undefined
    case "SampleLevel" => if n == 2 then LookedUp(p, t, sampler, Level(args[1]), args[0]) else Undefined
    case "SampleGrad" => if n == 3 then LookedUp(p, t, sampler, Gradients(args[1], args[2]), args[0]) else Undefined
    case "Load" =>
      if n == 1 && t.Handle? && (t.kind.Flat? || t.kind.Solid?) then Fetched(p, t, t.kind, args[0]) else Undefined
    case _ => Undefined
  }

  function Literal(p: Primitives, s: string): real {
    if s == "0.0" then 0.0 else if s == "1.0" then 1.0 else p.literal(s)
  }

  function Variable(p: Primitives, t: Token): Datum {
    if p.variable(t).Handle? then Undefined else p.variable(t)
  }

  /** A name is a texture if it is declared as one; the kind is that of the type as it is written in the text. */
  function GlAtom(p: Primitives, env: Env, t: Token): Datum {
    match t
    case Number(s) => Vector([Literal(p, s)])
    case Name(x) =>
      var typeName := TypeOf(env.params, x);
      var kind := GlKind(TypeText(typeName));
      if kind.NoTexture? then Variable(p, t) else Handle(x, kind)
    case _ => Variable(p, t)
  }

  function EffectAtom(p: Primitives, env: Env, t: Token): Datum {
    match t
    case Number(s) => Vector([Literal(p, s)])
    case Name(x) =>
      var kind := EffectKind(TypeOf(env.params, x));
      if kind.NoTexture? then Variable(p, t) else Handle(x, kind)
    case _ => Variable(p, t)
  }

  function Componentwise(p: Primitives, op: string, v: Datum, w: Datum): Datum {
    if op == "*" then Times(v, w) else if op == "+" then Plus(v, w) else p.infix(op, v, w)
  }

  function Gl(p: Primitives, env: Env, bound: map<string, nat>): Machine<Datum> {
    Machine(
      t => GlAtom(p, env, t),
      (f, args) => Applied(p, env, bound, GlMeaning(f), args),
      p.field,
      p.prefix,
      (op, v: Datum, w: Datum) =>
        if op == "*" && (v.Matrix? || w.Matrix?) then Linear(v, w) else Componentwise(p, op, v, w),
      (v, w) => Undefined,
      (u, v, w) => Undefined,
      v => Undefined,
      (t, f, s, args) => Undefined,
      v => false)
  }

  /** A product of vectors is their inner product here. */
  function Effect(p: Primitives, env: Env, bound: map<string, nat>): Machine<Datum> {
    Machine(
      t => EffectAtom(p, env, t),
      (f, args) => Applied(p, env, bound, EffectMeaning(f), args),
      p.field,
      p.prefix,
      (op, v, w) => Componentwise(p, op, v, w),
      (v: Datum, w: Datum) =>
        if v.Vector? && w.Vector? then Vector([Dot(v.cs, w.cs)]) else Linear(v, w),
      (u, v, w) => Plus(Times(u, v), w),
      v => Between(v, Vector([0.0]), Vector([1.0])),
      (t, f, s, args) => MethodOf(p, EffectAtom(p, env, Name(t)), f, s, args),
      (v: Datum) => v.Matrix?)
  }

  // ---------------------------------------------------------------------------------------------------------
  // They agree

  lemma VectorNames()
    ensures forall f :: f in ["float2", "float3", "float4", "int2", "int3", "int4", "uint2", "uint3", "uint4"] ==>
      GlMeaning(TypeName(f)) == EffectMeaning(f) && !GlMeaning(TypeName(f)).Unknown?
  {
  }

  lemma MatrixNames()
    ensures forall f :: f in ["float3x3", "float3x4", "float4x4"] ==>
      GlMeaning(TypeName(f)) != EffectMeaning(f) && !GlMeaning(TypeName(f)).Unknown?
  {
  }

  lemma TextureNames()
    ensures forall f :: f in ["texture2d", "texture3d", "texture_cube", "texture_rect"] ==>
      GlMeaning(TypeName(f)) == EffectMeaning(f) == TypeOnly
  {
  }

  lemma FunctionNames()
    ensures forall f :: f in ["atan2", "ddx", "ddy", "frac", "lerp", "rsqrt"] ==>
      GlMeaning(Renamed(f)) == EffectMeaning(f) && !GlMeaning(Renamed(f)).Unknown?
    ensures GlMeaning(Renamed("fmod")) == Floored && EffectMeaning("fmod") == Truncated
  {
  }

  lemma TypesAre(f: string)
    requires TypeName(f) != ""
    ensures f in ["float2", "float3", "float4", "int2", "int3", "int4", "uint2", "uint3", "uint4"]
         || f in ["float3x3", "float3x4", "float4x4"]
         || f in ["texture2d", "texture3d", "texture_cube", "texture_rect"]
  {
  }

  lemma FunctionsAre(f: string)
    requires Renamed(f) != ""
    ensures f in ["atan2", "ddx", "ddy", "frac", "lerp", "rsqrt"] || f == "fmod"
  {
  }

  lemma OwnNames(f: string)
    requires Spelled(f) != f
    ensures f in UNLIKE <==> GlMeaning(Spelled(f)) != EffectMeaning(f)
    ensures !GlMeaning(Spelled(f)).Unknown?
  {
    hide TypeName, Renamed, GlMeaning, EffectMeaning;
    VectorNames();
    MatrixNames();
    TextureNames();
    FunctionNames();
    if TypeName(f) != "" {
      TypesAre(f);
    } else {
      FunctionsAre(f);
    }
  }

  lemma OtherNames(f: string)
    requires Spelled(f) == f
    ensures f !in UNLIKE && EffectMeaning(f) == GlMeaning(f)
  {
  }

  /** A name means in GLSL, as it is spelled there, what it means in an effect file, unless it is one of the four. */
  lemma NamesMeanTheSame(f: string)
    ensures GlMeaning(Spelled(f)) == EffectMeaning(f) <==> f !in UNLIKE
  {
    if Spelled(f) == f {
      OtherNames(f);
    } else {
      OwnNames(f);
    }
    hide Spelled, GlMeaning, EffectMeaning;
  }

  /** In a declaration, too. */
  lemma DeclaredTypesMeanTheSame(t: string)
    requires Renamed(t) == ""
    ensures GlMeaning(TypeText(t)) == EffectMeaning(t) <==> t !in UNLIKE
  {
    assert TypeText(t) == Spelled(t);
    NamesMeanTheSame(t);
  }

  lemma KindsAgree(typeName: string)
    requires GlKind(typeName) == NoTexture
    ensures GlKind(TypeText(typeName)) == EffectKind(typeName)
  {
  }

  lemma {:induction false} TypeIsDeclared(params: seq<Param>, n: string)
    requires NoSamplerTypes(params)
    ensures GlKind(TypeOf(params, n)) == NoTexture
  {
    if params != [] {
      assert forall i :: 0 <= i < |params| - 1 ==> params[1..][i] == params[i + 1];
      TypeIsDeclared(params[1..], n);
      hide GlKind;
    }
  }

  lemma AtomsAgree(p: Primitives, env: Env, t: Token)
    requires NoSamplerTypes(env.params)
    ensures GlAtom(p, env, t) == EffectAtom(p, env, t)
    ensures GlAtom(p, env, t).Handle? ==>
      t.Name? && GlAtom(p, env, t) == Handle(t.text, EffectKind(TypeOf(env.params, t.text)))
  {
    if t.Name? {
      TypeIsDeclared(env.params, t.text);
      KindsAgree(TypeOf(env.params, t.text));
    }
    hide GlKind, EffectKind, TypeName, TypeOf;
  }

  lemma CallsAgree(p: Primitives, env: Env, bound: map<string, nat>, f: string, args: seq<Datum>)
    requires f !in UNLIKE
    ensures Applied(p, env, bound, GlMeaning(Spelled(f)), args)
         == Applied(p, env, bound, EffectMeaning(f), args)
  {
    NamesMeanTheSame(f);
    if Spelled(f) != f {
      OwnNames(f);
    }
    hide Spelled, GlMeaning, EffectMeaning, Zip, Each, Built, RowMatrix, ColumnMatrix, LookedUp, Fetched;
  }

  lemma LeadOf(env: Env, bound: map<string, nat>, t: string, lead: seq<Token>)
    requires BoundTo(env, bound, t, lead)
    ensures var f := FunctionOf(TypeOf(env.params, t), Method(lead));
      && f.TextureFunction? && f.call == CallOf(env, t, lead)
      && (f.sampled ==> t in bound && bound[t] < |env.samplers| && env.samplers[bound[t]] == Sampler(lead))
  {
    hide FunctionOf, TypeOf, Squeezed;
  }

  /** What the writer writes for the methods. */
  lemma FunctionsMean(typeName: string, n: string)
    requires FunctionOf(typeName, n).TextureFunction?
    ensures n in ["Sample", "SampleBias", "SampleLevel", "SampleGrad", "Load"]
    ensures FunctionOf(typeName, n).sampled <==> n != "Load"
    ensures GlMeaning(FunctionOf(typeName, n).call)
         == if n == "SampleLevel" then LookAtLevel else if n == "SampleGrad" then LookWithGradients
            else if n == "Load" then Fetch(if typeName == "texture3d" then Solid else Flat) else Look
  {
  }

  lemma KindOf(typeName: string)
    ensures EffectKind(typeName) == Solid <==> typeName == "texture3d"
  {
  }

  lemma LookupsAgree(p: Primitives, env: Env, bound: map<string, nat>, texture: Datum, n: string, sampler: string,
                     args: seq<Datum>)
    requires n in ["Sample", "SampleBias", "SampleLevel", "SampleGrad"]
    requires texture.Handle? ==> BoundSampler(env, bound, texture) == sampler
    ensures var m := if n == "SampleLevel" then LookAtLevel else if n == "SampleGrad" then LookWithGradients else Look;
      Applied(p, env, bound, m, [texture] + args) == MethodOf(p, texture, n, sampler, args)
  {
    var all := [texture] + args;
    assert all[0] == texture && forall i :: 0 <= i < |args| ==> all[i + 1] == args[i];
    hide BoundSampler, Dimensions;
  }

  lemma FetchesAgree(p: Primitives, env: Env, bound: map<string, nat>, texture: Datum, sampler: string, kind: Kind,
                     args: seq<Datum>)
    requires kind == Flat || kind == Solid
    requires texture.Handle? ==> (texture.kind == Solid <==> kind == Solid)
    ensures Applied(p, env, bound, Fetch(kind), [texture] + args) == MethodOf(p, texture, "Load", sampler, args)
  {
    var all := [texture] + args;
    assert all[0] == texture && forall i :: 0 <= i < |args| ==> all[i + 1] == args[i];
    hide Dimensions;
  }

  /** The function that is written for a method, applied to the texture and the arguments, does what the method does. */
  lemma MethodsAgree(p: Primitives, env: Env, bound: map<string, nat>, t: string, lead: seq<Token>, args: seq<Datum>)
    requires NoSamplerTypes(env.params) && BoundTo(env, bound, t, lead)
    ensures var f := CallOf(env, t, lead);
      Applied(p, env, bound, GlMeaning(f), [GlAtom(p, env, Name(t))] + args)
      == MethodOf(p, EffectAtom(p, env, Name(t)), Method(lead), Sampler(lead), args)
  {
    hide *;
    var texture, typeName, n, f := GlAtom(p, env, Name(t)), TypeOf(env.params, t), Method(lead), CallOf(env, t, lead);
    AtomsAgree(p, env, Name(t));
    LeadOf(env, bound, t, lead);
    FunctionsMean(typeName, n);
    if n == "Load" {
      KindOf(typeName);
      FetchesAgree(p, env, bound, texture, Sampler(lead), if typeName == "texture3d" then Solid else Flat, args);
    } else {
      SamplerIs(env, bound, t, texture, Sampler(lead));
      LookupsAgree(p, env, bound, texture, n, Sampler(lead), args);
    }
  }

  lemma SamplerIs(env: Env, bound: map<string, nat>, t: string, texture: Datum, sampler: string)
    requires t in bound && bound[t] < |env.samplers| && env.samplers[bound[t]] == sampler
    requires texture.Handle? ==> texture.name == t
    ensures texture.Handle? ==> BoundSampler(env, bound, texture) == sampler
  {
  }

  lemma OperatorsAgree(p: Primitives, env: Env, bound: map<string, nat>)
    ensures var h, g := Effect(p, env, bound), Gl(p, env, bound);
      && (forall op, v, w :: !h.matrix(v) && !h.matrix(w) ==> g.infix(op, v, w) == h.infix(op, v, w))
      && (forall v, w :: h.matrix(v) || h.matrix(w) ==> g.infix("*", v, w) == h.mul(v, w))
      && (forall u, v, w :: !h.matrix(u) && !h.matrix(v) && !h.matrix(w)
            ==> g.infix("+", g.infix("*", u, v), w) == h.mad(u, v, w))
      && (forall v, n :: g.field(v, n) == h.field(v, n))
      && (forall op, v :: g.prefix(op, v) == h.prefix(op, v))
  {
    assert "+"[0] != "*"[0];
    hide Zip, Linear;
  }

  lemma SaturationsAgree(p: Primitives, env: Env, bound: map<string, nat>)
    ensures var h, g := Effect(p, env, bound), Gl(p, env, bound);
      forall v :: g.call("clamp", [v, g.atom(Number("0.0")), g.atom(Number("1.0"))]) == h.saturate(v)
  {
    assert "0.0"[0] != "1.0"[0] && GlMeaning("clamp") == Clamped;
    assert GlAtom(p, env, Number("0.0")) == Vector([0.0]) && GlAtom(p, env, Number("1.0")) == Vector([1.0]);
    hide GlAtom, Between, GlMeaning;
  }

  /** The two languages have in common what the theorem about values asks for, whatever the machine has. */
  lemma LanguagesAgree(p: Primitives, env: Env, bound: map<string, nat>)
    requires NoSamplerTypes(env.params)
    ensures Agree(Effect(p, env, bound), Gl(p, env, bound), env, bound, UNLIKE)
  {
    var h, g := Effect(p, env, bound), Gl(p, env, bound);
    hide NoSamplerTypes, UNLIKE, Spelled, BoundTo, CallOf, Method, Sampler, GlAtom, EffectAtom, Applied, MethodOf,
         GlMeaning, EffectMeaning, Componentwise, Linear, Between, Times, Plus;
    OperatorsAgree(p, env, bound);
    SaturationsAgree(p, env, bound);
    forall t: Token ensures g.atom(t) == h.atom(t) {
      AtomsAgree(p, env, t);
    }
    forall f, args | f !in UNLIKE ensures g.call(Spelled(f), args) == h.call(f, args) {
      CallsAgree(p, env, bound, f, args);
    }
    forall t, lead, args | BoundTo(env, bound, t, lead)
      ensures g.call(CallOf(env, t, lead), [g.atom(Name(t))] + args) == h.sample(t, Method(lead), Sampler(lead), args)
    {
      MethodsAgree(p, env, bound, t, lead, args);
    }
  }

  // ---------------------------------------------------------------------------------------------------------
  // Where they do not

  lemma OneByOne(f: (real, real) -> real, x: real, y: real)
    ensures Zip(f, Vector([x]), Vector([y])) == Vector([f(x, y)])
  {
  }

  lemma RemainderNames()
    ensures GlMeaning(Spelled("fmod")) == Floored && EffectMeaning("fmod") == Truncated
  {
    FunctionNames();
    assert TypeName("fmod") == "" && Renamed("fmod") == "mod";
  }

  lemma WholesDiffer(x: real, y: real)
    requires y != 0.0
    ensures var q := x / y;
      TruncatedRemainder(x, y) == FlooredRemainder(x, y) <==> Whole(q) == q.Floor as real
  {
    var q := x / y;
    var a, b := Whole(q), q.Floor as real;
    assert y * a == y * b ==> a == b by {
      if y * a == y * b {
        assert y * (a - b) == 0.0;
      }
    }
  }

  lemma FloorOf(n: int)
    ensures (n as real).Floor == n
  {
  }

  lemma WholeIs(q: real)
    ensures Whole(q) == q.Floor as real <==> q >= 0.0 || q.Floor as real == q
  {
    var up, down := (-q).Floor, q.Floor;
    assert up as real <= -q < up as real + 1.0 && down as real <= q < down as real + 1.0;
    if -(up as real) == down as real {
      assert up as real <= -q <= up as real;
    } else if down as real == q {
      assert (-down) as real == -q;
      FloorOf(-down);
    }
  }

  /** `fmod` is right if and only if the quotient is not negative or is whole. */
  lemma RemaindersAgreeExactly(p: Primitives, env: Env, bound: map<string, nat>, x: real, y: real)
    requires y != 0.0
    ensures Gl(p, env, bound).call(Spelled("fmod"), [Vector([x]), Vector([y])])
         == Effect(p, env, bound).call("fmod", [Vector([x]), Vector([y])])
        <==> x / y >= 0.0 || (x / y).Floor as real == x / y
  {
    RemainderNames();
    OneByOne(TruncatedRemainder, x, y);
    OneByOne(FlooredRemainder, x, y);
    WholesDiffer(x, y);
    WholeIs(x / y);
    hide GlMeaning, EffectMeaning, Spelled, Zip, TruncatedRemainder, FlooredRemainder, Whole;
  }

  predicate Symmetric(cs: seq<real>, n: nat) {
    forall i, j :: 0 <= i < n && 0 <= j < n ==> At(cs, n, i, j) == At(cs, n, j, i)
  }

  lemma TransposedExactly(cs: seq<real>, n: nat)
    requires |cs| == n * n
    ensures Transposed(Groups(cs, n, n), n) == Groups(cs, n, n) <==> Symmetric(cs, n)
  {
    var g := Groups(cs, n, n);
    var t := Transposed(g, n);
    assert forall i, j :: 0 <= i < n && 0 <= j < n ==> g[i][j] == At(cs, n, i, j) && t[i][j] == g[j][i];
    hide At;
    if t == g {
      assert forall i, j :: 0 <= i < n && 0 <= j < n ==> t[i][j] == g[i][j];
    }
    if Symmetric(cs, n) {
      forall i | 0 <= i < n ensures t[i] == g[i] {
        assert forall j :: 0 <= j < n ==> t[i][j] == g[i][j];
      }
    }
  }

  lemma MatrixMeanings()
    ensures GlMeaning(Spelled("float3x3")) == ByColumns(3, 3) && EffectMeaning("float3x3") == ByRows(3, 3)
    ensures GlMeaning(Spelled("float3x4")) == ByColumns(3, 4) && EffectMeaning("float3x4") == ByRows(3, 4)
    ensures GlMeaning(Spelled("float4x4")) == ByColumns(4, 4) && EffectMeaning("float4x4") == ByRows(4, 4)
  {
  }

  /** A square matrix that is put together from its components is right if and only if it is symmetric: the components
      are rows in effect files and columns in GLSL. One of three by four components is always another one. */
  lemma MatricesAgreeExactly(p: Primitives, env: Env, bound: map<string, nat>, args: seq<Datum>)
    ensures var h, g, cs := Effect(p, env, bound), Gl(p, env, bound), Components(args);
      && (|cs| == 9 ==> (g.call(Spelled("float3x3"), args) == h.call("float3x3", args) <==> Symmetric(cs, 3)))
      && (|cs| == 16 ==> (g.call(Spelled("float4x4"), args) == h.call("float4x4", args) <==> Symmetric(cs, 4)))
      && (|cs| == 12 ==> g.call(Spelled("float3x4"), args) != h.call("float3x4", args))
  {
    var cs := Components(args);
    MatrixMeanings();
    hide GlMeaning, EffectMeaning, Spelled, Components, Symmetric;
    if |cs| == 9 {
      TransposedExactly(cs, 3);
    } else if |cs| == 16 {
      TransposedExactly(cs, 4);
    }
  }

  /** A product of two vectors of the same length is right if and only if they have one component: the writer makes it
      component by component. */
  lemma VectorProductsAgreeExactly(p: Primitives, env: Env, bound: map<string, nat>, a: seq<real>, b: seq<real>)
    requires |a| == |b|
    ensures Gl(p, env, bound).infix("*", Vector(a), Vector(b)) == Effect(p, env, bound).mul(Vector(a), Vector(b))
        <==> |a| == 1
  {
    var product := Gl(p, env, bound).infix("*", Vector(a), Vector(b));
    assert product == Times(Vector(a), Vector(b)) && |product.cs| == |a|;
    if |a| == 1 {
      assert a == [a[0]] && b == [b[0]];
      OneByOne((x: real, y: real) => x * y, a[0], b[0]);
      assert Dot(a[1..], b[1..]) == 0.0;
      assert product.cs[0] == a[0] * b[0] == Dot(a, b);
    }
  }
}
