/** The GLSL back end's writer of function bodies: what it makes of a token stream, and the routines that do it with
    one cursor shared by all their recursive calls. */
module GlslWriter {
  import opened ShaderTokens
  import opened Decimals

  /** A uniform, texture or sampler declaration of the effect file. */
  datatype Param = Param(name: string, typeName: string)

  datatype Env = Env(params: seq<Param>, samplers: seq<string>)

  /** What lives as long as the parser: the number of the next `sincos` variable, and for every texture that was
      sampled the sampler it was last sampled with. */
  datatype State = State(sincos: nat, bound: map<string, nat>)

  /** The text a routine appended, the state it left, and the tokens it left unread. The text is kept as the tokens
      it consists of. */
  datatype Chunk = Chunk(text: seq<Token>, state: State, rest: seq<Token>)

  /** An attempt to rewrite a name. When it fails it may have written something already, and the cursor of the
      caller stays on the name. */
  datatype Attempt =
    | Written(chunk: Chunk)
    | Unwritten(text: seq<Token>, state: State)

  datatype TextureFunction = TextureFunction(call: string, sampled: bool) | NoFunction

  const TIMES := [CLOSE, SPACE, Other("*"), SPACE, OPEN]
  const PLUS := [CLOSE, SPACE, Other("+"), SPACE, OPEN]
  const CLAMPED := [COMMA, SPACE, Number("0.0"), COMMA, SPACE, Number("1.0"), CLOSE]
  const ASSIGN := [SPACE, Other("="), SPACE]
  const NEXT := [CLOSE, SEMICOLON, SPACE]

  // ---------------------------------------------------------------------------------------------------------
  // Names

  /** The spelling of a type, or the empty string for a name that is no type. */
  function TypeName(n: string): string {
    match n
    case "float2" => "vec2"
    case "float3" => "vec3"
    case "float4" => "vec4"
    case "int2" => "ivec2"
    case "int3" => "ivec3"
    case "int4" => "ivec4"
    case "uint2" => "uvec2"
    case "uint3" => "uvec3"
    case "uint4" => "uvec4"
    case "float3x3" => "mat3x3"
    case "float3x4" => "mat3x4"
    case "float4x4" => "mat4x4"
    case "texture2d" => "sampler2D"
    case "texture3d" => "sampler3D"
    case "texture_cube" => "samplerCube"
    case "texture_rect" => "sampler2DRect"
    case _ => ""
  }

  /** How a declaration spells its type. */
  function TypeText(typeName: string): string {
    if TypeName(typeName) != "" then TypeName(typeName) else typeName
  }

  /** The spelling of an intrinsic function that GLSL has under another name, or the empty string. */
  function Renamed(n: string): string {
    match n
    case "atan2" => "atan"
    case "ddx" => "dFdx"
    case "ddy" => "dFdy"
    case "fmod" => "mod"
    case "frac" => "fract"
    case "lerp" => "mix"
    case "rsqrt" => "inversesqrt"
    case _ => ""
  }

  function TypeOf(params: seq<Param>, n: string): string {
    if params == [] then "" else if params[0].name == n then params[0].typeName else TypeOf(params[1..], n)
  }

  predicate IsTexture(env: Env, n: string) {
    "texture" <= TypeOf(env.params, n)
  }

  function SamplerId(samplers: seq<string>, n: string): (id: nat)
    ensures id <= |samplers| && (id < |samplers| ==> samplers[id] == n)
  {
    if samplers == [] || samplers[0] == n then 0 else 1 + SamplerId(samplers[1..], n)
  }

  function FunctionOf(typeName: string, n: string): TextureFunction {
    match n
    case "Sample" => TextureFunction("texture", true)
    case "SampleBias" => TextureFunction("texture", true)
    case "SampleGrad" => TextureFunction("textureGrad", true)
    case "SampleLevel" => TextureFunction("textureLod", true)
    case "Load" => TextureFunction(if typeName == "texture3d" then "obs_load_3d" else "obs_load_2d", false)
    case _ => NoFunction
  }

  function SincosName(n: nat): (t: Token)
    ensures t.Name?
  {
    Name("sincos_var_internal_" + Digits(n))
  }

  function Declares(v: Token): seq<Token> {
    [Name("float"), SPACE, v] + ASSIGN
  }

  function SineOf(v: Token): seq<Token> {
    ASSIGN + [Name("sin"), OPEN, v] + NEXT
  }

  function CosineOf(v: Token): seq<Token> {
    ASSIGN + [Name("cos"), OPEN, v, CLOSE]
  }

  // ---------------------------------------------------------------------------------------------------------
  // Token streams

  predicate Is(ts: seq<Token>, text: string) {
    ts != [] && ts[0].text == text
  }

  predicate Opens(t: Token, c: char) {
    t.Other? && t.text != "" && t.text[0] == c
  }

  function Tail(ts: seq<Token>): seq<Token> {
    if ts == [] then [] else ts[1..]
  }

  /** Where "next token" leads from the first of these tokens. */
  function Next(ts: seq<Token>): (rest: seq<Token>)
    ensures |rest| <= |ts| && (ts != [] ==> |rest| < |ts|)
  {
    SkipBlanks(Tail(ts))
  }

  // ---------------------------------------------------------------------------------------------------------
  // The writer. `ts` starts at the token under the cursor, `rest` at the token where the routine stopped.

  /** From the current token, whatever it is, up to a token `end` or the end of the file. */
  function Contents(env: Env, st: State, ts: seq<Token>, end: string): (c: Chunk)
    ensures |c.rest| <= |ts| && (ts != [] ==> |c.rest| < |ts|)
    decreases |ts|, 1
  {
    if ts == [] then Chunk([], st, [])
    else
      var head := if ts[0].Name? then WriteName(env, st, ts) else Chunk([ts[0]], st, ts[1..]);
      Prefixed(head.text, Loop(env, head.state, head.rest, end))
  }

  function Prefixed(text: seq<Token>, c: Chunk): Chunk {
    c.(text := text + c.text)
  }

  /** The loop of the same routine; `ts` are the tokens behind the cursor. */
  function Loop(env: Env, st: State, ts: seq<Token>, end: string): (c: Chunk)
    ensures |c.rest| <= |ts|
    decreases |ts|, 3
  {
    if ts == [] || ts[0].text == end then Chunk([], st, ts)
    else
      var item := Item(env, st, ts);
      Prefixed(item.text, Loop(env, item.state, item.rest, end))
  }

  /** One token, or what it opens. From here on `rest` is what follows the last token taken. */
  function Item(env: Env, st: State, ts: seq<Token>): (c: Chunk)
    requires ts != []
    ensures |c.rest| < |ts|
    decreases |ts|, 2
  {
    if ts[0].Name? then WriteName(env, st, ts)
    else if Opens(ts[0], '{') then Through(Contents(env, st, ts, "}"))
    else if Opens(ts[0], '(') then Through(Contents(env, st, ts, ")"))
    else Chunk([ts[0]], st, ts[1..])
  }

  /** The token where the writing stopped is written, too. */
  function Through(c: Chunk): Chunk {
    if c.rest == [] then c else Chunk(c.text + [c.rest[0]], c.state, c.rest[1..])
  }

  function WriteName(env: Env, st: State, ts: seq<Token>): (c: Chunk)
    requires ts != []
    ensures |c.rest| < |ts|
    decreases |ts|, 0, 2
  {
    var n := ts[0].text;
    if TypeName(n) != "" then Chunk([Name(TypeName(n))], st, ts[1..])
    else
      match WriteIntrinsic(env, st, ts)
      case Written(c) => c
      case Unwritten(text, st) => Chunk(text + [ts[0]], st, ts[1..])
  }

  function WriteIntrinsic(env: Env, st: State, ts: seq<Token>): (a: Attempt)
    requires ts != []
    ensures a.Written? ==> |a.chunk.rest| < |ts|
    decreases |ts|, 0, 1
  {
    var n := ts[0].text;
    if Renamed(n) != "" then Written(Chunk([Name(Renamed(n))], st, ts[1..]))
    else if n == "mad" then WriteMad(env, st, ts)
    else if n == "mul" then WriteMul(env, st, ts)
    else if n == "saturate" then WriteSaturate(env, st, ts)
    else if n == "sincos" then WriteSincos(env, st, ts)
    else if IsTexture(env, n) then WriteTexture(env, st, ts)
    else Unwritten([], st)
  }

  function WriteMad(env: Env, st: State, ts: seq<Token>): (w: Attempt)
    requires ts != []
    ensures w.Written? ==> |w.chunk.rest| < |ts|
    decreases |ts|, 0, 0
  {
    if !Is(Next(ts), "(") then Unwritten([], st)
    else
      var a := Contents(env, st, Next(ts), ",");
      var b := Contents(env, a.state, Next(a.rest), ",");
      var c := Contents(env, b.state, Next(b.rest), ")");
      Written(Chunk([OPEN] + a.text + TIMES + b.text + PLUS + c.text + [CLOSE, CLOSE], c.state, Tail(c.rest)))
  }

  function WriteMul(env: Env, st: State, ts: seq<Token>): (w: Attempt)
    requires ts != []
    ensures w.Written? ==> |w.chunk.rest| < |ts|
    decreases |ts|, 0, 0
  {
    if !Is(Next(ts), "(") then Unwritten([], st)
    else
      var a := Contents(env, st, Next(ts), ",");
      var b := Contents(env, a.state, Next(a.rest), ")");
      Written(Chunk([OPEN] + a.text + TIMES + b.text + [CLOSE, CLOSE], b.state, Tail(b.rest)))
  }

  function WriteSaturate(env: Env, st: State, ts: seq<Token>): (w: Attempt)
    requires ts != []
    ensures w.Written? ==> |w.chunk.rest| < |ts|
    decreases |ts|, 0, 0
  {
    if !Is(Next(ts), "(") then Unwritten([], st)
    else
      var a := Contents(env, st, Next(ts), ")");
      Written(Chunk([Name("clamp")] + a.text + CLAMPED, a.state, Tail(a.rest)))
  }

  /** A declaration and two assignments. The number of the variable is taken before the operand is written. */
  function WriteSincos(env: Env, st: State, ts: seq<Token>): (w: Attempt)
    requires ts != []
    ensures w.Written? ==> |w.chunk.rest| < |ts|
    decreases |ts|, 0, 0
  {
    var v := SincosName(st.sincos);
    if !Is(Next(ts), "(") then Unwritten([], st)
    else
      var x := Contents(env, st.(sincos := st.sincos + 1), Next(ts), ",");
      WriteResults(env, v, x.(text := Declares(v) + x.text + NEXT))
  }

  /** The two results of `sincos`, behind what was written so far. */
  function WriteResults(env: Env, v: Token, x: Chunk): (w: Attempt)
    ensures w.Written? ==> |w.chunk.rest| <= |x.rest|
    decreases |x.rest|, 2
  {
    if Next(x.rest) == [] then Unwritten(x.text, x.state)
    else
      var s := Contents(env, x.state, Next(x.rest), ",");
      var sine := x.text + s.text + SineOf(v);
      if Next(s.rest) == [] then Unwritten(sine, s.state)
      else
        var c := Contents(env, s.state, Next(s.rest), ")");
        Written(Chunk(sine + c.text + CosineOf(v), c.state, Tail(c.rest)))
  }

  /** A method call on a texture: `texture.Sample(sampler, coordinates)` and its kin. */
  function WriteTexture(env: Env, st: State, ts: seq<Token>): (w: Attempt)
    requires ts != []
    ensures w.Written? ==> |w.chunk.rest| < |ts|
    decreases |ts|, 0, 0
  {
    if !Is(Next(ts), ".") || Next(Next(ts)) == [] then Unwritten([], st)
    else
      match WriteTextureCall(env, st, ts[0].text, Next(Next(ts)))
      case Unwritten(text, st) => Unwritten(text, st)
      case Written(call) =>
        if Next(call.rest) == [] then Unwritten(call.text, call.state)
        else
          var c := Contents(env, call.state, Next(call.rest), ")");
          Written(Chunk(call.text + c.text + [CLOSE], c.state, Tail(c.rest)))
  }

  /** From the name of the method to the token in front of the coordinates, which `rest` starts with. */
  function WriteTextureCall(env: Env, st: State, texture: string, ts: seq<Token>): (w: Attempt)
    requires ts != []
    ensures w.Written? ==> w.chunk.rest != [] && |w.chunk.rest| <= |ts|
  {
    match FunctionOf(TypeOf(env.params, texture), ts[0].text)
    case NoFunction => Unwritten([], st)
    case TextureFunction(call, sampled) =>
      var text := [Name(call), OPEN, Name(texture), COMMA, SPACE];
      if !Is(Next(ts), "(") then Unwritten([], st)
      else if !sampled then Written(Chunk(text, st, Next(ts)))
      else
        var sampler := Next(Next(ts));
        if sampler == [] || SamplerId(env.samplers, sampler[0].text) == |env.samplers| then Unwritten([], st)
        else if !Is(Next(sampler), ",") then Unwritten([], st)
        else
          var id := SamplerId(env.samplers, sampler[0].text);
          Written(Chunk(text, st.(bound := st.bound[texture := id]), Next(sampler)))
  }
}
