/** The lambda-lifting pass of the Metal back end. Metal has no global uniforms, textures or samplers, so every
    helper function gets those it needs as extra parameters, and every call passes them on. This module holds the
    specification of the analysis and of the token-by-token translation of a function body. */
module MetalTranspiler {
  import opened ShaderTokens

  datatype UniformVar = UniformVar(name: string, typeName: string)

  /** A parsed shader function. `body` starts behind the opening brace and runs to the end of the file. */
  datatype Func = Func(name: string, params: seq<string>, body: seq<Token>)

  /** What the shader parser hands over. `inOutStructs` are the struct types used both as input and as output. */
  datatype Shader = Shader(
    fragment: bool,
    uniformVars: seq<UniformVar>,
    samplers: seq<string>,
    inOutStructs: set<string>,
    funcs: seq<Func>)
  {
    /** Only a fragment shader treats a texture as something outside the uniform buffer. */
    predicate IsTexture(v: UniformVar) {
      fragment && "texture" <= v.typeName
    }
  }

  datatype Kind = Uniforms | Textures | Samplers

  function NamesOf(sh: Shader, vars: seq<UniformVar>, texture: bool): seq<string> {
    if vars == [] then []
    else (if sh.IsTexture(vars[0]) == texture then [vars[0].name] else []) + NamesOf(sh, vars[1..], texture)
  }

  function UniformNames(sh: Shader): seq<string> { NamesOf(sh, sh.uniformVars, false) }

  function TextureNames(sh: Shader): seq<string> { NamesOf(sh, sh.uniformVars, true) }

  /** The parameters that `_main` gets, in declaration order. */
  function Declared(sh: Shader, kind: Kind): seq<string> {
    match kind
    case Uniforms => if UniformNames(sh) == [] then [] else ["uniforms"]
    case Textures => TextureNames(sh)
    case Samplers => if sh.fragment then sh.samplers else []
  }

  /** What mentioning the name `n` needs, apart from what a function of that name needs. */
  function Own(sh: Shader, kind: Kind, n: string): seq<string> {
    match kind
    case Uniforms => if n in UniformNames(sh) then ["uniforms"] else []
    case _ => if n in Declared(sh, kind) then [n] else []
  }

  /** The needs of one function, as the analysis records them. */
  datatype FunctionData = FunctionData(
    requiresUniformBuffers: bool, textures: seq<string>, samplers: seq<string>)
  {
    function Needs(kind: Kind): seq<string> {
      match kind
      case Uniforms => if requiresUniformBuffers then ["uniforms"] else []
      case Textures => textures
      case Samplers => samplers
    }

    /** The arguments appended to every call of the function. */
    function AdditionalArguments(): seq<string> {
      Needs(Uniforms) + Needs(Textures) + Needs(Samplers)
    }
  }

  const NO_NEEDS := FunctionData(false, [], [])

  /** Keeps the first of equal elements. */
  function Unique(xs: seq<string>): seq<string> {
    if xs == [] then []
    else
      var us := Unique(xs[..|xs| - 1]);
      if xs[|xs| - 1] in us then us else us + [xs[|xs| - 1]]
  }

  ghost predicate Distinct(xs: seq<string>) {
    forall i, j :: 0 <= i < j < |xs| ==> xs[i] != xs[j]
  }

  lemma {:induction false} UniqueElements(xs: seq<string>)
    ensures forall x :: x in Unique(xs) <==> x in xs
    ensures Distinct(Unique(xs))
  {
    if xs != [] {
      UniqueElements(xs[..|xs| - 1]);
      assert xs == xs[..|xs| - 1] + [xs[|xs| - 1]];
    }
  }

  // ---------------------------------------------------------------------------------------------------------
  // Analysis

  type Analysis = map<string, FunctionData>

  function DataOf(data: Analysis, n: string): FunctionData {
    if n in data then data[n] else NO_NEEDS
  }

  /** One token of a scanned body. */
  function ScanToken(sh: Shader, data: Analysis, fd: FunctionData, t: Token): FunctionData {
    if !t.Name? then fd
    else
      var callee := DataOf(data, t.text);
      FunctionData(
        fd.requiresUniformBuffers || t.text in UniformNames(sh) || callee.requiresUniformBuffers,
        fd.textures + (callee.textures + Own(sh, Textures, t.text)),
        fd.samplers + (callee.samplers + Own(sh, Samplers, t.text)))
  }

  function Scan(sh: Shader, data: Analysis, fd: FunctionData, ts: seq<Token>): FunctionData
    decreases |ts|
  {
    if ts == [] then fd
    else ScanToken(sh, data, Scan(sh, data, fd, ts[..|ts| - 1]), ts[|ts| - 1])
  }

  lemma {:induction false} ScanConcat(sh: Shader, data: Analysis, fd: FunctionData, a: seq<Token>, b: seq<Token>)
    ensures Scan(sh, data, fd, a + b) == Scan(sh, data, Scan(sh, data, fd, a), b)
    decreases |b|
  {
    if b == [] {
      assert a + b == a;
    } else {
      assert (a + b)[..|a + b| - 1] == a + b[..|b| - 1];
      ScanConcat(sh, data, fd, a, b[..|b| - 1]);
    }
  }

  /** The bracket-matching walk of the analysis: what is left of `ts` behind the token `end`. */
  function SkipTo(ts: seq<Token>, end: string): (rest: seq<Token>)
    ensures |rest| <= |ts|
    ensures ts != [] ==> |rest| < |ts|
    decreases |ts|
  {
    if ts == [] then []
    else if ts[0].text == end then ts[1..]
    else if ts[0] == Other("{") then SkipTo(SkipTo(ts[1..], "}"), end)
    else if ts[0] == Other("(") then SkipTo(SkipTo(ts[1..], ")"), end)
    else SkipTo(ts[1..], end)
  }

  lemma SkipToSuffix(ts: seq<Token>, end: string)
    ensures Suffix(SkipTo(ts, end), ts)
    decreases |ts|
  {
    if ts != [] && ts[0].text != end {
      if ts[0] == Other("{") || ts[0] == Other("(") {
        var close := if ts[0] == Other("{") then "}" else ")";
        SkipToSuffix(ts[1..], close);
        SkipToSuffix(SkipTo(ts[1..], close), end);
      } else {
        SkipToSuffix(ts[1..], end);
      }
    }
  }

  /** The tokens the analysis sees when it starts in front of `ts`: everything up to and including `end`. */
  function Scanned(ts: seq<Token>, end: string): seq<Token> {
    ts[..|ts| - |SkipTo(ts, end)|]
  }

  /** The scan as the source does it, recursing at every opening bracket: the needs found and the tokens left. */
  function ScanTo(sh: Shader, data: Analysis, fd: FunctionData, ts: seq<Token>, end: string)
    : (r: (FunctionData, seq<Token>))
    ensures r.1 == SkipTo(ts, end)
    decreases |ts|
  {
    if ts == [] then (fd, [])
    else if ts[0].text == end then (fd, ts[1..])
    else if ts[0] == Other("{") || ts[0] == Other("(") then
      var inner := ScanTo(sh, data, fd, ts[1..], if ts[0] == Other("{") then "}" else ")");
      ScanTo(sh, data, inner.0, inner.1, end)
    else ScanTo(sh, data, ScanToken(sh, data, fd, ts[0]), ts[1..], end)
  }

  /** No name is spelled like the bracket a scan stops at. */
  ghost predicate Lexed(ts: seq<Token>) {
    forall i :: 0 <= i < |ts| && ts[i].Name? ==> ts[i].text != "}" && ts[i].text != ")"
  }

  lemma ScanPrefixed(sh: Shader, data: Analysis, fd: FunctionData, t: Token, ts: seq<Token>)
    ensures Scan(sh, data, fd, [t] + ts) == Scan(sh, data, ScanToken(sh, data, fd, t), ts)
  {
    ScanConcat(sh, data, fd, [t], ts);
    assert [t][..0] == [];
  }

  lemma ScannedNested(ts: seq<Token>, close: string, end: string)
    requires ts != [] && SkipTo(ts, end) == SkipTo(SkipTo(ts[1..], close), end)
    ensures Scanned(ts, end) == [ts[0]] + (Scanned(ts[1..], close) + Scanned(SkipTo(ts[1..], close), end))
  {
    var tail, rest := ts[1..], SkipTo(ts[1..], close);
    SkipToSuffix(tail, close);
    SkipToSuffix(rest, end);
    ConsumedTransitive(SkipTo(rest, end), rest, tail);
    ScannedTail(ts, SkipTo(rest, end));
  }

  lemma ScannedTail(ts: seq<Token>, rest: seq<Token>)
    requires ts != [] && Suffix(rest, ts[1..])
    ensures ts[..|ts| - |rest|] == [ts[0]] + Consumed(ts[1..], rest)
  {
  }

  lemma LexedSuffix(rest: seq<Token>, ts: seq<Token>)
    requires Lexed(ts) && Suffix(rest, ts)
    ensures Lexed(rest)
  {
  }

  lemma ScanIsFlatNested(sh: Shader, data: Analysis, fd: FunctionData, ts: seq<Token>, close: string, end: string)
    requires ts != [] && ts[0].text != end
    requires (ts[0] == Other("{") && close == "}") || (ts[0] == Other("(") && close == ")")
    requires var inner := ScanTo(sh, data, fd, ts[1..], close);
             && inner.0 == Scan(sh, data, fd, Scanned(ts[1..], close))
             && ScanTo(sh, data, inner.0, inner.1, end).0 == Scan(sh, data, inner.0, Scanned(inner.1, end))
    ensures ScanTo(sh, data, fd, ts, end).0 == Scan(sh, data, fd, Scanned(ts, end))
  {
    var (inner, rest) := ScanTo(sh, data, fd, ts[1..], close);
    var a, b := Scanned(ts[1..], close), Scanned(rest, end);
    ScannedNested(ts, close, end);
    ScanPrefixed(sh, data, fd, ts[0], a + b);
    ScanConcat(sh, data, fd, a, b);
  }

  lemma ScanIsFlatPlain(sh: Shader, data: Analysis, fd: FunctionData, ts: seq<Token>, end: string)
    requires ts != [] && ts[0].text != end && ts[0] != Other("{") && ts[0] != Other("(")
    requires var next := ScanToken(sh, data, fd, ts[0]);
             ScanTo(sh, data, next, ts[1..], end).0 == Scan(sh, data, next, Scanned(ts[1..], end))
    ensures ScanTo(sh, data, fd, ts, end).0 == Scan(sh, data, fd, Scanned(ts, end))
  {
    SkipToSuffix(ts[1..], end);
    ScannedTail(ts, SkipTo(ts[1..], end));
    ScanPrefixed(sh, data, fd, ts[0], Scanned(ts[1..], end));
  }

  /** The nesting leaves no trace: a scan is one flat pass over the tokens it walks over. */
  lemma {:induction false} ScanIsFlat(sh: Shader, data: Analysis, fd: FunctionData, ts: seq<Token>, end: string)
    requires Lexed(ts) && end in {"}", ")"}
    ensures ScanTo(sh, data, fd, ts, end).0 == Scan(sh, data, fd, Scanned(ts, end))
    decreases |ts|
  {
    if ts != [] {
      LexedSuffix(ts[1..], ts);
      if ts[0].text == end {
        assert Scanned(ts, end) == [ts[0]] + [];
        ScanPrefixed(sh, data, fd, ts[0], []);
      } else if ts[0] == Other("{") || ts[0] == Other("(") {
        var close := if ts[0] == Other("{") then "}" else ")";
        var (inner, rest) := ScanTo(sh, data, fd, ts[1..], close);
        SkipToSuffix(ts[1..], close);
        LexedSuffix(rest, ts[1..]);
        ScanIsFlat(sh, data, fd, ts[1..], close);
        ScanIsFlat(sh, data, inner, rest, end);
        ScanIsFlatNested(sh, data, fd, ts, close, end);
      } else {
        ScanIsFlat(sh, data, ScanToken(sh, data, fd, ts[0]), ts[1..], end);
        ScanIsFlatPlain(sh, data, fd, ts, end);
      }
    }
  }

  function Finish(fd: FunctionData): FunctionData {
    fd.(textures := Unique(fd.textures), samplers := Unique(fd.samplers))
  }

  function FuncData(sh: Shader, data: Analysis, f: Func): FunctionData {
    Finish(ScanTo(sh, data, NO_NEEDS, f.body, "}").0)
  }

  function FuncNames(funcs: seq<Func>): seq<string> {
    if funcs == [] then [] else FuncNames(funcs[..|funcs| - 1]) + [funcs[|funcs| - 1].name]
  }

  /** Every function is known to the analysis from the start, without any needs. */
  function Unanalyzed(funcs: seq<Func>): Analysis {
    if funcs == [] then map[] else Unanalyzed(funcs[..|funcs| - 1])[funcs[|funcs| - 1].name := NO_NEEDS]
  }

  /** The analysis of the first `n` functions, each of which sees the results of those before it. */
  function Analyze(sh: Shader, n: nat): Analysis
    requires n <= |sh.funcs|
  {
    if n == 0 then Unanalyzed(sh.funcs)
    else
      var data := Analyze(sh, n - 1);
      data[sh.funcs[n - 1].name := FuncData(sh, data, sh.funcs[n - 1])]
  }

  // ---------------------------------------------------------------------------------------------------------
  // Translation of a body

  /** A piece of the emitted text. `Print` gives the characters; the constructor says what they name. */
  datatype Piece =
    | Text(s: string)          // punctuation and fixed text
    | Copied(name: string)     // a name taken over as it is
    | UniformRef(name: string)
    | TextureRef(name: string)
    | ExtraArg(name: string)
    | Compare(lhs: string, op: string, rhs: string)
  {
    function Print(): string {
      match this
      case Text(s) => s
      case Copied(n) => n
      case UniformRef(n) => "uniforms." + n
      case TextureRef(n) => n
      case ExtraArg(n) => n
      case Compare(l, op, r) => "all(" + l + " " + op + " " + r + ")"
    }
  }

  function Print(ps: seq<Piece>): string {
    if ps == [] then "" else ps[0].Print() + Print(ps[1..])
  }

  /** Type names of the effect language that Metal spells differently; some have no counterpart and throw. */
  function ConvertType(s: string): Result<string> {
    match s
    case "texture2d" => Ok("texture2d<float>")
    case "texture3d" => Ok("texture3d<float>")
    case "texture_cube" => Ok("texturecube<float>")
    case "texture_rect" => Thrown
    case "half2" => Ok("float2")
    case "half3" => Ok("float3")
    case "half4" => Ok("float4")
    case "half" => Ok("float")
    case "min16float2" => Ok("half2")
    case "min16float3" => Ok("half3")
    case "min16float4" => Ok("half4")
    case "min16float" => Ok("half")
    case "min10float" => Thrown
    case "double" => Thrown
    case "min16int2" => Ok("short2")
    case "min16int3" => Ok("short3")
    case "min16int4" => Ok("short4")
    case "min16int" => Ok("short")
    case "min16uint2" => Ok("ushort2")
    case "min16uint3" => Ok("ushort3")
    case "min16uint4" => Ok("ushort4")
    case "min16uint" => Ok("ushort")
    case "min13int" => Thrown
    case _ => Ok(s)
  }

  /** Intrinsics with another name in Metal; the empty string stands for "not one of them". */
  function ConvertIntrinsic(s: string): Result<string> {
    match s
    case "clip" => Thrown
    case "ddx" => Ok("dfdx")
    case "ddy" => Ok("dfdy")
    case "frac" => Ok("fract")
    case "lerp" => Ok("mix")
    case _ => Ok("")
  }

  const COMPARATORS := {"==", "!=", "<", "<=", ">=", ">"}

  /** What a walk over part of a body yields: the emitted pieces, the token it stopped on and the tokens behind it. */
  datatype Chunk = Chunk(out: seq<Piece>, last: Token, rest: seq<Token>)

  function Prefixed(out: seq<Piece>, r: Result<Chunk>): Result<Chunk> {
    if r.Ok? then Ok(Chunk(out + r.value.out, r.value.last, r.value.rest)) else Thrown
  }

  /** Pieces never contain a comma next to other text, so that splitting pieces is splitting the text. */
  const SEPARATOR := [Text(","), Text(" ")]

  lemma PrefixedNil(r: Result<Chunk>)
    ensures Prefixed([], r) == r
  {
    if r.Ok? {
      assert [] + r.value.out == r.value.out;
    }
  }

  lemma PrefixedTwice(a: seq<Piece>, b: seq<Piece>, r: Result<Chunk>)
    ensures Prefixed(a, Prefixed(b, r)) == Prefixed(a + b, r)
  {
    if r.Ok? {
      assert a + (b + r.value.out) == a + b + r.value.out;
    }
  }

  function ExtraArgs(names: seq<string>): (out: seq<Piece>) {
    if names == [] then []
    else if |names| == 1 then [ExtraArg(names[0])]
    else [ExtraArg(names[0])] + SEPARATOR + ExtraArgs(names[1..])
  }

  /** Splits at commas, dropping empty parts; after three cuts the rest stays whole. */
  function Split(ps: seq<Piece>, cuts: nat, part: seq<Piece>): seq<seq<Piece>> {
    if ps == [] then (if part == [] then [] else [part])
    else if ps[0] == Text(",") && cuts > 0 then
      (if part == [] then Split(ps[1..], cuts, []) else [part] + Split(ps[1..], cuts - 1, []))
    else Split(ps[1..], cuts, part + [ps[0]])
  }

  /** Text in a conversion; `open` ends with the opening parenthesis. */
  function Converted(open: string, part: seq<Piece>): seq<Piece> {
    [Text(open)] + part + [Text(")")]
  }

  /** The arguments of an `int3` constructor, each made an explicit conversion. */
  function IntArguments(ps: seq<Piece>): Result<seq<Piece>> {
    var parts := Split(ps, 3, []);
    if |parts| == 3 then
      Ok(Converted("int(", parts[0]) + SEPARATOR + Converted("int(", parts[1]) + SEPARATOR
         + Converted("int(", parts[2]))
    else if |parts| == 2 then Ok(Converted("int2(", parts[0]) + SEPARATOR + Converted("int(", parts[1]))
    else if |parts| == 1 then Ok([Text("[\"")] + parts[0] + [Text("\"]")])
    else Thrown
  }

  /** The text between the parentheses of a call of `callee` whose own arguments came out as `args`. */
  function CallArguments(data: Analysis, callee: string, args: seq<Piece>): Result<seq<Piece>> {
    var own :- if callee == "int3" then IntArguments(args) else Ok(args);
    var extra := ExtraArgs(DataOf(data, callee).AdditionalArguments());
    Ok(if extra == [] then own else own + SEPARATOR + extra)
  }

  /** The `read` call made of a `Load` whose argument came out as `arg`. */
  function ReadCall(arg: seq<Piece>): Result<seq<Piece>> {
    if |arg| >= 3 && arg[0] == Copied("int3") && arg[1] == Text("(") then
      var parts := Split(arg[2..|arg| - 1], 3, []);
      if |parts| == 3 then
        Ok([Text("read(uint2(")] + parts[0] + SEPARATOR + parts[1] + [Text(")")] + SEPARATOR
           + [Text("uint(")] + parts[2] + [Text("))")])
      else if |parts| == 2 then
        Ok([Text("read(uint2(")] + parts[0] + [Text(")")] + SEPARATOR + [Text("uint(")] + parts[1] + [Text("))")])
      else if |parts| == 1 then Ok([Text("read(uint2(")] + parts[0] + [Text(".xy)")] + SEPARATOR + [Text("0)")])
      else Thrown
    else Ok([Text("read(uint2(")] + arg + [Text(".xy)")] + SEPARATOR + [Text("0)")])
  }

  /** Walks `ts` until the token `end`, translating on the way. `prev` is the token in front of `ts`. */
  function Transpile(sh: Shader, data: Analysis, prev: Token, ts: seq<Token>, end: string): (r: Result<Chunk>)
    ensures r.Ok? ==> |r.value.rest| <= |ts| && (ts != [] ==> |r.value.rest| < |ts|)
    decreases |ts|, 3
  {
    if ts == [] then Ok(Chunk([], NONE, []))
    else if ts[0].text == end then Ok(Chunk([], ts[0], ts[1..]))
    else
      var step :- Step(sh, data, prev, ts);
      Prefixed(step.out, Transpile(sh, data, step.last, step.rest, end))
  }

  /** One round of the loop: what the first token of `ts` turns into, with whatever it swallows. */
  function Step(sh: Shader, data: Analysis, prev: Token, ts: seq<Token>): (r: Result<Chunk>)
    requires ts != []
    ensures r.Ok? ==> |r.value.rest| < |ts|
    decreases |ts|, 2
  {
    var t := ts[0];
    if t.Name? then StepName(sh, data, prev, ts)
    else if t == Other("{") then
      var inner :- Transpile(sh, data, t, ts[1..], "}");
      Ok(Chunk([Text("{")] + inner.out + [Text("}")], inner.last, inner.rest))
    else if t == Other("(") then
      var inner :- Transpile(sh, data, t, ts[1..], ")");
      var args :- CallArguments(data, prev.text, inner.out);
      Ok(Chunk([Text("(")] + args + [Text(")")], inner.last, inner.rest))
    else Ok(Chunk([Text(t.text)], t, ts[1..]))
  }

  function StepName(sh: Shader, data: Analysis, prev: Token, ts: seq<Token>): (r: Result<Chunk>)
    requires ts != [] && ts[0].Name?
    ensures r.Ok? ==> |r.value.rest| < |ts|
    decreases |ts|, 1
  {
    var t := ts[0];
    var s := t.text;
    var converted :- ConvertType(s);
    var intrinsic := ConvertIntrinsic(s);
    if s == "obs_glsl_compile" then Ok(Chunk([Text("false")], t, ts[1..]))
    else if converted != s then Ok(Chunk([Text(converted)], t, ts[1..]))
    else if intrinsic.Thrown? then Thrown
    else if intrinsic.value != "" then Ok(Chunk([Text(intrinsic.value)], t, ts[1..]))
    else if s == "mul" then Multiplication(sh, data, ts)
    else if s == "mad" then MultiplyAdd(sh, data, ts)
    else if s in TextureNames(sh) then SamplerCall(sh, data, ts)
    else if s in UniformNames(sh) && prev.text != "." then Ok(Chunk([UniformRef(s)], t, ts[1..]))
    else if s in sh.inOutStructs then Ok(Chunk([Text(s + "_Out")], t, ts[1..]))
    else if |ts| > 1 && ts[1].Other? && ts[1].text in COMPARATORS then
      var rhs := SkipBlanks(ts[2..]);
      if rhs == [] then Thrown else Ok(Chunk([Compare(s, ts[1].text, rhs[0].text)], t, ts[1..]))
    else Ok(Chunk([Copied(s)], t, ts[1..]))
  }

  /** The tokens behind the callee's name, from its opening parenthesis; empty if there is no call here. */
  function OpenCall(ts: seq<Token>): (args: seq<Token>)
    ensures |args| <= |ts|
  {
    var args := SkipBlanks(ts);
    if args == [] || args[0].text != "(" || SkipBlanks(args[1..]) == [] then [] else args
  }

  /** The token in front of the first one of `ts` that is no blank; `last` is the one in front of `ts`. */
  function BeforeOperand(last: Token, ts: seq<Token>): Token {
    var rest := SkipBlanks(ts);
    if |rest| == |ts| then last else ts[|ts| - |rest| - 1]
  }

  /** `mul(a, b)` becomes a product of two parenthesised operands. */
  function Multiplication(sh: Shader, data: Analysis, ts: seq<Token>): (r: Result<Chunk>)
    requires ts != []
    ensures r.Ok? ==> |r.value.rest| < |ts|
    decreases |ts|, 0
  {
    var args := OpenCall(ts[1..]);
    if args == [] then Thrown
    else
      var a :- Transpile(sh, data, args[0], args[1..], ",");
      var b :- SecondFactor(sh, data, a.last, a.rest);
      Ok(Chunk([Text("(")] + a.out + [Text(") * (")] + b.out + [Text(")")], b.last, b.rest))
  }

  /** The second operand of a `mul`, without the blanks in front of it. */
  function SecondFactor(sh: Shader, data: Analysis, comma: Token, ts: seq<Token>): (r: Result<Chunk>)
    ensures r.Ok? ==> |r.value.rest| <= |ts|
    decreases |ts|, 4
  {
    if SkipBlanks(ts) == [] then Thrown
    else Transpile(sh, data, BeforeOperand(comma, ts), SkipBlanks(ts), ")")
  }

  /** `mad(a, b, c)` becomes a product plus a summand. */
  function MultiplyAdd(sh: Shader, data: Analysis, ts: seq<Token>): (r: Result<Chunk>)
    requires ts != []
    ensures r.Ok? ==> |r.value.rest| < |ts|
    decreases |ts|, 0
  {
    var args := OpenCall(ts[1..]);
    if args == [] then Thrown
    else
      var a :- Transpile(sh, data, args[0], args[1..], ",");
      if SkipBlanks(a.rest) == [] then Thrown
      else
        var b :- Transpile(sh, data, a.last, a.rest, ",");
        if SkipBlanks(b.rest) == [] then Thrown
        else
          var c :- Transpile(sh, data, b.last, b.rest, ")");
          Ok(Chunk([Text("((")] + a.out + [Text(") * (")] + b.out + [Text(")) + (")] + c.out + [Text(")")],
                   c.last, c.rest))
  }

  /** A texture name must be followed by one of the sampling methods. */
  function SamplerCall(sh: Shader, data: Analysis, ts: seq<Token>): (r: Result<Chunk>)
    requires ts != []
    ensures r.Ok? ==> |r.value.rest| < |ts|
    decreases |ts|, 0
  {
    var dot := SkipBlanks(ts[1..]);
    if dot == [] || dot[0].text != "." then Thrown
    else
      var call := SkipBlanks(dot[1..]);
      if call == [] || !call[0].Name? then Thrown
      else
        var args := OpenCall(call[1..]);
        if args == [] then Thrown
        else
          var access :- TextureCall(sh, data, call[0].text, args);
          Ok(Chunk([TextureRef(ts[0].text), Text(".")] + access.out, access.last, access.rest))
  }

  /** A texture access; `ts` starts with its opening parenthesis. */
  function TextureCall(sh: Shader, data: Analysis, call: string, ts: seq<Token>): (r: Result<Chunk>)
    requires ts != []
    ensures r.Ok? ==> |r.value.rest| < |ts|
    decreases |ts|, 0
  {
    if call == "Load" then
      var a :- Transpile(sh, data, ts[0], ts[1..], ")");
      var read :- ReadCall(a.out);
      Ok(Chunk(read, a.last, a.rest))
    else if call !in {"Sample", "SampleBias", "SampleGrad", "SampleLevel"} then Thrown
    else
      var a :- Transpile(sh, data, ts[0], ts[1..], ",");
      if SkipBlanks(a.rest) == [] then Thrown
      else if call == "Sample" then
        var b :- Transpile(sh, data, a.last, a.rest, ")");
        Ok(Chunk([Text("sample(")] + a.out + SEPARATOR + b.out + [Text(")")], b.last, b.rest))
      else
        var b :- Transpile(sh, data, a.last, a.rest, ",");
        if SkipBlanks(b.rest) == [] then Thrown
        else if call == "SampleGrad" then
          var c :- Transpile(sh, data, b.last, b.rest, ",");
          if SkipBlanks(c.rest) == [] then Thrown
          else
            var d :- Transpile(sh, data, c.last, c.rest, ")");
            Ok(Chunk([Text("sample(")] + a.out + SEPARATOR + b.out + SEPARATOR + [Text("gradient2d(")] + c.out
                     + SEPARATOR + d.out + [Text("))")], d.last, d.rest))
        else
          var c :- Transpile(sh, data, b.last, b.rest, ")");
          var option := if call == "SampleBias" then "bias(" else "level(";
          Ok(Chunk([Text("sample(")] + a.out + SEPARATOR + b.out + SEPARATOR + [Text(option)] + c.out + [Text("))")],
                   c.last, c.rest))
  }

  // ---------------------------------------------------------------------------------------------------------
  // Signatures

  function Keep(xs: seq<string>, ys: seq<string>): seq<string> {
    if xs == [] then [] else (if xs[0] in ys then [xs[0]] else []) + Keep(xs[1..], ys)
  }

  /** The extra parameters of a function of the given kind: all of them for `main`, and for a helper those it
      needs, in either case in declaration order. */
  function ExtraParameters(sh: Shader, fd: FunctionData, isMain: bool, kind: Kind): seq<string> {
    if isMain then Declared(sh, kind) else Keep(Declared(sh, kind), fd.Needs(kind))
  }

  function Signature(sh: Shader, fd: FunctionData, f: Func): seq<string> {
    f.params
    + ExtraParameters(sh, fd, f.name == "main", Uniforms)
    + ExtraParameters(sh, fd, f.name == "main", Textures)
    + ExtraParameters(sh, fd, f.name == "main", Samplers)
  }
}
