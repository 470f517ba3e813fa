/** Function bodies as syntax trees: how they read as tokens of the effect language, and what the translation makes
    of those tokens. */
module MetalSyntax {
  import opened ShaderTokens
  import opened MetalTranspiler
  import M = MetalText

  /** A handle is the name of a sampler, which can stand only in an access to a texture. Products (`mul`, `mad`) and
      constructors (`float4`, `int3`) are calls like others. */
  datatype Expr =
    | Literal(text: string)
    | Local(x: string)
    | Handle(sampler: string)
    | Uniform(u: string)
    | Paren(e: Expr)
    | Negate(e: Expr)
    | Infix(op: string, left: Expr, right: Expr)
    | Conditional(test: Expr, yes: Expr, no: Expr)
    | Member(base: Expr, field: string)
    | Index(base: Expr, index: Expr)
    | Call(f: string, args: seq<Expr>)
    | Access(texture: string, f: string, args: seq<Expr>)

  /** A gap is a blank between statements. An assignment can have an operator, as in `x += y`. */
  datatype Stmt =
    | Gap(blank: string)
    | Let(typeName: string, x: string)
    | Declare(typeName: string, x: string, value: Expr)
    | Assign(x: string, fields: seq<string>, op: string, value: Expr)
    | If(cond: Expr, thn: seq<Stmt>, els: seq<Stmt>)
    | When(cond: Expr, thn: seq<Stmt>)
    | While(cond: Expr, body: seq<Stmt>)
    | Return(value: Expr)

  const DOT := Other(".")
  const LEFT := Other("[")
  const RIGHT := Other("]")
  const MINUS := Other("-")
  const QUESTION := [SPACE, Other("?"), SPACE]
  const COLON := [SPACE, Other(":"), SPACE]

  /** The lexer knows no operators of two characters. */
  function OpTokens(op: string): (ts: seq<Token>)
    ensures ts != []
  {
    if |op| == 2 then [Other(op[..1]), Other(op[1..])] else [Other(op)]
  }

  /** What stands between blanks: operators, assignments, and the parts of a conditional. */
  predicate Sign(op: string) {
    M.OpLevel(op) > 0 || op in M.ASSIGNMENTS || op == "?" || op == ":"
  }

  const CHARACTERS: set<string> := {"<", ">", "=", "!", "+", "-", "*", "/", "%", "&", "|", "?", ":"}

  /** Each token of it is a single character. */
  lemma SignCharacters(op: string)
    requires Sign(op)
    ensures if |op| == 2 then op[..1] in CHARACTERS && op[1..] in CHARACTERS else op in CHARACTERS
  {
    if M.OpLevel(op) > 0 {
      M.TwoCharacters(op);
    } else if op in M.ASSIGNMENTS {
      M.AssignmentText(op);
    }
  }

  /** An operator between blanks. */
  function Spaced(op: string): seq<Token> {
    [SPACE] + (OpTokens(op) + [SPACE])
  }

  // ---------------------------------------------------------------------------------------------------------
  // The tokens of a body

  function Tokens(e: Expr): (ts: seq<Token>)
    ensures ts != []
  {
    match e
    case Literal(n) => [Number(n)]
    case Local(x) => [Name(x)]
    case Handle(s) => [Name(s)]
    case Uniform(u) => [Name(u)]
    case Paren(x) => [OPEN] + (Tokens(x) + [CLOSE])
    case Negate(x) => [MINUS] + Tokens(x)
    case Infix(op, l, r) => Tokens(l) + (Spaced(op) + Tokens(r))
    case Conditional(c, a, b) => Tokens(c) + (QUESTION + (Tokens(a) + (COLON + Tokens(b))))
    case Member(b, f) => Tokens(b) + [DOT, Name(f)]
    case Index(b, i) => Tokens(b) + ([LEFT] + (Tokens(i) + [RIGHT]))
    case Call(f, args) => [Name(f), OPEN] + (ArgTokens(args) + [CLOSE])
    case Access(t, f, args) => [Name(t), DOT, Name(f), OPEN] + (ArgTokens(args) + [CLOSE])
  }

  function ArgTokens(args: seq<Expr>): seq<Token> {
    if args == [] then []
    else if |args| == 1 then Tokens(args[0])
    else Tokens(args[0]) + ([COMMA, SPACE] + ArgTokens(args[1..]))
  }

  function FieldTokens(fields: seq<string>): seq<Token> {
    if fields == [] then [] else [DOT, Name(fields[0])] + FieldTokens(fields[1..])
  }

  function StmtTokens(s: Stmt): seq<Token> {
    match s
    case Gap(b) => [Blank(b)]
    case Let(t, x) => [Name(t), SPACE, Name(x), SEMICOLON]
    case Declare(t, x, e) => [Name(t), SPACE, Name(x)] + (Spaced("=") + (Tokens(e) + [SEMICOLON]))
    case Assign(x, fields, op, e) => [Name(x)] + (FieldTokens(fields) + (Spaced(op) + (Tokens(e) + [SEMICOLON])))
    case If(c, a, b) =>
      [Name("if"), SPACE, OPEN] + (Tokens(c) + ([CLOSE, SPACE, BEGIN] + (BodyTokens(a)
      + ([END, SPACE, Name("else"), SPACE, BEGIN] + (BodyTokens(b) + [END])))))
    case When(c, a) =>
      [Name("if"), SPACE, OPEN] + (Tokens(c) + ([CLOSE, SPACE, BEGIN] + (BodyTokens(a) + [END])))
    case While(c, b) =>
      [Name("while"), SPACE, OPEN] + (Tokens(c) + ([CLOSE, SPACE, BEGIN] + (BodyTokens(b) + [END])))
    case Return(e) => [Name("return"), SPACE] + (Tokens(e) + [SEMICOLON])
  }

  function BodyTokens(ss: seq<Stmt>): seq<Token> {
    if ss == [] then [] else StmtTokens(ss[0]) + BodyTokens(ss[1..])
  }

  // ---------------------------------------------------------------------------------------------------------
  // The pieces that are emitted for them

  /** A name in type or call position, in Metal's spelling. */
  function MetalName(n: string): string {
    if ConvertType(n).Ok? && ConvertType(n).value != n then ConvertType(n).value
    else if ConvertIntrinsic(n).Ok? && ConvertIntrinsic(n).value != "" then ConvertIntrinsic(n).value
    else n
  }

  function Spelled(n: string): Piece {
    if MetalName(n) == n then Copied(n) else Text(MetalName(n))
  }

  /** The type of a variable: structs that are both input and output have two forms. */
  function MetalType(sh: Shader, t: string): string {
    if t in sh.inOutStructs then t + "_Out" else MetalName(t)
  }

  function SpelledType(sh: Shader, t: string): Piece {
    if t in sh.inOutStructs then Text(t + "_Out") else Spelled(t)
  }

  const GAP := [Text(" ")]

  function OpPieces(op: string): seq<Piece> {
    if |op| == 2 then [Text(op[..1]), Text(op[1..])] else [Text(op)]
  }

  function SpacedPieces(op: string): seq<Piece> {
    GAP + (OpPieces(op) + GAP)
  }

  function Emit(data: Analysis, e: Expr): seq<Piece> {
    match e
    case Literal(n) => [Text(n)]
    case Local(x) => [Copied(x)]
    case Handle(s) => [Copied(s)]
    case Uniform(u) => [UniformRef(u)]
    case Paren(x) => [Text("(")] + Emit(data, x) + [Text(")")]
    case Negate(x) => [Text("-")] + Emit(data, x)
    case Infix(op, l, r) => Emit(data, l) + (SpacedPieces(op) + Emit(data, r))
    case Conditional(c, a, b) =>
      Emit(data, c) + (SpacedPieces("?") + (Emit(data, a) + (SpacedPieces(":") + Emit(data, b))))
    case Member(b, f) => Emit(data, b) + [Text("."), Copied(f)]
    case Index(b, i) => Emit(data, b) + ([Text("[")] + (Emit(data, i) + [Text("]")]))
    case Call(f, args) => EmitCall(data, f, EmitEach(data, args))
    case Access(t, f, args) => [TextureRef(t), Text(".")] + EmitAccess(f, EmitEach(data, args))
  }

  function EmitEach(data: Analysis, args: seq<Expr>): (parts: seq<seq<Piece>>)
    ensures |parts| == |args|
  {
    if args == [] then [] else [Emit(data, args[0])] + EmitEach(data, args[1..])
  }

  /** Arguments as they are copied, with the blanks behind the commas. */
  function Joined(parts: seq<seq<Piece>>): seq<Piece> {
    if parts == [] then []
    else if |parts| == 1 then parts[0]
    else parts[0] + (SEPARATOR + Joined(parts[1..]))
  }

  function EmitCall(data: Analysis, f: string, parts: seq<seq<Piece>>): seq<Piece> {
    if f == "mul" && |parts| == 2 then
      [Text("(")] + parts[0] + [Text(") * (")] + parts[1] + [Text(")")]
    else if f == "mad" && |parts| == 3 then
      [Text("((")] + parts[0] + [Text(") * (")] + (GAP + parts[1]) + [Text(")) + (")] + (GAP + parts[2]) + [Text(")")]
    else if f == "int3" && 2 <= |parts| <= 3 then
      [Copied("int3")] + ([Text("(")] + EmitInts(parts) + [Text(")")])
    else
      var extra := DataOf(data, f).AdditionalArguments();
      [Spelled(f)]
      + ([Text("(")] + (if extra == [] then Joined(parts) else Joined(parts) + SEPARATOR + ExtraArgs(extra))
         + [Text(")")])
  }

  /** The arguments of an `int3` with explicit conversions. */
  function EmitInts(parts: seq<seq<Piece>>): seq<Piece>
    requires 2 <= |parts| <= 3
  {
    if |parts| == 3 then
      Converted("int(", parts[0]) + SEPARATOR + Converted("int(", GAP + parts[1]) + SEPARATOR
      + Converted("int(", GAP + parts[2])
    else Converted("int2(", parts[0]) + SEPARATOR + Converted("int(", GAP + parts[1])
  }

  function EmitAccess(f: string, parts: seq<seq<Piece>>): seq<Piece> {
    if f == "Sample" && |parts| == 2 then
      [Text("sample(")] + parts[0] + SEPARATOR + (GAP + parts[1]) + [Text(")")]
    else if f == "SampleGrad" && |parts| == 4 then
      [Text("sample(")] + parts[0] + SEPARATOR + (GAP + parts[1]) + SEPARATOR + [Text("gradient2d(")]
      + (GAP + parts[2]) + SEPARATOR + (GAP + parts[3]) + [Text("))")]
    else if (f == "SampleBias" || f == "SampleLevel") && |parts| == 3 then
      [Text("sample(")] + parts[0] + SEPARATOR + (GAP + parts[1]) + SEPARATOR
      + [Text(if f == "SampleBias" then "bias(" else "level(")] + (GAP + parts[2]) + [Text("))")]
    else if f == "Load" && |parts| == 1 && ReadCall(parts[0]).Ok? then ReadCall(parts[0]).value
    else []
  }

  function EmitFields(fields: seq<string>): seq<Piece> {
    if fields == [] then [] else [Text("."), Copied(fields[0])] + EmitFields(fields[1..])
  }

  function EmitValue(data: Analysis, op: string, e: Expr): seq<Piece> {
    SpacedPieces(op) + (Emit(data, e) + [Text(";")])
  }

  function EmitCondition(data: Analysis, e: Expr): seq<Piece> {
    [Text("(")] + Emit(data, e) + [Text(")")]
  }

  function EmitStmt(sh: Shader, data: Analysis, s: Stmt): seq<Piece>
    decreases s
  {
    match s
    case Gap(b) => [Text(b)]
    case Let(t, x) => [SpelledType(sh, t)] + (GAP + [Copied(x), Text(";")])
    case Declare(t, x, e) => [SpelledType(sh, t)] + (GAP + ([Copied(x)] + EmitValue(data, "=", e)))
    case Assign(x, fields, op, e) => [Copied(x)] + (EmitFields(fields) + EmitValue(data, op, e))
    case If(c, a, b) =>
      [Copied("if"), Text(" ")] + (EmitCondition(data, c) + (GAP + (EmitBlock(sh, data, a)
      + ([Text(" "), Copied("else"), Text(" ")] + EmitBlock(sh, data, b)))))
    case When(c, a) => [Copied("if"), Text(" ")] + (EmitCondition(data, c) + (GAP + EmitBlock(sh, data, a)))
    case While(c, b) => [Copied("while"), Text(" ")] + (EmitCondition(data, c) + (GAP + EmitBlock(sh, data, b)))
    case Return(e) => [Copied("return"), Text(" ")] + (Emit(data, e) + [Text(";")])
  }

  function EmitBlock(sh: Shader, data: Analysis, ss: seq<Stmt>): seq<Piece>
    decreases ss, 1
  {
    [Text("{")] + EmitBody(sh, data, ss) + [Text("}")]
  }

  function EmitBody(sh: Shader, data: Analysis, ss: seq<Stmt>): seq<Piece>
    decreases ss, 0
  {
    if ss == [] then [] else EmitStmt(sh, data, ss[0]) + EmitBody(sh, data, ss[1..])
  }

  // ---------------------------------------------------------------------------------------------------------
  // Programs as they are written

  /** The translation takes the name over as it is, unless it names a uniform. */
  ghost predicate PlainName(sh: Shader, n: string) {
    && ConvertType(n) == Ok(n)
    && ConvertIntrinsic(n) == Ok("")
    && n != "obs_glsl_compile" && n != "mul" && n != "mad"
    && n !in TextureNames(sh)
    && n !in sh.inOutStructs
    && !Delimiter(n)
  }

  /** A name in type or call position: possibly one that Metal spells differently. */
  ghost predicate OuterName(sh: Shader, data: Analysis, n: string) {
    && ConvertType(n).Ok? && ConvertIntrinsic(n).Ok?
    && n != "obs_glsl_compile" && n != "mul" && n != "mad" && n != "int3"
    && n !in TextureNames(sh) && n !in UniformNames(sh) && n !in sh.inOutStructs
    && DataOf(data, n) == NO_NEEDS
    && !Delimiter(n)
  }

  ghost predicate StructName(sh: Shader, n: string) {
    && ConvertType(n) == Ok(n)
    && ConvertIntrinsic(n) == Ok("")
    && n != "obs_glsl_compile" && n != "mul" && n != "mad"
    && n !in TextureNames(sh) && n !in UniformNames(sh) && n in sh.inOutStructs
    && !Delimiter(n)
  }

  ghost predicate TypeName(sh: Shader, data: Analysis, n: string) {
    OuterName(sh, data, n) || StructName(sh, n)
  }

  ghost predicate Delimiter(s: string) {
    s == "(" || s == ")" || s == "{" || s == "}" || s == "," || s == "." || s == ";" || s == " " || s == ""
  }

  ghost predicate IsFunction(sh: Shader, n: string) {
    exists i :: 0 <= i < |sh.funcs| && sh.funcs[i].name == n
  }

  /** What Metal calls something that the effect language calls differently, or writes without a name. */
  const METAL_NAMES: set<string> := {
    "texture2d<float>", "texture3d<float>", "texturecube<float>", "float2", "float3", "float4", "float", "half2",
    "half3", "half4", "half", "short2", "short3", "short4", "short", "ushort2", "ushort3", "ushort4", "ushort", "dfdx",
    "dfdy", "fract", "mix", "int", "int2", "uint", "uint2", "bias", "level", "gradient2d", "all"}

  /** No function goes by a name that has a meaning of its own. */
  ghost predicate NamesAreFree(sh: Shader) {
    forall n :: IsFunction(sh, n) ==> n !in METAL_NAMES && n != "mul" && n != "mad" && n != "int3"
  }

  lemma MetalNameIsKnown(n: string)
    ensures MetalName(n) == n || MetalName(n) in METAL_NAMES
  {
  }

  /** A name for a parameter or a variable: not one of the globals, and none that would hide what Metal calls so. */
  ghost predicate LocalName(sh: Shader, x: string) {
    && PlainName(sh, x) && x !in UniformNames(sh) && x !in sh.samplers
    && x != "uniforms" && x != "int3" && x !in METAL_NAMES
  }

  ghost predicate TextureName(sh: Shader, t: string) {
    && t in TextureNames(sh) && ConvertType(t) == Ok(t) && ConvertIntrinsic(t) == Ok("")
    && t != "obs_glsl_compile" && t != "mul" && t != "mad" && !Delimiter(t)
  }

  ghost predicate SamplerName(sh: Shader, s: string) {
    PlainName(sh, s) && s in Declared(sh, Samplers) && s !in UniformNames(sh)
  }

  /** No comma is emitted for the expression. */
  predicate Commaless(data: Analysis, e: Expr) {
    match e
    case Paren(x) => Commaless(data, x)
    case Negate(x) => Commaless(data, x)
    case Infix(_, l, r) => Commaless(data, l) && Commaless(data, r)
    case Conditional(c, a, b) => Commaless(data, c) && Commaless(data, a) && Commaless(data, b)
    case Member(b, _) => Commaless(data, b)
    case Index(b, i) => Commaless(data, b) && Commaless(data, i)
    case Call(f, args) =>
      && (f == "mul" || f == "mad" || (f != "int3" && |args| <= 1 && DataOf(data, f).AdditionalArguments() == []))
      && AllCommaless(data, args)
    case Access(_, _, _) => false
    case _ => true
  }

  predicate AllCommaless(data: Analysis, args: seq<Expr>) {
    forall a :: a in args ==> Commaless(data, a)
  }

  /** The first thing in the expression is an `int3`. */
  predicate LeadsInt3(e: Expr) {
    match e
    case Infix(_, l, _) => LeadsInt3(l)
    case Conditional(c, _, _) => LeadsInt3(c)
    case Member(b, _) => LeadsInt3(b)
    case Index(b, _) => LeadsInt3(b)
    case Call(f, _) => f == "int3"
    case _ => false
  }

  /** Calls of helpers, which take an argument, products of two or three factors, `int3` constructors with a comma
      between their components only, and calls of anything else. */
  ghost predicate ProperCall(sh: Shader, data: Analysis, f: string, args: seq<Expr>) {
    if f == "mul" then |args| == 2
    else if f == "mad" then |args| == 3
    else if f == "int3" then
      && 2 <= |args| <= 3 && AllCommaless(data, args)
      && PlainName(sh, f) && f !in UniformNames(sh) && DataOf(data, f) == NO_NEEDS
    else if IsFunction(sh, f) then
      args != [] && f != "main" && PlainName(sh, f) && f !in UniformNames(sh)
    else OuterName(sh, data, f)
  }

  /** The accesses to textures. What is loaded from is given by an `int3` constructor or by any other expression that
      does not begin with one. */
  ghost predicate ProperAccess(sh: Shader, t: string, f: string, args: seq<Expr>) {
    && TextureName(sh, t)
    && if f == "Load" then |args| == 1 && ((args[0].Call? && args[0].f == "int3") || !LeadsInt3(args[0]))
       else
         && |args| == (if f == "Sample" then 2 else if f == "SampleGrad" then 4 else 3)
         && f in {"Sample", "SampleBias", "SampleGrad", "SampleLevel"}
         && args[0].Handle? && SamplerName(sh, args[0].sampler)
  }

  /** Expressions that keep to the names in scope. Locals do not shadow globals. */
  ghost predicate ProperExpr(sh: Shader, data: Analysis, e: Expr) {
    match e
    case Literal(n) => Numeral(n)
    case Local(x) => LocalName(sh, x)
    case Handle(_) => false
    case Uniform(u) => PlainName(sh, u) && u in UniformNames(sh)
    case Paren(x) => ProperExpr(sh, data, x)
    case Negate(x) => ProperExpr(sh, data, x)
    case Infix(op, l, r) => M.OpLevel(op) > 0 && ProperExpr(sh, data, l) && ProperExpr(sh, data, r)
    case Conditional(c, a, b) => ProperExpr(sh, data, c) && ProperExpr(sh, data, a) && ProperExpr(sh, data, b)
    case Member(b, f) => PlainName(sh, f) && ProperExpr(sh, data, b)
    case Index(b, i) => ProperExpr(sh, data, b) && ProperExpr(sh, data, i)
    case Call(f, args) => ProperCall(sh, data, f, args) && ProperArgs(sh, data, args)
    case Access(t, f, args) =>
      ProperAccess(sh, t, f, args) && ProperArgs(sh, data, if f == "Load" then args else args[1..])
  }

  ghost predicate ProperArgs(sh: Shader, data: Analysis, args: seq<Expr>) {
    forall a :: a in args ==> ProperExpr(sh, data, a)
  }

  predicate Numeral(n: string) {
    && M.Number(n)
    && forall c :: c in n ==> '0' <= c <= '9' || 'a' <= c <= 'z' || 'A' <= c <= 'Z' || c == '.'
  }

  predicate Whitespace(s: string) {
    s != "" && forall c :: c in s ==> c == ' ' || c == '\t' || c == '\n' || c == '\r'
  }

  /** The keywords of the language are not used for anything else. */
  ghost predicate Keywords(sh: Shader) {
    forall k :: k in ["if", "else", "while", "return"] ==> PlainName(sh, k) && k !in UniformNames(sh)
  }

  ghost predicate ProperStmt(sh: Shader, data: Analysis, s: Stmt) {
    Keywords(sh) &&
    match s
    case Gap(b) => Whitespace(b)
    case Let(t, x) => TypeName(sh, data, t) && LocalName(sh, x)
    case Declare(t, x, e) => TypeName(sh, data, t) && LocalName(sh, x) && ProperExpr(sh, data, e)
    case Assign(x, fields, op, e) =>
      && LocalName(sh, x) && (forall f :: f in fields ==> PlainName(sh, f)) && op in M.ASSIGNMENTS
      && ProperExpr(sh, data, e)
    case If(c, a, b) => ProperExpr(sh, data, c) && ProperBody(sh, data, a) && ProperBody(sh, data, b)
    case When(c, a) => ProperExpr(sh, data, c) && ProperBody(sh, data, a)
    case While(c, b) => ProperExpr(sh, data, c) && ProperBody(sh, data, b)
    case Return(e) => ProperExpr(sh, data, e)
  }

  ghost predicate ProperBody(sh: Shader, data: Analysis, ss: seq<Stmt>) {
    ss == [] || (ProperStmt(sh, data, ss[0]) && ProperBody(sh, data, ss[1..]))
  }
}
