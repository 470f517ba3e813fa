/** The vertex shader that most effects share, as a program that meets everything the theorems about lifting ask for,
    and what it is lifted to. */
module MetalExample {
  import opened ShaderTokens
  import opened MetalTranspiler
  import opened MetalAnalysis
  import opened MetalSignatures
  import opened MetalScoping
  import opened MetalSyntax
  import opened MetalRendering
  import opened MetalLifting
  import opened MetalMachines
  import opened MetalMeaning
  import M = MetalText

  /** `float4(vert_in.pos.xyz, 1.0)` */
  function Position(): Expr {
    Call("float4", [Member(Member(Local("vert_in"), "pos"), "xyz"), Literal("1.0")])
  }

  /** `mul(float4(vert_in.pos.xyz, 1.0), ViewProj)` */
  function Projected(): Expr { Call("mul", [Position(), Uniform("ViewProj")]) }

  /** The function that projects the position of a vertex and hands its texture coordinate on. */
  function Helper(): seq<Stmt> {
    [Let("VertInOut", "vert_out"),
     Gap("\n"),
     Assign("vert_out", ["pos"], "=", Projected()),
     Gap("\n"),
     Assign("vert_out", ["uv"], "=", Member(Local("vert_in"), "uv")),
     Gap("\n"),
     Return(Local("vert_out"))]
  }

  function Main(): seq<Stmt> { [Return(Call("VSDefault", [Local("vert_in")]))] }

  function Example(): Program {
    Program(
      Shader(false, [UniformVar("ViewProj", "float4x4")], [], {"VertInOut"},
             [Func("VSDefault", ["vert_in"], BodyTokens(Helper()) + [END]),
              Func("main", ["vert_in"], BodyTokens(Main()) + [END])]),
      [Helper(), Main()])
  }

  lemma Shape()
    ensures var p := Example();
      && |p.bodies| == |p.shader.funcs| == 2 && p.bodies[0] == Helper() && p.bodies[1] == Main()
      && p.shader.funcs[0] == Func("VSDefault", ["vert_in"], BodyTokens(Helper()) + [END])
      && p.shader.funcs[1] == Func("main", ["vert_in"], BodyTokens(Main()) + [END])
  {
    hide Helper, Main, BodyTokens;
  }

  lemma NamesOfGlobals()
    ensures var sh := Example().shader;
      && UniformNames(sh) == ["ViewProj"] && TextureNames(sh) == [] && Declared(sh, Samplers) == []
      && Declared(sh, Uniforms) == ["uniforms"] && Declared(sh, Textures) == []
  {
    var sh := Example().shader;
    assert NamesOf(sh, sh.uniformVars[1..], true) == NamesOf(sh, sh.uniformVars[1..], false) == [];
  }

  // ---------------------------------------------------------------------------------------------------------
  // The names

  /** No name that is respelled, that Metal gives to something or that is treated specially begins with one of these
      letters. */
  lemma Unchanged(n: string)
    requires n != "" && n[0] in {'V', 'p', 'v', 'x', 'e', 'r', 'w'}
    ensures ConvertType(n) == Ok(n) && ConvertIntrinsic(n) == Ok("") && !Delimiter(n)
    ensures n != "obs_glsl_compile" && n != "mul" && n != "mad" && n != "int3"
  {
  }

  lemma Unclaimed(n: string)
    requires n != "" && n[0] in {'V', 'p', 'v', 'x', 'e', 'r', 'w'}
    ensures n !in METAL_NAMES
  {
  }

  lemma SpecialNames()
    ensures ConvertType("uv") == Ok("uv") && ConvertIntrinsic("uv") == Ok("") && !Delimiter("uv")
    ensures ConvertType("if") == Ok("if") && ConvertIntrinsic("if") == Ok("") && !Delimiter("if")
    ensures ConvertType("float4") == Ok("float4") && ConvertIntrinsic("float4") == Ok("") && !Delimiter("float4")
    ensures "main" !in METAL_NAMES && "main" != "mul" && "main" != "mad" && "main" != "int3"
  {
  }

  lemma Plain(n: string)
    requires n in ["vert_in", "vert_out", "pos", "xyz", "uv", "ViewProj", "VSDefault", "if", "else", "while", "return"]
    ensures PlainName(Example().shader, n) && (n in UniformNames(Example().shader) <==> n == "ViewProj")
  {
    NamesOfGlobals();
    StructsAre();
    hide *;
    SpecialNames();
    if n != "uv" && n != "if" {
      Unchanged(n);
    }
    PlainHere(Example().shader, n);
  }

  lemma PlainHere(sh: Shader, n: string)
    requires UniformNames(sh) == ["ViewProj"] && TextureNames(sh) == [] && sh.inOutStructs == {"VertInOut"}
    requires ConvertType(n) == Ok(n) && ConvertIntrinsic(n) == Ok("") && !Delimiter(n)
    requires n in ["vert_in", "vert_out", "pos", "xyz", "uv", "ViewProj", "VSDefault", "if", "else", "while", "return"]
    ensures PlainName(sh, n) && (n in UniformNames(sh) <==> n == "ViewProj")
  {
    hide ConvertType, ConvertIntrinsic, UniformNames, TextureNames, Delimiter;
    assert n != "VertInOut" && n != "obs_glsl_compile" && n != "mul" && n != "mad";
  }

  lemma Variable(n: string)
    requires n == "vert_in" || n == "vert_out"
    ensures LocalName(Example().shader, n)
  {
    NamesOfGlobals();
    Plain(n);
    Unclaimed(n);
    hide PlainName, UniformNames, METAL_NAMES;
    assert n != "uniforms" && n != "int3" && n != "ViewProj";
  }

  lemma KeywordsAreFree()
    ensures Keywords(Example().shader)
  {
    var sh := Example().shader;
    hide PlainName, UniformNames;
    forall k | k in ["if", "else", "while", "return"] ensures PlainName(sh, k) && k !in UniformNames(sh) {
      Plain(k);
    }
  }

  lemma FunctionsAre(n: string)
    ensures IsFunction(Example().shader, n) <==> n == "VSDefault" || n == "main"
  {
    var sh := Example().shader;
    assert sh.funcs[0].name == "VSDefault" && sh.funcs[1].name == "main" && |sh.funcs| == 2;
  }

  lemma FunctionNamesAreFree()
    ensures NamesAreFree(Example().shader)
  {
    SpecialNames();
    Unclaimed("VSDefault");
    Unchanged("VSDefault");
    hide Example, METAL_NAMES;
    forall n | IsFunction(Example().shader, n)
      ensures n !in METAL_NAMES && n != "mul" && n != "mad" && n != "int3"
    {
      FunctionsAre(n);
    }
  }

  // ---------------------------------------------------------------------------------------------------------
  // The bodies

  lemma PositionIsProper(data: Analysis)
    requires DataOf(data, "float4") == NO_NEEDS
    ensures ProperExpr(Example().shader, data, Position())
  {
    hide *;
    NamesOfGlobals();
    StructsAre();
    Variable("vert_in");
    Plain("pos");
    Plain("xyz");
    SpecialNames();
    FunctionsAre("float4");
    ConstructorIsProper(Example().shader, data);
  }

  lemma ConstructorIsProper(sh: Shader, data: Analysis)
    requires UniformNames(sh) == ["ViewProj"] && TextureNames(sh) == [] && sh.inOutStructs == {"VertInOut"}
    requires ConvertType("float4") == Ok("float4") && ConvertIntrinsic("float4") == Ok("") && !Delimiter("float4")
    requires DataOf(data, "float4") == NO_NEEDS && !IsFunction(sh, "float4")
    requires LocalName(sh, "vert_in") && PlainName(sh, "pos") && PlainName(sh, "xyz")
    ensures ProperExpr(sh, data, Position())
  {
    hide PlainName, LocalName, UniformNames, TextureNames, Delimiter, ConvertType, ConvertIntrinsic, IsFunction, DataOf;
    var v, one := Local("vert_in"), Literal("1.0");
    var pos := Member(Member(v, "pos"), "xyz");
    assert ProperExpr(sh, data, v) && ProperExpr(sh, data, Member(v, "pos")) && ProperExpr(sh, data, pos);
    assert ProperExpr(sh, data, one);
    assert OuterName(sh, data, "float4");
    hide ProperExpr, OuterName;
    ConstructorCall(sh, data, pos, one);
  }

  lemma ConstructorCall(sh: Shader, data: Analysis, a: Expr, b: Expr)
    requires ProperExpr(sh, data, a) && ProperExpr(sh, data, b) && !IsFunction(sh, "float4")
    requires OuterName(sh, data, "float4")
    ensures ProperExpr(sh, data, Call("float4", [a, b]))
  {
    hide OuterName, IsFunction;
    assert ProperArgs(sh, data, [a, b]) by { hide ProperExpr; }
  }

  lemma StructsAre()
    ensures Example().shader.inOutStructs == {"VertInOut"}
  {
  }

  lemma ProductIsProper(sh: Shader, data: Analysis, a: Expr, u: string)
    requires ProperExpr(sh, data, a) && PlainName(sh, u) && u in UniformNames(sh)
    ensures ProperExpr(sh, data, Call("mul", [a, Uniform(u)]))
  {
    hide PlainName, UniformNames;
    assert ProperExpr(sh, data, Uniform(u));
  }

  lemma StructIsProper(data: Analysis)
    ensures TypeName(Example().shader, data, "VertInOut")
  {
    NamesOfGlobals();
    Unchanged("VertInOut");
    hide ConvertType, ConvertIntrinsic, UniformNames, TextureNames, Delimiter;
    assert "VertInOut" != "ViewProj";
  }

  lemma HelperIsProper(data: Analysis)
    requires DataOf(data, "float4") == NO_NEEDS
    ensures ProperBody(Example().shader, data, Helper())
  {
    hide *;
    KeywordsAreFree();
    PositionIsProper(data);
    Plain("ViewProj");
    Plain("pos");
    Plain("uv");
    Variable("vert_in");
    Variable("vert_out");
    StructIsProper(data);
    HelperHere(Example().shader, data);
  }

  lemma HelperHere(sh: Shader, data: Analysis)
    requires Keywords(sh) && ProperExpr(sh, data, Position()) && TypeName(sh, data, "VertInOut")
    requires PlainName(sh, "ViewProj") && "ViewProj" in UniformNames(sh) && PlainName(sh, "pos") && PlainName(sh, "uv")
    requires LocalName(sh, "vert_in") && LocalName(sh, "vert_out")
    ensures ProperBody(sh, data, Helper())
  {
    hide PlainName, LocalName, UniformNames, Keywords, TypeName, ProperExpr, Position;
    ProductIsProper(sh, data, Position(), "ViewProj");
    LocalsAreProper(sh, data);
    var ss := Helper();
    assert '\n' in "\n" && Whitespace("\n");
    assert ProperStmt(sh, data, ss[2]) && ProperStmt(sh, data, ss[4]);
    assert ProperStmt(sh, data, ss[0]) && ProperStmt(sh, data, ss[1]) && ProperStmt(sh, data, ss[6]);
    hide ProperStmt;
    EachProper(sh, data, ss);
  }

  lemma LocalsAreProper(sh: Shader, data: Analysis)
    requires LocalName(sh, "vert_in") && LocalName(sh, "vert_out") && PlainName(sh, "uv")
    ensures ProperExpr(sh, data, Local("vert_out")) && ProperExpr(sh, data, Member(Local("vert_in"), "uv"))
  {
    hide LocalName, PlainName;
    assert ProperExpr(sh, data, Local("vert_in"));
  }

  lemma {:induction false} EachProper(sh: Shader, data: Analysis, ss: seq<Stmt>)
    requires forall k :: 0 <= k < |ss| ==> ProperStmt(sh, data, ss[k])
    ensures ProperBody(sh, data, ss)
  {
    hide ProperStmt;
    if ss != [] {
      EachProper(sh, data, ss[1..]);
    }
  }

  lemma MainIsProper(data: Analysis)
    ensures ProperBody(Example().shader, data, Main())
  {
    hide *;
    KeywordsAreFree();
    Plain("VSDefault");
    Variable("vert_in");
    FunctionsAre("VSDefault");
    MainHere(Example().shader, data);
  }

  lemma MainHere(sh: Shader, data: Analysis)
    requires Keywords(sh) && PlainName(sh, "VSDefault") && "VSDefault" !in UniformNames(sh)
    requires LocalName(sh, "vert_in") && IsFunction(sh, "VSDefault")
    ensures ProperBody(sh, data, Main())
  {
    hide PlainName, LocalName, UniformNames, Keywords, IsFunction, DataOf;
    assert ProperExpr(sh, data, Local("vert_in"));
    assert ProperArgs(sh, data, [Local("vert_in")]);
    assert ProperExpr(sh, data, Call("VSDefault", [Local("vert_in")]));
    hide ProperExpr;
    EachProper(sh, data, Main());
  }

  // ---------------------------------------------------------------------------------------------------------
  // The tokens

  /** No name among them is one of a function. */
  ghost predicate Clean(ts: seq<Token>) {
    forall k :: 0 <= k < |ts| && ts[k].Name? ==>
      ts[k].text != "VSDefault" && ts[k].text != "main" && ts[k].text != "}" && ts[k].text != ")"
  }

  lemma CleanConcat(a: seq<Token>, b: seq<Token>)
    requires Clean(a) && Clean(b)
    ensures Clean(a + b)
  {
  }

  lemma PositionTokens()
    ensures Tokens(Position())
         == [Name("float4"), OPEN, Name("vert_in"), DOT, Name("pos"), DOT, Name("xyz"), COMMA, SPACE, Number("1.0"),
              CLOSE]
  {
    var v, one := Member(Member(Local("vert_in"), "pos"), "xyz"), Literal("1.0");
    assert Tokens(v) == [Name("vert_in"), DOT, Name("pos"), DOT, Name("xyz")];
    assert ArgTokens([v, one][1..]) == Tokens(one) == [Number("1.0")];
    assert ArgTokens([v, one])
        == [Name("vert_in"), DOT, Name("pos"), DOT, Name("xyz"), COMMA, SPACE, Number("1.0")];
  }

  lemma ProjectedTokens()
    ensures Tokens(Projected())
         == [Name("mul"), OPEN] + (Tokens(Position()) + [COMMA, SPACE, Name("ViewProj"), CLOSE])
  {
    hide Position;
    var a, u := Position(), Uniform("ViewProj");
    assert ArgTokens([a, u][1..]) == Tokens(u) == [Name("ViewProj")];
    assert ArgTokens([a, u]) == Tokens(a) + [COMMA, SPACE, Name("ViewProj")];
  }

  const EQUALS := [SPACE, Other("="), SPACE]

  /** The tokens of the helper, statement by statement. */
  lemma HelperTokens()
    ensures StmtTokens(Helper()[0]) == [Name("VertInOut"), SPACE, Name("vert_out"), SEMICOLON]
    ensures StmtTokens(Helper()[2])
         == [Name("vert_out"), DOT, Name("pos")] + (EQUALS + (Tokens(Projected()) + [SEMICOLON]))
    ensures StmtTokens(Helper()[4])
         == [Name("vert_out"), DOT, Name("uv")] + (EQUALS + [Name("vert_in"), DOT, Name("uv"), SEMICOLON])
    ensures StmtTokens(Helper()[6]) == [Name("return"), SPACE, Name("vert_out"), SEMICOLON]
  {
    hide Projected;
    FieldOne("pos");
    FieldOne("uv");
    assert Spaced("=") == EQUALS;
    assert Tokens(Member(Local("vert_in"), "uv")) == [Name("vert_in"), DOT, Name("uv")];
  }

  lemma FieldOne(f: string)
    ensures FieldTokens([f]) == [DOT, Name(f)]
  {
    assert FieldTokens([f][1..]) == [];
  }

  lemma HelperIsClean()
    ensures Clean(BodyTokens(Helper()))
  {
    PositionTokens();
    ProjectedTokens();
    HelperTokens();
    hide Tokens, Position, Projected, StmtTokens;
    assert Clean(Tokens(Position()));
    assert Clean([COMMA, SPACE, Name("ViewProj"), CLOSE]);
    CleanConcat(Tokens(Position()), [COMMA, SPACE, Name("ViewProj"), CLOSE]);
    assert Clean([Name("mul"), OPEN]);
    assert Clean(Tokens(Projected()));
    hide Clean;
    StatementsAreClean();
  }

  lemma StatementsAreClean()
    requires Clean(Tokens(Projected()))
    ensures Clean(BodyTokens(Helper()))
  {
    HelperTokens();
    hide Tokens, Projected;
    CleanConcat(Tokens(Projected()), [SEMICOLON]);
    CleanConcat(EQUALS, Tokens(Projected()) + [SEMICOLON]);
    CleanConcat([Name("vert_out"), DOT, Name("pos")], EQUALS + (Tokens(Projected()) + [SEMICOLON]));
    var ss := Helper();
    assert Clean(StmtTokens(ss[2]));
    assert Clean(StmtTokens(ss[0])) && Clean(StmtTokens(ss[4])) && Clean(StmtTokens(ss[6]));
    assert Clean(StmtTokens(ss[1])) && StmtTokens(ss[1]) == StmtTokens(ss[3]) == StmtTokens(ss[5]);
    hide StmtTokens, Clean, Helper;
    EachClean(ss);
  }

  lemma {:induction false} EachClean(ss: seq<Stmt>)
    requires forall k :: 0 <= k < |ss| ==> Clean(StmtTokens(ss[k]))
    ensures Clean(BodyTokens(ss))
  {
    hide StmtTokens;
    if ss != [] {
      EachClean(ss[1..]);
      CleanConcat(StmtTokens(ss[0]), BodyTokens(ss[1..]));
    }
  }

  lemma MainTokens()
    ensures BodyTokens(Main()) == [Name("return"), SPACE, Name("VSDefault"), OPEN, Name("vert_in"), CLOSE, SEMICOLON]
  {
    assert ArgTokens([Local("vert_in")]) == [Name("vert_in")];
    assert Tokens(Main()[0].value) == [Name("VSDefault"), OPEN, Name("vert_in"), CLOSE];
    assert BodyTokens(Main()[1..]) == [];
  }

  lemma BodyIs(i: nat)
    requires i < 2
    ensures i < |Example().shader.funcs| == |Example().bodies|
    ensures Body(Example().shader.funcs[i]) == BodyTokens(Example().bodies[i]) + [END]
  {
    hide *;
    Shape();
    var sh := Example().shader;
    var b := if i == 0 then Helper() else Main();
    NothingKnown();
    if i == 0 { HelperIsProper(map[]); } else { MainIsProper(map[]); }
    SkipBody(sh, map[], b, []);
    ScannedAll(sh.funcs[i], BodyTokens(b));
  }

  lemma NothingKnown()
    ensures DataOf(map[], "float4") == NO_NEEDS
  {
  }

  lemma ScannedAll(f: Func, ts: seq<Token>)
    requires f.body == ts + [END] && SkipTo(ts + ([END] + []), "}") == []
    ensures Body(f) == ts + [END]
  {
    hide SkipTo;
    assert ts + ([END] + []) == ts + [END];
  }

  lemma MentionedNames(i: nat, n: string)
    requires i < 2 == |Example().shader.funcs| && Mentions(Example().shader, i, n) && (n == "VSDefault" || n == "main")
    ensures i == 1 && n == "VSDefault"
  {
    hide *;
    BodyIs(i);
    Shape();
    if i == 0 {
      HelperIsClean();
      NotNamed(BodyTokens(Helper()), n);
    } else {
      MainTokens();
      OnlyHelperNamed(n);
    }
    InBody(Example().shader, i, n);
  }

  lemma InBody(sh: Shader, i: nat, n: string)
    requires i < |sh.funcs| && Mentions(sh, i, n)
    ensures Name(n) in Body(sh.funcs[i])
  {
    hide Body;
  }

  lemma NotNamed(ts: seq<Token>, n: string)
    requires Clean(ts) && (n == "VSDefault" || n == "main")
    ensures Name(n) !in ts + [END]
  {
  }

  lemma OnlyHelperNamed(n: string)
    requires n == "VSDefault" || n == "main"
    ensures Name(n) in [Name("return"), SPACE, Name("VSDefault"), OPEN, Name("vert_in"), CLOSE, SEMICOLON] + [END]
       <==> n == "VSDefault"
  {
    assert "main" != "return" && "main" != "vert_in" && "main" != "VSDefault";
    var ts := [Name("return"), SPACE, Name("VSDefault"), OPEN, Name("vert_in"), CLOSE, SEMICOLON] + [END];
    assert ts[2] == Name("VSDefault");
  }

  lemma BodyIsLexed(i: nat)
    requires i < 2
    ensures |Example().shader.funcs| == 2 && Lexed(Example().shader.funcs[i].body)
  {
    hide *;
    Shape();
    if i == 0 {
      HelperIsClean();
      CleanIsLexed(BodyTokens(Helper()));
    } else {
      MainTokens();
      MainIsLexed();
    }
  }

  lemma CleanIsLexed(ts: seq<Token>)
    requires Clean(ts)
    ensures Lexed(ts + [END])
  {
  }

  lemma MainIsLexed()
    ensures Lexed([Name("return"), SPACE, Name("VSDefault"), OPEN, Name("vert_in"), CLOSE, SEMICOLON] + [END])
  {
  }

  lemma ExampleIsWellFormed()
    ensures WellFormed(Example().shader)
  {
    hide *;
    Shape();
    NamesOfGlobals();
    BodyIsLexed(0);
    BodyIsLexed(1);
    assert "VSDefault"[0] != "main"[0];
    WellFormedHere(Example().shader);
  }

  lemma WellFormedHere(sh: Shader)
    requires sh == Example().shader && |sh.funcs| == 2
    requires sh.funcs[0].name == "VSDefault" && sh.funcs[1].name == "main"
    requires Declared(sh, Uniforms) == ["uniforms"] && Declared(sh, Textures) == [] && Declared(sh, Samplers) == []
    requires Lexed(sh.funcs[0].body) && Lexed(sh.funcs[1].body)
    ensures WellFormed(sh)
  {
    hide Example, Declared, Lexed, Mentions;
    assert "VSDefault"[0] != "main"[0];
    forall i, j | 0 <= i < 2 && 0 <= j < 2 && Mentions(sh, i, sh.funcs[j].name) ensures j < i {
      MentionedNames(i, sh.funcs[j].name);
    }
    forall kind ensures Distinct(Declared(sh, kind)) {
      match kind case Uniforms => case Textures => case Samplers =>
    }
  }

  // ---------------------------------------------------------------------------------------------------------
  // Everything the theorems ask for

  lemma NoFunction(n: string)
    requires n != "VSDefault" && n != "main"
    ensures DataOf(FinalAnalysis(Example().shader), n) == NO_NEEDS
  {
    hide Example, DataOf, Analyze, BodyTokens;
    Shape();
    var sh := Example().shader;
    assert |sh.funcs| == 2 && forall k :: 0 <= k < 2 ==> sh.funcs[k].name != n;
    EntryEmpty(sh, 2, n);
  }

  lemma DelimitersAreSafe()
    ensures SafeDelimiters(FinalAnalysis(Example().shader))
  {
    hide *;
    NoFunction("(");
    NoFunction(" ");
    NoFunction(",");
    NoFunction("-");
    NoFunction("[");
    SafeHere(FinalAnalysis(Example().shader));
  }

  lemma SafeHere(data: Analysis)
    requires forall d :: d in ["(", " ", ",", "-", "["] ==> DataOf(data, d) == NO_NEEDS
    ensures SafeDelimiters(data)
  {
    hide DataOf;
  }

  lemma FunctionIsProper(i: nat)
    requires i < 2
    ensures var p := Example();
      && |p.bodies| == |p.shader.funcs| == 2
      && ProperBody(p.shader, FinalAnalysis(p.shader), p.bodies[i])
      && BodyTokens(p.bodies[i]) + [END] <= p.shader.funcs[i].body
      && forall x :: x in p.shader.funcs[i].params ==> LocalName(p.shader, x)
  {
    hide *;
    Shape();
    NoFunction("float4");
    if i == 0 {
      HelperIsProper(FinalAnalysis(Example().shader));
    } else {
      MainIsProper(FinalAnalysis(Example().shader));
    }
    Variable("vert_in");
  }

  lemma OneGlobal()
    ensures var sh := Example().shader;
      Distinct(Declared(sh, Uniforms) + Declared(sh, Textures) + Declared(sh, Samplers))
  {
    NamesOfGlobals();
    hide Declared;
  }

  /** The example is a program of the kind the theorems are about. */
  lemma ExampleIsProper()
    ensures Proper(Example())
  {
    hide *;
    Shape();
    OneGlobal();
    ExampleIsWellFormed();
    DelimitersAreSafe();
    FunctionNamesAreFree();
    FunctionIsProper(0);
    FunctionIsProper(1);
    PutTogether(Example());
  }

  lemma PutTogether(p: Program)
    requires |p.bodies| == |p.shader.funcs| == 2 && WellFormed(p.shader) && SafeDelimiters(FinalAnalysis(p.shader))
    requires NamesAreFree(p.shader)
    requires var sh := p.shader; Distinct(Declared(sh, Uniforms) + Declared(sh, Textures) + Declared(sh, Samplers))
    requires forall i :: 0 <= i < 2 ==>
               && ProperBody(p.shader, FinalAnalysis(p.shader), p.bodies[i])
               && BodyTokens(p.bodies[i]) + [END] <= p.shader.funcs[i].body
               && forall x :: x in p.shader.funcs[i].params ==> LocalName(p.shader, x)
    ensures Proper(p)
  {
    hide ProperBody, LocalName, FinalAnalysis, BodyTokens, WellFormed, SafeDelimiters, Declared, Distinct, NamesAreFree;
  }

  // ---------------------------------------------------------------------------------------------------------
  // What it is lifted to

  /** The globals of the example. */
  function World(projection: Value): Globals {
    Globals(map["ViewProj" := projection], map[], map[])
  }

  lemma NoOrder(decl: seq<string>, uses: seq<string>)
    requires |decl| <= 1
    ensures FirstUsesInOrder(decl, uses)
  {
  }

  lemma UsesAreInOrder()
    ensures UsesInOrder(Example().shader)
  {
    var sh := Example().shader;
    NamesOfGlobals();
    assert forall kind :: |Declared(sh, kind)| <= 1;
    hide *;
    EveryUse(sh);
  }

  lemma EveryUse(sh: Shader)
    requires forall kind :: |Declared(sh, kind)| <= 1
    ensures UsesInOrder(sh)
  {
    hide Declared, Uses, FirstUsesInOrder;
    forall i, kind | 0 <= i < |sh.funcs| ensures FirstUsesInOrder(Declared(sh, kind), Uses(sh, i, kind)) {
      NoOrder(Declared(sh, kind), Uses(sh, i, kind));
    }
  }

  lemma ExampleFits(projection: Value)
    ensures Fits(Example().shader, World(projection))
  {
    NamesOfGlobals();
    hide UniformNames, Declared, Example;
  }

  lemma ExampleSetting(projection: Value, i: nat)
    requires i < 2
    ensures Setting(Example(), World(projection), i)
  {
    hide *;
    Shape();
    ExampleIsProper();
    UsesAreInOrder();
    ExampleFits(projection);
    SettingIs(Example(), World(projection), i);
  }

  lemma SettingIs(p: Program, w: Globals, i: nat)
    requires Proper(p) && UsesInOrder(p.shader) && Fits(p.shader, w) && i < |p.bodies|
    ensures Setting(p, w, i)
  {
    hide Proper, UsesInOrder, Fits;
  }

  lemma HelperMentions()
    ensures Mentions(Example().shader, 0, "ViewProj")
  {
    hide *;
    Shape();
    BodyIs(0);
    ViewProjIsNamed();
    assert Name("ViewProj") in BodyTokens(Helper()) + [END];
    MentionIs(Example().shader, 0, "ViewProj");
  }

  lemma MentionIs(sh: Shader, i: nat, n: string)
    requires i < |sh.funcs| && Name(n) in Body(sh.funcs[i])
    ensures Mentions(sh, i, n)
  {
    hide Body;
  }

  lemma ViewProjIsNamed()
    ensures Name("ViewProj") in BodyTokens(Helper())
  {
    HelperTokens();
    ProjectedTokens();
    hide Tokens, Position, Projected, StmtTokens;
    var ss := Helper();
    assert Name("ViewProj") in [COMMA, SPACE, Name("ViewProj"), CLOSE];
    assert Name("ViewProj") in Tokens(Projected());
    assert Name("ViewProj") in StmtTokens(ss[2]);
    hide Helper;
    TokensOfStmt(ss, 2);
  }

  lemma {:induction false} TokensOfStmt(ss: seq<Stmt>, k: nat)
    requires k < |ss|
    ensures forall t :: t in StmtTokens(ss[k]) ==> t in BodyTokens(ss)
  {
    hide StmtTokens;
    if k > 0 {
      TokensOfStmt(ss[1..], k - 1);
    }
  }

  lemma OwnUniforms(sh: Shader)
    requires UniformNames(sh) == ["ViewProj"]
    ensures "uniforms" in Own(sh, Uniforms, "ViewProj")
  {
    hide UniformNames;
  }

  lemma NeedsOfHelper()
    ensures "uniforms" in FinalData(Example().shader, 0).Needs(Uniforms)
  {
    hide *;
    Shape();
    NamesOfGlobals();
    OwnUniforms(Example().shader);
    ExampleIsWellFormed();
    HelperMentions();
    SourceIsNeed(Example().shader, 0, Uniforms, "ViewProj", "uniforms");
  }

  lemma ExtrasAre(i: nat)
    requires i < 2
    ensures Extras(Example().shader, i) == ["uniforms"]
  {
    hide *;
    Shape();
    NamesOfGlobals();
    NeedsOfHelper();
    OnlyUniforms(Example().shader, i);
  }

  lemma OnlyUniforms(sh: Shader, i: nat)
    requires Declared(sh, Uniforms) == ["uniforms"] && Declared(sh, Textures) == [] && Declared(sh, Samplers) == []
    requires i < |sh.funcs| && (sh.funcs[i].name == "main" || "uniforms" in FinalData(sh, i).Needs(Uniforms))
    ensures Extras(sh, i) == ["uniforms"]
  {
    hide Declared, FinalData;
    assert Keep(["uniforms"][1..], FinalData(sh, i).Needs(Uniforms)) == [];
  }

  lemma BodyOfMain()
    ensures |Example().shader.funcs| == 2 && Body(Example().shader.funcs[1]) == BodyTokens(Main()) + [END]
  {
    hide *;
    Shape();
    BodyIs(1);
  }

  lemma MainMentions()
    ensures Mentions(Example().shader, 1, "VSDefault")
  {
    hide *;
    BodyOfMain();
    MainTokens();
    var ts := BodyTokens(Main()) + [END];
    assert ts[2] == Name("VSDefault");
    MentionIs(Example().shader, 1, "VSDefault");
  }

  lemma ArgumentsOfHelper()
    ensures DataOf(FinalAnalysis(Example().shader), "VSDefault").AdditionalArguments() == ["uniforms"]
  {
    hide *;
    Shape();
    var p, w := Example(), World(Value([]));
    assert "VSDefault"[0] != "main"[0];
    ExtrasAre(0);
    ExampleSetting(Value([]), 1);
    MainMentions();
    CallPasses(p, w, 1, "VSDefault", 0);
  }

  function LiftedPosition(): M.Expr {
    M.Call("float4", [M.Member(M.Member(M.Name("vert_in"), "pos"), "xyz"), M.Literal("1.0")])
  }

  /** `(float4(vert_in.pos.xyz, 1.0)) * (uniforms.ViewProj)` */
  function LiftedProduct(): M.Expr {
    M.Infix("*", M.Paren(LiftedPosition()), M.Paren(M.Member(M.Name("uniforms"), "ViewProj")))
  }

  function LiftedHelper(): seq<M.Stmt> {
    [M.Let("VertInOut_Out", "vert_out"),
     M.Assign("vert_out", ["pos"], "=", LiftedProduct()),
     M.Assign("vert_out", ["uv"], "=", M.Member(M.Name("vert_in"), "uv")),
     M.Return(M.Name("vert_out"))]
  }

  /** The product is spelled out, the output has its own struct, and the call passes the uniforms on. */
  lemma LiftedExample()
    ensures var q := LiftProgram(Example());
      && q.params[0] == q.params[1] == ["vert_in", "uniforms"]
      && q.bodies[0] == LiftedHelper()
      && q.bodies[1] == [M.Return(M.Call("VSDefault", [M.Name("vert_in"), M.Name("uniforms")]))]
  {
    hide *;
    Shape();
    LiftedParts(Example(), 0);
    LiftedParts(Example(), 1);
    SignatureIs(0);
    SignatureIs(1);
    NoFunction("float4");
    StructsAre();
    ArgumentsOfHelper();
    HelperIs(Example().shader, FinalAnalysis(Example().shader));
    MainIs(Example().shader, FinalAnalysis(Example().shader));
  }

  lemma LiftedParts(p: Program, i: nat)
    requires i < |p.bodies| == |p.shader.funcs|
    ensures LiftProgram(p).params[i] == Signature(p.shader, FinalData(p.shader, i), p.shader.funcs[i])
    ensures LiftProgram(p).bodies[i] == LiftBody(p.shader, FinalAnalysis(p.shader), p.bodies[i])
  {
  }

  lemma SignatureIs(i: nat)
    requires i < 2
    ensures var sh := Example().shader;
      Signature(sh, FinalData(sh, i), sh.funcs[i]) == ["vert_in", "uniforms"]
  {
    hide *;
    Shape();
    ExtrasAre(i);
    SignatureEndsWithExtras(Example().shader, i);
  }

  lemma CoordinateIs(data: Analysis)
    ensures var v := Member(Member(Local("vert_in"), "pos"), "xyz");
      LiftEach(data, [v, Literal("1.0")])
      == [M.Member(M.Member(M.Name("vert_in"), "pos"), "xyz"), M.Literal("1.0")]
  {
    var v := Member(Member(Local("vert_in"), "pos"), "xyz");
    assert Lift(data, v.base) == M.Member(M.Name("vert_in"), "pos");
    assert Lift(data, v) == M.Member(M.Member(M.Name("vert_in"), "pos"), "xyz");
  }

  lemma PlainCallIs(data: Analysis, f: string, args: seq<Expr>)
    requires DataOf(data, f) == NO_NEEDS && MetalName(f) == f && f != "mul" && f != "mad" && f != "int3"
    ensures Lift(data, Call(f, args)) == M.Call(f, LiftEach(data, args))
  {
    hide DataOf, MetalName;
    assert LiftEach(data, args) + Names([]) == LiftEach(data, args);
  }

  lemma ProductIs(data: Analysis, a: Expr, b: Expr)
    ensures Lift(data, Call("mul", [a, b])) == M.Infix("*", M.Paren(Lift(data, a)), M.Paren(Lift(data, b)))
  {
    assert LiftEach(data, [a, b]) == [Lift(data, a), Lift(data, b)];
  }

  lemma PositionIs(data: Analysis)
    requires DataOf(data, "float4") == NO_NEEDS
    ensures Lift(data, Projected()) == LiftedProduct()
  {
    SpecialNames();
    assert MetalName("float4") == "float4";
    hide DataOf, MetalName, LiftEach, ConvertType, ConvertIntrinsic;
    CoordinateIs(data);
    assert "float4" != "mul" && "float4" != "mad" && "float4" != "int3";
    PlainCallIs(data, "float4", Position().args);
    ProductIs(data, Position(), Uniform("ViewProj"));
  }

  lemma HelperIs(sh: Shader, data: Analysis)
    requires DataOf(data, "float4") == NO_NEEDS && sh.inOutStructs == {"VertInOut"}
    ensures LiftBody(sh, data, Helper()) == LiftedHelper()
  {
    var ss := Helper();
    assert |ss| == 7;
    StatementsAre(sh, data);
    hide *;
    LiftFrom(sh, data, ss, 6);
    LiftFrom(sh, data, ss, 5);
    LiftFrom(sh, data, ss, 4);
    LiftFrom(sh, data, ss, 3);
    LiftFrom(sh, data, ss, 2);
    LiftFrom(sh, data, ss, 1);
    LiftFrom(sh, data, ss, 0);
    assert ss[7..] == [] && ss[0..] == ss;
    NothingLifted(sh, data);
    LiftedHelperIs();
  }

  lemma NothingLifted(sh: Shader, data: Analysis)
    ensures LiftBody(sh, data, []) == []
  {
  }

  lemma LiftedHelperIs()
    ensures LiftedHelper()
         == [M.Let("VertInOut_Out", "vert_out")]
            + ([] + ([M.Assign("vert_out", ["pos"], "=", LiftedProduct())]
            + ([] + ([M.Assign("vert_out", ["uv"], "=", M.Member(M.Name("vert_in"), "uv"))]
            + ([] + ([M.Return(M.Name("vert_out"))] + []))))))
  {
    hide LiftedProduct;
  }

  lemma LiftFrom(sh: Shader, data: Analysis, ss: seq<Stmt>, k: nat)
    requires k < |ss|
    ensures LiftBody(sh, data, ss[k..]) == LiftStmt(sh, data, ss[k]) + LiftBody(sh, data, ss[k + 1..])
  {
    hide LiftStmt;
    assert ss[k..][1..] == ss[k + 1..];
  }

  lemma StatementsAre(sh: Shader, data: Analysis)
    requires DataOf(data, "float4") == NO_NEEDS && sh.inOutStructs == {"VertInOut"}
    ensures var ss := Helper();
      && LiftStmt(sh, data, ss[1]) == LiftStmt(sh, data, ss[3]) == LiftStmt(sh, data, ss[5]) == []
      && LiftStmt(sh, data, ss[0]) == [M.Let("VertInOut_Out", "vert_out")]
      && LiftStmt(sh, data, ss[2]) == [M.Assign("vert_out", ["pos"], "=", LiftedProduct())]
      && LiftStmt(sh, data, ss[4]) == [M.Assign("vert_out", ["uv"], "=", M.Member(M.Name("vert_in"), "uv"))]
      && LiftStmt(sh, data, ss[6]) == [M.Return(M.Name("vert_out"))]
  {
    PositionIs(data);
    hide DataOf, Projected, LiftedProduct;
    assert MetalType(sh, "VertInOut") == "VertInOut_Out";
    assert Lift(data, Member(Local("vert_in"), "uv")) == M.Member(M.Name("vert_in"), "uv");
  }

  lemma MainIs(sh: Shader, data: Analysis)
    requires DataOf(data, "VSDefault").AdditionalArguments() == ["uniforms"]
    ensures LiftBody(sh, data, Main()) == [M.Return(M.Call("VSDefault", [M.Name("vert_in"), M.Name("uniforms")]))]
  {
    var ss := Main();
    CallIs(data);
    assert LiftStmt(sh, data, ss[0]) == [M.Return(Lift(data, ss[0].value))];
    hide Lift, LiftStmt;
    assert LiftBody(sh, data, ss[1..]) == [];
  }

  lemma CallIs(data: Analysis)
    requires DataOf(data, "VSDefault").AdditionalArguments() == ["uniforms"]
    ensures Lift(data, Call("VSDefault", [Local("vert_in")]))
         == M.Call("VSDefault", [M.Name("vert_in"), M.Name("uniforms")])
  {
    hide *;
    HelperName();
    LiftedCall(data, "VSDefault", [Local("vert_in")]);
    OneArgument(data);
  }

  lemma HelperName()
    ensures MetalName("VSDefault") == "VSDefault"
    ensures "VSDefault" != "mul" && "VSDefault" != "mad" && "VSDefault" != "int3"
  {
    Unchanged("VSDefault");
  }

  lemma OneArgument(data: Analysis)
    ensures LiftEach(data, [Local("vert_in")]) == [M.Name("vert_in")]
    ensures [M.Name("vert_in")] + Names(["uniforms"]) == [M.Name("vert_in"), M.Name("uniforms")]
  {
  }

  /** A call of a helper is passed what the helper needs. */
  lemma LiftedCall(data: Analysis, f: string, args: seq<Expr>)
    requires f != "mul" && f != "mad" && f != "int3"
    ensures Lift(data, Call(f, args))
         == M.Call(MetalName(f), LiftEach(data, args) + Names(DataOf(data, f).AdditionalArguments()))
  {
    hide DataOf, MetalName, LiftEach, Names;
  }
}
