/** A shader that uses its textures in another order than it declares them: it meets everything else that the theorem
    about lifting asks for, and what is emitted for it samples the wrong textures. */
module MetalCounterexample {
  import opened ShaderTokens
  import opened MetalTranspiler
  import opened MetalAnalysis
  import opened MetalSignatures
  import opened MetalScoping
  import opened MetalSyntax
  import opened MetalRendering
  import opened MetalLifting
  import opened MetalMachines
  import opened MetalMeaning
  import E = MetalExample
  import M = MetalText

  function SampleOf(texture: string): Expr { Access(texture, "Sample", [Handle("smp"), Local("uv")]) }

  /** `video.Sample(smp, uv) - picture.Sample(smp, uv)`, with `picture` declared first. */
  function Difference(): Expr { Infix("-", SampleOf("video"), SampleOf("picture")) }

  function Helper(): seq<Stmt> { [Return(Difference())] }

  function Main(): seq<Stmt> { [Return(Call("shade", [Local("uv")]))] }

  function Swapped(): Program {
    Program(
      Shader(true, [UniformVar("picture", "texture2d"), UniformVar("video", "texture2d")], ["smp"], {},
             [Func("shade", ["uv"], BodyTokens(Helper()) + [END]),
              Func("main", ["uv"], BodyTokens(Main()) + [END])]),
      [Helper(), Main()])
  }

  lemma Shape()
    ensures var p := Swapped();
      && |p.bodies| == |p.shader.funcs| == 2 && p.bodies[0] == Helper() && p.bodies[1] == Main()
      && p.shader.funcs[0] == Func("shade", ["uv"], BodyTokens(Helper()) + [END])
      && p.shader.funcs[1] == Func("main", ["uv"], BodyTokens(Main()) + [END])
      && p.shader.inOutStructs == {} && p.shader.samplers == ["smp"]
  {
    hide Helper, Main, BodyTokens;
  }

  lemma NamesOfGlobals()
    ensures var sh := Swapped().shader;
      && UniformNames(sh) == [] && TextureNames(sh) == ["picture", "video"]
      && Declared(sh, Uniforms) == [] && Declared(sh, Textures) == ["picture", "video"]
      && Declared(sh, Samplers) == ["smp"]
  {
    var sh := Swapped().shader;
    var vars := sh.uniformVars;
    hide Helper, Main, BodyTokens;
    assert "texture2d"[..7] == "texture";
    assert vars[1..][0] == vars[1];
    assert NamesOf(sh, vars[1..][1..], true) == NamesOf(sh, vars[1..][1..], false) == [];
    assert NamesOf(sh, vars[1..], true) == ["video"] && NamesOf(sh, vars[1..], false) == [];
  }

  // ---------------------------------------------------------------------------------------------------------
  // It is proper

  lemma OrdinaryName(n: string)
    requires n in ["uv", "smp", "shade", "picture", "video", "if", "else", "while", "return"]
    ensures ConvertType(n) == Ok(n) && ConvertIntrinsic(n) == Ok("") && !Delimiter(n)
    ensures n != "obs_glsl_compile" && n != "mul" && n != "mad" && n != "int3"
  {
    assert n[0] in {'u', 's', 'p', 'v', 'i', 'e', 'w', 'r'};
  }

  lemma ForeignNames()
    ensures forall n :: n in ["uv", "shade", "main"] ==> n !in METAL_NAMES && n != "mul" && n != "mad" && n != "int3"
  {
  }

  lemma Plain(n: string)
    requires n in ["uv", "smp", "shade", "if", "else", "while", "return"]
    ensures PlainName(Swapped().shader, n) && n !in UniformNames(Swapped().shader)
  {
    hide *;
    Shape();
    NamesOfGlobals();
    OrdinaryName(n);
    PlainHere(Swapped().shader, n);
  }

  lemma PlainHere(sh: Shader, n: string)
    requires UniformNames(sh) == [] && TextureNames(sh) == ["picture", "video"] && sh.inOutStructs == {}
    requires ConvertType(n) == Ok(n) && ConvertIntrinsic(n) == Ok("") && !Delimiter(n) && n != "obs_glsl_compile"
    requires n in ["uv", "smp", "shade", "if", "else", "while", "return"]
    ensures PlainName(sh, n) && n !in UniformNames(sh)
  {
    hide ConvertType, ConvertIntrinsic, UniformNames, TextureNames, Delimiter;
    assert n != "picture" && n != "video" && n != "mul" && n != "mad";
  }

  lemma Variable()
    ensures LocalName(Swapped().shader, "uv")
  {
    hide *;
    Shape();
    NamesOfGlobals();
    Plain("uv");
    ForeignNames();
    VariableHere(Swapped().shader);
  }

  lemma VariableHere(sh: Shader)
    requires PlainName(sh, "uv") && "uv" !in UniformNames(sh) && sh.samplers == ["smp"] && "uv" !in METAL_NAMES
    ensures LocalName(sh, "uv")
  {
    hide PlainName, UniformNames, METAL_NAMES;
    assert "uv" != "smp" && "uv" != "uniforms" && "uv" != "int3";
  }

  lemma KeywordsAreFree()
    ensures Keywords(Swapped().shader)
  {
    var sh := Swapped().shader;
    hide PlainName, UniformNames, Swapped;
    forall k | k in ["if", "else", "while", "return"] ensures PlainName(sh, k) && k !in UniformNames(sh) {
      Plain(k);
    }
  }

  lemma FunctionsAre(n: string)
    ensures IsFunction(Swapped().shader, n) <==> n == "shade" || n == "main"
  {
    hide Swapped;
    Shape();
    var sh := Swapped().shader;
    assert sh.funcs[0].name == "shade" && sh.funcs[1].name == "main";
  }

  lemma FunctionNamesAreFree()
    ensures NamesAreFree(Swapped().shader)
  {
    ForeignNames();
    hide Swapped, METAL_NAMES, IsFunction;
    forall n | IsFunction(Swapped().shader, n)
      ensures n !in METAL_NAMES && n != "mul" && n != "mad" && n != "int3"
    {
      FunctionsAre(n);
    }
  }

  lemma SampleIsProper(data: Analysis, t: string)
    requires t == "picture" || t == "video"
    ensures ProperExpr(Swapped().shader, data, SampleOf(t))
  {
    hide *;
    NamesOfGlobals();
    OrdinaryName(t);
    Plain("smp");
    Variable();
    SampleHere(Swapped().shader, data, t);
  }

  lemma SampleHere(sh: Shader, data: Analysis, t: string)
    requires t in TextureNames(sh) && ConvertType(t) == Ok(t) && ConvertIntrinsic(t) == Ok("") && !Delimiter(t)
    requires t != "obs_glsl_compile" && t != "mul" && t != "mad"
    requires PlainName(sh, "smp") && "smp" !in UniformNames(sh) && Declared(sh, Samplers) == ["smp"]
    requires LocalName(sh, "uv")
    ensures ProperExpr(sh, data, SampleOf(t))
  {
    hide PlainName, LocalName, UniformNames, TextureNames, Declared, Delimiter, ConvertType, ConvertIntrinsic;
    assert ProperAccess(sh, t, "Sample", [Handle("smp"), Local("uv")]);
    assert [Handle("smp"), Local("uv")][1..] == [Local("uv")];
    assert ProperExpr(sh, data, Local("uv"));
    assert "Sample" != "Load";
  }

  lemma HelperIsProper(data: Analysis)
    ensures ProperBody(Swapped().shader, data, Helper())
  {
    hide *;
    KeywordsAreFree();
    SampleIsProper(data, "picture");
    SampleIsProper(data, "video");
    HelperHere(Swapped().shader, data);
  }

  lemma HelperHere(sh: Shader, data: Analysis)
    requires Keywords(sh) && ProperExpr(sh, data, SampleOf("picture")) && ProperExpr(sh, data, SampleOf("video"))
    ensures ProperBody(sh, data, Helper())
  {
    hide Keywords, SampleOf;
    assert ProperExpr(sh, data, Difference());
    hide ProperExpr;
    E.EachProper(sh, data, Helper());
  }

  lemma MainIsProper(data: Analysis)
    ensures ProperBody(Swapped().shader, data, Main())
  {
    hide *;
    KeywordsAreFree();
    Plain("shade");
    Variable();
    FunctionsAre("shade");
    MainHere(Swapped().shader, data);
  }

  lemma MainHere(sh: Shader, data: Analysis)
    requires Keywords(sh) && PlainName(sh, "shade") && "shade" !in UniformNames(sh)
    requires LocalName(sh, "uv") && IsFunction(sh, "shade")
    ensures ProperBody(sh, data, Main())
  {
    hide PlainName, LocalName, UniformNames, Keywords, IsFunction, DataOf;
    assert ProperExpr(sh, data, Local("uv"));
    assert ProperArgs(sh, data, [Local("uv")]);
    assert ProperExpr(sh, data, Call("shade", [Local("uv")]));
    hide ProperExpr;
    E.EachProper(sh, data, Main());
  }

  // ---------------------------------------------------------------------------------------------------------
  // The tokens

  const BETWEEN := [DOT, Name("Sample"), OPEN, Name("smp"), COMMA, SPACE, Name("uv"), CLOSE]

  lemma SampledTokens(t: string)
    ensures Tokens(SampleOf(t)) == [Name(t)] + BETWEEN
  {
    var args := [Handle("smp"), Local("uv")];
    assert ArgTokens(args[1..]) == [Name("uv")];
    assert ArgTokens(args) == [Name("smp"), COMMA, SPACE, Name("uv")];
  }

  lemma HelperTokens()
    ensures BodyTokens(Helper())
         == [Name("return"), SPACE]
            + ([Name("video")] + BETWEEN + ([SPACE, MINUS, SPACE] + ([Name("picture")] + BETWEEN)) + [SEMICOLON])
  {
    SampledTokens("video");
    SampledTokens("picture");
    hide SampleOf;
    assert Tokens(Difference()) == [Name("video")] + BETWEEN + ([SPACE, MINUS, SPACE] + ([Name("picture")] + BETWEEN));
    hide Difference;
    assert BodyTokens(Helper()[1..]) == [];
  }

  lemma MainTokens()
    ensures BodyTokens(Main()) == [Name("return"), SPACE, Name("shade"), OPEN, Name("uv"), CLOSE, SEMICOLON]
  {
    assert ArgTokens([Local("uv")]) == [Name("uv")];
    assert Tokens(Main()[0].value) == [Name("shade"), OPEN, Name("uv"), CLOSE];
    assert BodyTokens(Main()[1..]) == [];
  }

  /** No name among them is one of a function. */
  ghost predicate Clean(ts: seq<Token>) {
    forall t :: t in ts && t.Name? ==> t.text !in ["shade", "main", "}", ")"]
  }

  lemma HelperIsClean()
    ensures Clean(BodyTokens(Helper()))
  {
    HelperTokens();
    hide BodyTokens, Helper;
    assert Clean(BETWEEN);
  }

  lemma BodyIs(i: nat)
    requires i < 2
    ensures i < |Swapped().shader.funcs| == |Swapped().bodies|
    ensures Body(Swapped().shader.funcs[i]) == BodyTokens(Swapped().bodies[i]) + [END]
  {
    hide *;
    Shape();
    var sh := Swapped().shader;
    var b := if i == 0 then Helper() else Main();
    if i == 0 { HelperIsProper(map[]); } else { MainIsProper(map[]); }
    SkipBody(sh, map[], b, []);
    E.ScannedAll(sh.funcs[i], BodyTokens(b));
  }

  lemma MentionedNames(i: nat, n: string)
    requires i < 2 == |Swapped().shader.funcs| && Mentions(Swapped().shader, i, n) && (n == "shade" || n == "main")
    ensures i == 1 && n == "shade"
  {
    hide *;
    BodyIs(i);
    Shape();
    E.InBody(Swapped().shader, i, n);
    if i == 0 {
      HelperIsClean();
      NotNamed(BodyTokens(Helper()), n);
    } else {
      MainTokens();
      OnlyHelperNamed(n);
    }
  }

  lemma NotNamed(ts: seq<Token>, n: string)
    requires Clean(ts) && (n == "shade" || n == "main")
    ensures Name(n) !in ts + [END]
  {
  }

  lemma OnlyHelperNamed(n: string)
    requires n == "shade" || n == "main"
    ensures Name(n) in [Name("return"), SPACE, Name("shade"), OPEN, Name("uv"), CLOSE, SEMICOLON] + [END]
       <==> n == "shade"
  {
    assert "main" != "return" && "main" != "uv" && "main" != "shade";
    assert ([Name("return"), SPACE, Name("shade"), OPEN, Name("uv"), CLOSE, SEMICOLON] + [END])[2] == Name("shade");
  }

  lemma BodyIsLexed(i: nat)
    requires i < 2
    ensures |Swapped().shader.funcs| == 2 && Lexed(Swapped().shader.funcs[i].body)
  {
    hide *;
    Shape();
    if i == 0 {
      HelperIsClean();
      CleanIsLexed(BodyTokens(Helper()));
    } else {
      MainTokens();
      MainIsLexed();
    }
  }

  lemma CleanIsLexed(ts: seq<Token>)
    requires Clean(ts)
    ensures Lexed(ts + [END])
  {
    forall k | 0 <= k < |ts + [END]| && (ts + [END])[k].Name?
      ensures (ts + [END])[k].text != "}" && (ts + [END])[k].text != ")"
    {
      assert ts[k] in ts;
    }
  }

  lemma MainIsLexed()
    ensures Lexed([Name("return"), SPACE, Name("shade"), OPEN, Name("uv"), CLOSE, SEMICOLON] + [END])
  {
  }

  lemma SwappedIsWellFormed()
    ensures WellFormed(Swapped().shader)
  {
    hide *;
    Shape();
    NamesOfGlobals();
    BodyIsLexed(0);
    BodyIsLexed(1);
    WellFormedHere(Swapped().shader);
  }

  lemma WellFormedHere(sh: Shader)
    requires sh == Swapped().shader && |sh.funcs| == 2
    requires sh.funcs[0].name == "shade" && sh.funcs[1].name == "main"
    requires Declared(sh, Uniforms) == [] && Declared(sh, Textures) == ["picture", "video"]
    requires Declared(sh, Samplers) == ["smp"]
    requires Lexed(sh.funcs[0].body) && Lexed(sh.funcs[1].body)
    ensures WellFormed(sh)
  {
    hide Swapped, Declared, Lexed, Mentions;
    assert "shade"[0] != "main"[0] && "picture"[0] != "video"[0];
    forall i, j | 0 <= i < 2 && 0 <= j < 2 && Mentions(sh, i, sh.funcs[j].name) ensures j < i {
      MentionedNames(i, sh.funcs[j].name);
    }
    forall kind ensures Distinct(Declared(sh, kind)) {
      match kind case Uniforms => case Textures => case Samplers =>
    }
  }

  lemma NoFunction(n: string)
    requires n != "shade" && n != "main"
    ensures DataOf(FinalAnalysis(Swapped().shader), n) == NO_NEEDS
  {
    hide Swapped;
    Shape();
    EntryEmpty(Swapped().shader, 2, n);
  }

  lemma DelimitersAreSafe()
    ensures SafeDelimiters(FinalAnalysis(Swapped().shader))
  {
    hide *;
    NoFunction("(");
    NoFunction(" ");
    NoFunction(",");
    NoFunction("-");
    NoFunction("[");
    E.SafeHere(FinalAnalysis(Swapped().shader));
  }

  lemma FunctionIsProper(i: nat)
    requires i < 2
    ensures var p := Swapped();
      && |p.bodies| == |p.shader.funcs| == 2
      && ProperBody(p.shader, FinalAnalysis(p.shader), p.bodies[i])
      && BodyTokens(p.bodies[i]) + [END] <= p.shader.funcs[i].body
      && forall x :: x in p.shader.funcs[i].params ==> LocalName(p.shader, x)
  {
    hide *;
    Shape();
    if i == 0 {
      HelperIsProper(FinalAnalysis(Swapped().shader));
    } else {
      MainIsProper(FinalAnalysis(Swapped().shader));
    }
    Variable();
  }

  lemma GlobalsDiffer()
    ensures var sh := Swapped().shader;
      Distinct(Declared(sh, Uniforms) + Declared(sh, Textures) + Declared(sh, Samplers))
  {
    hide *;
    NamesOfGlobals();
    assert Distinct([] + ["picture", "video"] + ["smp"]) by { ThreeNames(); }
  }

  lemma ThreeNames()
    ensures Distinct([] + ["picture", "video"] + ["smp"])
  {
    assert "picture"[0] != "video"[0] && "picture"[0] != "smp"[0] && "video"[0] != "smp"[0];
  }

  lemma SwappedIsProper()
    ensures Proper(Swapped())
  {
    hide *;
    Shape();
    GlobalsDiffer();
    SwappedIsWellFormed();
    DelimitersAreSafe();
    FunctionNamesAreFree();
    FunctionIsProper(0);
    FunctionIsProper(1);
    E.PutTogether(Swapped());
  }

  // ---------------------------------------------------------------------------------------------------------
  // The order of its uses

  lemma {:induction false} OccurrencesConcat(sh: Shader, data: Analysis, kind: Kind, a: seq<Token>, b: seq<Token>)
    ensures Occurrences(sh, data, kind, a + b) == Occurrences(sh, data, kind, a) + Occurrences(sh, data, kind, b)
    decreases |b|
  {
    hide TokenNeeds;
    if b == [] {
      assert a + b == a;
    } else {
      var init, t := b[..|b| - 1], b[|b| - 1];
      assert (a + b)[..|a + b| - 1] == a + init && (a + b)[|a + b| - 1] == t;
      OccurrencesConcat(sh, data, kind, a, init);
      var x, y, z := Occurrences(sh, data, kind, a), Occurrences(sh, data, kind, init), TokenNeeds(sh, data, kind, t);
      assert x + y + z == x + (y + z);
    }
  }

  lemma OneOccurrence(sh: Shader, data: Analysis, kind: Kind, t: Token)
    ensures Occurrences(sh, data, kind, [t]) == TokenNeeds(sh, data, kind, t)
  {
    assert Occurrences(sh, data, kind, [t][..0]) == [];
  }

  lemma {:induction false} NoOccurrence(sh: Shader, data: Analysis, kind: Kind, ts: seq<Token>)
    requires forall t :: t in ts ==> TokenNeeds(sh, data, kind, t) == []
    ensures Occurrences(sh, data, kind, ts) == []
  {
    if ts != [] {
      NoOccurrence(sh, data, kind, ts[..|ts| - 1]);
    }
  }

  /** What the tokens of the helper need, where no function is known yet. */
  lemma NeedsOfTokens(sh: Shader, data: Analysis, t: Token)
    requires Declared(sh, Textures) == ["picture", "video"] && forall n :: DataOf(data, n) == NO_NEEDS
    ensures TokenNeeds(sh, data, Textures, t)
         == if t == Name("picture") || t == Name("video") then [t.text] else []
  {
    hide Declared, DataOf;
  }

  const OTHERS := BETWEEN + [Name("return"), SPACE, MINUS, SEMICOLON, END]

  lemma OthersNeedNothing(sh: Shader, data: Analysis)
    requires Declared(sh, Textures) == ["picture", "video"] && forall n :: DataOf(data, n) == NO_NEEDS
    ensures forall t :: t in OTHERS ==> TokenNeeds(sh, data, Textures, t) == []
  {
    hide Declared, DataOf, TokenNeeds;
    assert Name("picture") !in OTHERS && Name("video") !in OTHERS;
    forall t | t in OTHERS
      ensures TokenNeeds(sh, data, Textures, t) == []
    {
      NeedsOfTokens(sh, data, t);
    }
  }

  lemma OthersAre()
    ensures forall t :: t in BETWEEN || t in [Name("return"), SPACE] || t in [SPACE, MINUS, SPACE] ==> t in OTHERS
    ensures SEMICOLON in OTHERS && END in OTHERS
  {
    var last := [Name("return"), SPACE, MINUS, SEMICOLON, END];
    assert forall t :: t in last ==> t in BETWEEN + last;
    assert SEMICOLON == last[3] && END == last[4] && SPACE == last[1] && MINUS == last[2] && Name("return") == last[0];
  }

  lemma UsesOfTokens(sh: Shader, data: Analysis)
    requires Declared(sh, Textures) == ["picture", "video"] && forall n :: DataOf(data, n) == NO_NEEDS
    ensures Occurrences(sh, data, Textures, BodyTokens(Helper()) + [END]) == ["video", "picture"]
  {
    HelperTokens();
    hide *;
    OthersNeedNothing(sh, data);
    OthersAre();
    var a, b := [Name("return"), SPACE], [SPACE, MINUS, SPACE];
    var picture := [Name("picture")] + BETWEEN;
    var video := [Name("video")] + BETWEEN;
    NoOccurrence(sh, data, Textures, BETWEEN);
    NoOccurrence(sh, data, Textures, a);
    NoOccurrence(sh, data, Textures, b);
    NoOccurrence(sh, data, Textures, [SEMICOLON]);
    NoOccurrence(sh, data, Textures, [END]);
    OneOccurrence(sh, data, Textures, Name("picture"));
    OneOccurrence(sh, data, Textures, Name("video"));
    NeedsOfTokens(sh, data, Name("picture"));
    NeedsOfTokens(sh, data, Name("video"));
    OccurrencesConcat(sh, data, Textures, [Name("picture")], BETWEEN);
    OccurrencesConcat(sh, data, Textures, [Name("video")], BETWEEN);
    OccurrencesConcat(sh, data, Textures, b, picture);
    OccurrencesConcat(sh, data, Textures, video, b + picture);
    OccurrencesConcat(sh, data, Textures, video + (b + picture), [SEMICOLON]);
    OccurrencesConcat(sh, data, Textures, a, video + (b + picture) + [SEMICOLON]);
    OccurrencesConcat(sh, data, Textures, a + (video + (b + picture) + [SEMICOLON]), [END]);
    assert [] + (["video"] + [] + ([] + (["picture"] + [])) + []) + [] == ["video", "picture"];
  }

  lemma TexturesAreUsed()
    ensures |Swapped().shader.funcs| == 2 && Uses(Swapped().shader, 0, Textures) == ["video", "picture"]
  {
    hide *;
    Shape();
    NamesOfGlobals();
    BodyIs(0);
    var sh := Swapped().shader;
    forall n ensures DataOf(Analyze(sh, 0), n) == NO_NEEDS {
      EntryEmpty(sh, 0, n);
    }
    UsesOfTokens(sh, Analyze(sh, 0));
    UsesAre(sh);
  }

  lemma UsesAre(sh: Shader)
    requires |sh.funcs| > 0
    ensures Uses(sh, 0, Textures) == Occurrences(sh, Analyze(sh, 0), Textures, Body(sh.funcs[0]))
  {
  }

  /** The hypothesis of the theorem does not hold. */
  lemma SwappedIsOutOfOrder()
    ensures !UsesInOrder(Swapped().shader)
  {
    hide *;
    Shape();
    NamesOfGlobals();
    TexturesAreUsed();
    OutOfOrder(Swapped().shader);
  }

  lemma OutOfOrder(sh: Shader)
    requires |sh.funcs| == 2 && sh.funcs[0].name == "shade" && Declared(sh, Textures) == ["picture", "video"]
    requires Uses(sh, 0, Textures) == ["video", "picture"]
    ensures !UsesInOrder(sh)
  {
    hide Declared, Uses;
    var decl, uses := ["picture", "video"], ["video", "picture"];
    assert decl[0] == uses[1] && decl[1] == uses[0] && Before(decl, uses[1], uses[0]);
    assert "picture"[0] != "video"[0] && uses[..0] == [] && uses[1] !in uses[..0];
    assert !FirstUsesInOrder(decl, uses);
    assert "shade"[0] != "main"[0];
  }

  // ---------------------------------------------------------------------------------------------------------
  // What is emitted for it

  lemma NeedsAre()
    ensures |Swapped().shader.funcs| == 2
    ensures var fd := FinalData(Swapped().shader, 0);
      fd.Needs(Uniforms) == [] && fd.Needs(Textures) == ["video", "picture"] && fd.Needs(Samplers) == ["smp"]
  {
    hide *;
    Shape();
    NamesOfGlobals();
    SwappedIsWellFormed();
    TexturesAreUsed();
    var sh := Swapped().shader;
    NeedsAreUses(sh, 0, Textures);
    NeedsAreUses(sh, 0, Uniforms);
    NeedsAreUses(sh, 0, Samplers);
    SamplerIsUsed();
    TwoUnique();
    OnlyFrom([], Uses(sh, 0, Uniforms), "");
    OnlyFrom(["smp"], Uses(sh, 0, Samplers), "smp");
  }

  lemma TwoUnique()
    ensures Unique(["video", "picture"]) == ["video", "picture"]
  {
    assert "video"[0] != "picture"[0];
    assert ["video", "picture"][..1] == ["video"] && ["video"][..0] == [];
  }

  /** Uses of nothing, or of one thing. */
  lemma OnlyFrom(decl: seq<string>, uses: seq<string>, c: string)
    requires DeclaredIn(decl, uses) && (decl == [] || (decl == [c] && c in uses))
    ensures Unique(uses) == decl
  {
    UniqueOfConstant(uses, c);
  }

  lemma SamplerIsUsed()
    ensures |Swapped().shader.funcs| == 2 && "smp" in Uses(Swapped().shader, 0, Samplers)
  {
    hide *;
    Shape();
    NamesOfGlobals();
    BodyIs(0);
    var sh := Swapped().shader;
    SamplerIsNamed();
    assert Name("smp") in BodyTokens(Helper()) + [END];
    SamplerUse(sh);
  }

  lemma SamplerIsNamed()
    ensures Name("smp") in BodyTokens(Helper())
  {
    HelperTokens();
    hide BodyTokens, Helper;
    assert BETWEEN[3] == Name("smp");
  }

  lemma SamplerUse(sh: Shader)
    requires |sh.funcs| > 0 && Name("smp") in Body(sh.funcs[0]) && Declared(sh, Samplers) == ["smp"]
    ensures "smp" in Uses(sh, 0, Samplers)
  {
    hide Declared, Body, Analyze;
    OccurrencesElements(sh, Analyze(sh, 0), Samplers, Body(sh.funcs[0]), "smp");
    assert "smp" in TokenNeeds(sh, Analyze(sh, 0), Samplers, Name("smp"));
  }

  const DECLARED := ["picture", "video", "smp"]
  const PASSED := ["video", "picture", "smp"]

  lemma ExtrasAre(i: nat)
    requires i < 2
    ensures |Swapped().shader.funcs| == 2 && Extras(Swapped().shader, i) == DECLARED
  {
    hide *;
    Shape();
    NamesOfGlobals();
    NeedsAre();
    ExtrasHere(Swapped().shader, i);
  }

  lemma ExtrasHere(sh: Shader, i: nat)
    requires |sh.funcs| == 2 && i < 2 && sh.funcs[0].name == "shade" && sh.funcs[1].name == "main"
    requires Declared(sh, Uniforms) == [] && Declared(sh, Textures) == ["picture", "video"]
    requires Declared(sh, Samplers) == ["smp"]
    requires var fd := FinalData(sh, 0);
      fd.Needs(Uniforms) == [] && fd.Needs(Textures) == ["video", "picture"] && fd.Needs(Samplers) == ["smp"]
    ensures Extras(sh, i) == DECLARED
  {
    KeepThese();
    hide Declared, FinalData, Keep;
    assert "shade"[0] != "main"[0];
    assert [] + ["picture", "video"] + ["smp"] == DECLARED;
  }

  lemma KeepThese()
    ensures Keep([], []) == [] && Keep(["smp"], ["smp"]) == ["smp"]
    ensures Keep(["picture", "video"], ["video", "picture"]) == ["picture", "video"]
  {
    assert ["picture", "video"][1..] == ["video"] && ["video"][1..] == [];
  }

  lemma ArgumentsOfHelper()
    ensures DataOf(FinalAnalysis(Swapped().shader), "shade").AdditionalArguments() == PASSED
  {
    hide *;
    Shape();
    NeedsAre();
    PassedHere(Swapped().shader);
  }

  lemma PassedHere(sh: Shader)
    requires |sh.funcs| == 2 && sh.funcs[0].name == "shade"
    requires var fd := FinalData(sh, 0);
      fd.Needs(Uniforms) == [] && fd.Needs(Textures) == ["video", "picture"] && fd.Needs(Samplers) == ["smp"]
    ensures DataOf(FinalAnalysis(sh), "shade").AdditionalArguments() == PASSED
  {
    assert [] + ["video", "picture"] + ["smp"] == PASSED;
    hide FinalAnalysis;
  }

  function LiftedSample(texture: string): M.Expr {
    M.Method(M.Name(texture), "sample", [M.Name("smp"), M.Name("uv")])
  }

  function LiftedCall(): M.Expr {
    M.Call("shade", [M.Name("uv"), M.Name("video"), M.Name("picture"), M.Name("smp")])
  }

  /** The signature has the textures in the order of their declaration, the call has them in the order of their use. */
  lemma LiftedSwapped()
    ensures var q := LiftProgram(Swapped());
      && |q.names| == |q.params| == |q.bodies| == 2 && q.names == ["shade", "main"]
      && q.params[0] == q.params[1] == ["uv", "picture", "video", "smp"]
      && q.bodies[0] == [M.Return(M.Infix("-", LiftedSample("video"), LiftedSample("picture")))]
      && q.bodies[1] == [M.Return(LiftedCall())]
  {
    hide *;
    Shape();
    SignatureIs(0);
    SignatureIs(1);
    ArgumentsOfHelper();
    E.LiftedParts(Swapped(), 0);
    E.LiftedParts(Swapped(), 1);
    NamesAre(Swapped());
    HelperIs(Swapped().shader, FinalAnalysis(Swapped().shader));
    MainIs(Swapped().shader, FinalAnalysis(Swapped().shader));
  }

  lemma NamesAre(p: Program)
    requires |p.bodies| == |p.shader.funcs| == 2
    requires p.shader.funcs[0].name == "shade" && p.shader.funcs[1].name == "main"
    ensures LiftProgram(p).names == ["shade", "main"] && |LiftProgram(p).params| == |LiftProgram(p).bodies| == 2
  {
  }

  lemma SignatureIs(i: nat)
    requires i < 2
    ensures |Swapped().shader.funcs| == 2
    ensures var sh := Swapped().shader; Signature(sh, FinalData(sh, i), sh.funcs[i]) == ["uv", "picture", "video",
         "smp"]
  {
    hide *;
    Shape();
    ExtrasAre(i);
    SignatureEndsWithExtras(Swapped().shader, i);
    assert ["uv"] + DECLARED == ["uv", "picture", "video", "smp"] by { DeclaredAre(); }
  }

  lemma DeclaredAre()
    ensures ["uv"] + DECLARED == ["uv", "picture", "video", "smp"]
  {
  }

  lemma HelperIs(sh: Shader, data: Analysis)
    ensures LiftBody(sh, data, Helper())
         == [M.Return(M.Infix("-", LiftedSample("video"), LiftedSample("picture")))]
  {
    SampleIs(data, "video");
    SampleIs(data, "picture");
    hide SampleOf, LiftedSample;
    var ss := Helper();
    assert Lift(data, ss[0].value) == M.Infix("-", LiftedSample("video"), LiftedSample("picture"));
    hide Lift;
    assert LiftBody(sh, data, ss[1..]) == [];
  }

  lemma SampleIs(data: Analysis, t: string)
    ensures Lift(data, SampleOf(t)) == LiftedSample(t)
  {
    assert LiftEach(data, [Handle("smp"), Local("uv")]) == [M.Name("smp"), M.Name("uv")];
    assert "Sample" != "Load";
  }

  lemma MainIs(sh: Shader, data: Analysis)
    requires DataOf(data, "shade").AdditionalArguments() == PASSED
    ensures LiftBody(sh, data, Main()) == [M.Return(LiftedCall())]
  {
    var ss := Main();
    CallIs(data);
    hide Lift;
    assert LiftBody(sh, data, ss[1..]) == [];
  }

  lemma CallIs(data: Analysis)
    requires DataOf(data, "shade").AdditionalArguments() == PASSED
    ensures Lift(data, Call("shade", [Local("uv")])) == LiftedCall()
  {
    hide *;
    HelperName();
    E.LiftedCall(data, "shade", [Local("uv")]);
    OneArgument(data);
  }

  lemma HelperName()
    ensures MetalName("shade") == "shade" && "shade" != "mul" && "shade" != "mad" && "shade" != "int3"
  {
    OrdinaryName("shade");
  }

  lemma OneArgument(data: Analysis)
    ensures M.Call("shade", LiftEach(data, [Local("uv")]) + Names(PASSED)) == LiftedCall()
  {
    assert LiftEach(data, [Local("uv")]) == [M.Name("uv")];
    assert Names(PASSED) == [M.Name("video"), M.Name("picture"), M.Name("smp")];
  }
}
