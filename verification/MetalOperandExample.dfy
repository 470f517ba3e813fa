/** A shader with a `mul` that has one operand. The translation takes the tokens behind it for the second one, runs over
    the closing brace of the function and through the next function to the end of the file, and so writes a uniform into
    a function that has no uniform buffer. */
module MetalOperandExample {
  import opened ShaderTokens
  import opened MetalTranspiler
  import opened MetalAnalysis
  import opened MetalBodies
  import opened MetalScoping
  import opened MetalSyntax
  import opened MetalRendering
  import opened MetalComparisons

  /** `u; }` */
  const MAIN := [Name("u"), SEMICOLON, END]

  /** `main(v) {`, and the body of `main`. */
  const BEHIND := [Name("main")] + ([OPEN] + ([Name("v")] + ([CLOSE] + ([BEGIN] +
                  ([Name("u"), SEMICOLON] + ([END] + []))))))

  /** `a; }`, and what stands behind the function. */
  const TAIL := [Name("a")] + ([SEMICOLON] + ([END] + BEHIND))

  /** `a), a; }` */
  const ARGS := [Name("a")] + ([CLOSE] + ([COMMA] + ([SPACE] + TAIL)))

  /** `mul(a), a; }` */
  const BODY := [Name("mul")] + ([OPEN] + ARGS)

  function Example(): Shader {
    Shader(false, [UniformVar("u", "float")], [], {}, [Func("helper", ["a"], BODY), Func("main", ["v"], MAIN)])
  }

  lemma Shape()
    ensures var sh := Example();
      && |sh.funcs| == 2 && sh.funcs[0] == Func("helper", ["a"], BODY) && sh.funcs[1] == Func("main", ["v"], MAIN)
      && sh.inOutStructs == {} && UniformNames(sh) == ["u"] && TextureNames(sh) == []
      && Declared(sh, Uniforms) == ["uniforms"] && Declared(sh, Textures) == [] && Declared(sh, Samplers) == []
  {
    var sh := Example();
    assert NamesOf(sh, sh.uniformVars[1..], true) == NamesOf(sh, sh.uniformVars[1..], false) == [];
  }

  lemma Marks()
    ensures Stop("}") && Stop(")") && Stop(",") && OPEN.text == "(" && CLOSE.text == ")" && COMMA.text == ","
    ensures SEMICOLON.text == ";" && SPACE.text == " " && BEGIN.text == "{" && END.text == "}"
    ensures !SEMICOLON.Name? && !COMMA.Name? && !CLOSE.Name? && !END.Name? && !SPACE.Name? && !OPEN.Name?
    ensures !BEGIN.Name?
    ensures forall t :: t in [SEMICOLON, COMMA, CLOSE, END, SPACE] ==> t != BEGIN && t != OPEN
    ensures forall n: string :: Name(n) != BEGIN && Name(n) != OPEN
    ensures SPACE.Blank? && !OPEN.Blank? && !SEMICOLON.Blank?
  {
  }

  lemma OrdinaryName(n: string)
    requires n in ["a", "v", "main", "u"]
    ensures PlainName(Example(), n) && (n in UniformNames(Example()) <==> n == "u")
  {
    hide *;
    Shape();
    OrdinaryHere(Example(), n);
  }

  lemma OrdinaryHere(sh: Shader, n: string)
    requires n in ["a", "v", "main", "u"] && UniformNames(sh) == ["u"] && TextureNames(sh) == []
    requires sh.inOutStructs == {}
    ensures PlainName(sh, n) && (n in UniformNames(sh) <==> n == "u")
  {
    hide UniformNames, TextureNames;
  }

  // ---------------------------------------------------------------------------------------------------------
  // The translation

  lemma Prefixes()
    ensures forall a, b, last, rest :: Prefixed(a, Ok(Chunk(b, last, rest))) == Ok(Chunk(a + b, last, rest))
  {
  }

  lemma NoMarkCompares()
    ensures NoComparison([]) && forall t, ts :: t in [SEMICOLON, COMMA, CLOSE, OPEN] ==> NoComparison([t] + ts)
  {
  }

  /** The first operand runs to the comma behind the parenthesis of the call. */
  lemma FirstOperand(sh: Shader, data: Analysis)
    requires sh == Example()
    ensures Transpile(sh, data, OPEN, ARGS, ",") == Ok(Chunk([Copied("a"), Text(")")], COMMA, [SPACE] + TAIL))
  {
    hide *;
    Marks();
    Prefixes();
    NoMarkCompares();
    OrdinaryName("a");
    ArgsAre();
    StopStep(sh, data, CLOSE, COMMA, [SPACE] + TAIL);
    MarkStep(sh, data, Name("a"), CLOSE, [COMMA] + ([SPACE] + TAIL), ",");
    PlainStep(sh, data, OPEN, "a", [CLOSE] + ([COMMA] + ([SPACE] + TAIL)), ",");
    assert [Copied("a")] + ([Text(")")] + []) == [Copied("a"), Text(")")];
  }

  lemma ArgsAre()
    ensures ARGS == [Name("a")] + ([CLOSE] + ([COMMA] + ([SPACE] + TAIL))) && BODY == [Name("mul")] + ([OPEN] + ARGS)
    ensures TAIL == [Name("a")] + ([SEMICOLON] + ([END] + BEHIND))
    ensures BEHIND == [Name("main")] + ([OPEN] + ([Name("v")] + ([CLOSE] + ([BEGIN] + ([Name("u"), SEMICOLON]
                                                                                     + ([END] + []))))))
  {
  }

  /** What the definition of `main` is printed as; `args` is what stands between its parentheses. */
  function PrintedBehind(args: seq<Piece>): seq<Piece> {
    [Copied("main")] + (([Text("(")] + args + [Text(")")])
    + (([Text("{")] + ([UniformRef("u")] + ([Text(";")] + [])) + [Text("}")]) + []))
  }

  function Printed(args: seq<Piece>): seq<Piece> {
    [Copied("a")] + ([Text(";")] + ([Text("}")] + PrintedBehind(args)))
  }

  lemma BlockIs(sh: Shader, data: Analysis)
    requires sh == Example()
    ensures Transpile(sh, data, BEGIN, [Name("u"), SEMICOLON] + ([END] + []), "}")
         == Ok(Chunk([UniformRef("u")] + ([Text(";")] + []), END, []))
  {
    hide *;
    Marks();
    Prefixes();
    OrdinaryName("u");
    StopStep(sh, data, SEMICOLON, END, []);
    MarkStep(sh, data, Name("u"), SEMICOLON, [END] + [], "}");
    UniformStep(sh, data, BEGIN, "u", [SEMICOLON] + ([END] + []), "}");
    assert [Name("u"), SEMICOLON] + ([END] + []) == [Name("u")] + ([SEMICOLON] + ([END] + []));
  }

  lemma NothingIsLeft(sh: Shader, data: Analysis, prev: Token, end: string)
    ensures Transpile(sh, data, prev, [], end) == Ok(Chunk([], NONE, []))
  {
  }

  lemma ParameterIs(sh: Shader, data: Analysis, post: seq<Token>)
    requires sh == Example()
    ensures Transpile(sh, data, OPEN, [Name("v")] + ([CLOSE] + post), ")") == Ok(Chunk([Copied("v")], CLOSE, post))
    ensures CallArguments(data, "main", [Copied("v")]).Ok?
  {
    hide *;
    Marks();
    Prefixes();
    NoMarkCompares();
    OrdinaryName("v");
    StopStep(sh, data, Name("v"), CLOSE, post);
    PlainStep(sh, data, OPEN, "v", [CLOSE] + post, ")");
    assert [Copied("v")] + [] == [Copied("v")];
    ArgumentsStand(data, [Copied("v")]);
  }

  lemma ArgumentsStand(data: Analysis, ps: seq<Piece>)
    ensures CallArguments(data, "main", ps).Ok?
  {
    hide DataOf;
  }

  lemma PrefixIs(a: seq<Piece>, b: seq<Piece>)
    ensures Prefixed(a, Ok(Chunk(b, NONE, []))) == Ok(Chunk(a + b, NONE, []))
  {
  }

  /** The definition of `main` is walked over to the end of the file. */
  lemma BehindIs(sh: Shader, data: Analysis)
    requires sh == Example()
    ensures CallArguments(data, "main", [Copied("v")]).Ok?
    ensures Transpile(sh, data, END, BEHIND, ")")
         == Ok(Chunk(PrintedBehind(CallArguments(data, "main", [Copied("v")]).value), NONE, []))
  {
    hide *;
    Marks();
    NoMarkCompares();
    ArgsAre();
    OrdinaryName("main");
    var block, printed := [Name("u"), SEMICOLON] + ([END] + []), [UniformRef("u")] + ([Text(";")] + []);
    ParameterIs(sh, data, [BEGIN] + block);
    BlockIs(sh, data);
    NothingIsLeft(sh, data, END, ")");
    var args := CallArguments(data, "main", [Copied("v")]).value;
    BlockStep(sh, data, CLOSE, [Name("u"), SEMICOLON], [], ")", printed);
    PrefixIs([Text("{")] + printed + [Text("}")], []);
    ParenStep(sh, data, Name("main"), [Name("v")], [BEGIN] + block, ")", [Copied("v")], args);
    PrefixIs([Text("(")] + args + [Text(")")], ([Text("{")] + printed + [Text("}")]) + []);
    PlainStep(sh, data, END, "main", [OPEN] + ([Name("v")] + ([CLOSE] + ([BEGIN] + block))), ")");
    PrefixIs([Copied("main")], ([Text("(")] + args + [Text(")")]) + (([Text("{")] + printed + [Text("}")]) + []));
    PrintedIs(args);
  }

  /** The second operand runs over the closing brace to the end of the file. */
  lemma SecondOperand(sh: Shader, data: Analysis)
    requires sh == Example()
    ensures CallArguments(data, "main", [Copied("v")]).Ok?
    ensures Transpile(sh, data, SPACE, TAIL, ")")
         == Ok(Chunk(Printed(CallArguments(data, "main", [Copied("v")]).value), NONE, []))
  {
    hide *;
    Marks();
    NoMarkCompares();
    ArgsAre();
    OrdinaryName("a");
    BehindIs(sh, data);
    var args := CallArguments(data, "main", [Copied("v")]).value;
    MarkStep(sh, data, SEMICOLON, END, BEHIND, ")");
    PrefixIs([Text("}")], PrintedBehind(args));
    MarkStep(sh, data, Name("a"), SEMICOLON, [END] + BEHIND, ")");
    PrefixIs([Text(";")], [Text("}")] + PrintedBehind(args));
    PlainStep(sh, data, SPACE, "a", [SEMICOLON] + ([END] + BEHIND), ")");
    PrefixIs([Copied("a")], [Text(";")] + ([Text("}")] + PrintedBehind(args)));
    PrintedIs(args);
  }

  lemma PrintedIs(args: seq<Piece>)
    ensures PrintedBehind(args) == [Copied("main")] + (([Text("(")] + args + [Text(")")])
      + (([Text("{")] + ([UniformRef("u")] + ([Text(";")] + [])) + [Text("}")]) + []))
    ensures Printed(args) == [Copied("a")] + ([Text(";")] + ([Text("}")] + PrintedBehind(args)))
    ensures UniformRef("u") in Printed(args)
  {
    var block := [Text("{")] + ([UniformRef("u")] + ([Text(";")] + [])) + [Text("}")];
    assert block[1] == UniformRef("u");
  }

  /** The product is printed with the rest of the file in it. */
  lemma ExampleEmits()
    ensures |Example().funcs| == 2 && EmittedBody(Example(), 0).Ok?
    ensures EmittedBody(Example(), 0).value.rest == [] && UniformRef("u") in EmittedBody(Example(), 0).value.out
  {
    hide *;
    Shape();
    var sh, data := Example(), FinalAnalysis(Example());
    FirstOperand(sh, data);
    SecondOperand(sh, data);
    var b := Printed(CallArguments(data, "main", [Copied("v")]).value);
    ProductIs(sh, data, [Copied("a"), Text(")")], b);
    ProductStep(sh, data, BEGIN, BODY) by { ArgsAre(); }
    ArgsAre();
    Marks();
    FirstStep(sh, data, BEGIN, Name("mul"), [OPEN] + ARGS, "}");
    NothingIsLeft(sh, data, NONE, "}");
    FollowsIs(sh, data, Step(sh, data, BEGIN, BODY).value);
    PrintedIs(CallArguments(data, "main", [Copied("v")]).value);
    EmittedIs(sh);
  }

  lemma EmittedIs(sh: Shader)
    requires |sh.funcs| > 0
    ensures EmittedBody(sh, 0) == Transpile(sh, FinalAnalysis(sh), BEGIN, sh.funcs[0].body, "}")
  {
    hide Transpile;
  }

  lemma ProductIs(sh: Shader, data: Analysis, a: seq<Piece>, b: seq<Piece>)
    requires Transpile(sh, data, OPEN, ARGS, ",") == Ok(Chunk(a, COMMA, [SPACE] + TAIL))
    requires Transpile(sh, data, SPACE, TAIL, ")") == Ok(Chunk(b, NONE, []))
    ensures Multiplication(sh, data, BODY) == Ok(Chunk([Text("(")] + a + [Text(") * (")] + b + [Text(")")], NONE, []))
  {
    hide Transpile, SecondFactor;
    assert BODY[1..] == [OPEN] + ARGS && ([OPEN] + ARGS)[1..] == ARGS;
    assert OpenCall(BODY[1..]) == [OPEN] + ARGS;
    SecondIs(sh, data, b);
  }

  lemma SecondIs(sh: Shader, data: Analysis, b: seq<Piece>)
    requires Transpile(sh, data, SPACE, TAIL, ")") == Ok(Chunk(b, NONE, []))
    ensures SecondFactor(sh, data, COMMA, [SPACE] + TAIL) == Ok(Chunk(b, NONE, []))
  {
    hide Transpile;
    assert ([SPACE] + TAIL)[1..] == TAIL && SkipBlanks([SPACE] + TAIL) == TAIL;
  }

  lemma FollowsIs(sh: Shader, data: Analysis, step: Chunk)
    requires step.rest == [] && Transpile(sh, data, step.last, [], "}") == Ok(Chunk([], NONE, []))
    ensures Follow(sh, data, Ok(step), "}") == Ok(Chunk(step.out, NONE, []))
  {
    hide Transpile;
    assert step.out + [] == step.out;
  }

  // ---------------------------------------------------------------------------------------------------------
  // The analysis

  lemma SkipIs()
    ensures SkipTo(BODY, "}") == BEHIND
  {
    hide *;
    Marks();
    ArgsAre();
    SkipClose(END, BEHIND);
    SkipMark(SEMICOLON, [END] + BEHIND, "}");
    SkipMark(Name("a"), [SEMICOLON] + ([END] + BEHIND), "}");
    SkipMark(SPACE, TAIL, "}");
    SkipMark(COMMA, [SPACE] + TAIL, "}");
    SkipClose(CLOSE, [COMMA] + ([SPACE] + TAIL));
    SkipMark(Name("a"), [CLOSE] + ([COMMA] + ([SPACE] + TAIL)), ")");
    SkipParen([Name("a")], [COMMA] + ([SPACE] + TAIL), "}");
    SkipMark(Name("mul"), [OPEN] + ARGS, "}");
  }

  lemma BodyIs()
    ensures Body(Func("helper", ["a"], BODY))
         == [Name("mul"), OPEN, Name("a"), CLOSE, COMMA, SPACE, Name("a"), SEMICOLON, END]
  {
    SkipIs();
    hide SkipTo;
    assert |BODY| - |BEHIND| == 9;
    assert BODY[..9] == [Name("mul"), OPEN, Name("a"), CLOSE, COMMA, SPACE, Name("a"), SEMICOLON, END];
  }

  lemma MainBodyIs()
    ensures Body(Func("main", ["v"], MAIN)) == MAIN
  {
    hide *;
    Marks();
    SkipClose(END, []);
    SkipMark(SEMICOLON, [END], "}");
    SkipMark(Name("u"), [SEMICOLON, END], "}");
    MainIs();
    AllOfIt(Func("main", ["v"], MAIN));
  }

  lemma MainIs()
    ensures MAIN == [Name("u")] + [SEMICOLON, END] && [SEMICOLON, END] == [SEMICOLON] + [END] && [END] == [END] + []
  {
  }

  lemma AllOfIt(f: Func)
    requires SkipTo(f.body, "}") == []
    ensures Body(f) == f.body
  {
    hide SkipTo;
  }

  /** Spelled like what it is. */
  ghost predicate Fine(t: Token) {
    && (t.Name? ==> t.text !in ["}", ")", ",", "(", "."])
    && (t.text in {"(", ")", "{", "}", ","} ==> t.Other?)
  }

  lemma AllAreFine()
    ensures forall t :: t in BODY ==> Fine(t)
    ensures forall t :: t in MAIN ==> Fine(t)
  {
    EachIsFine();
    hide Fine;
    assert BODY == [Name("mul"), OPEN, Name("a"), CLOSE, COMMA, SPACE, Name("a"), SEMICOLON, END, Name("main"), OPEN,
                    Name("v"), CLOSE, BEGIN, Name("u"), SEMICOLON, END];
  }

  lemma EachIsFine()
    ensures Fine(OPEN) && Fine(CLOSE) && Fine(COMMA) && Fine(SPACE) && Fine(SEMICOLON) && Fine(BEGIN) && Fine(END)
    ensures Fine(Name("mul")) && Fine(Name("a")) && Fine(Name("v")) && Fine(Name("u")) && Fine(Name("main"))
  {
  }

  lemma FineIsLexed(ts: seq<Token>)
    requires forall t :: t in ts ==> Fine(t)
    ensures Lexed(ts) && Lexical(ts) && Ordinary(ts)
  {
    assert forall k :: 0 <= k < |ts| ==> ts[k] in ts && Fine(ts[k]);
  }

  lemma LexedBodies()
    ensures Lexed(BODY) && Lexed(MAIN) && Lexical(BODY) && Ordinary(BODY)
  {
    hide *;
    AllAreFine();
    FineIsLexed(BODY);
    FineIsLexed(MAIN);
  }

  lemma ExampleIsWellFormed()
    ensures WellFormed(Example()) && CallsByName(Example(), 0) && GlobalsByName(Example(), 0)
  {
    hide *;
    Shape();
    BodyIs();
    MainBodyIs();
    LexedBodies();
    WellFormedHere(Example());
    NamedHere(Example());
  }

  lemma WellFormedHere(sh: Shader)
    requires |sh.funcs| == 2 && sh.funcs[0] == Func("helper", ["a"], BODY) && sh.funcs[1] == Func("main", ["v"], MAIN)
    requires Body(sh.funcs[0]) == [Name("mul"), OPEN, Name("a"), CLOSE, COMMA, SPACE, Name("a"), SEMICOLON, END]
    requires Body(sh.funcs[1]) == MAIN && Lexed(BODY) && Lexed(MAIN)
    requires Declared(sh, Uniforms) == ["uniforms"] && Declared(sh, Textures) == [] && Declared(sh, Samplers) == []
    ensures WellFormed(sh)
  {
    hide Declared, Body, BODY, Lexed;
    forall kind ensures Distinct(Declared(sh, kind)) {
      match kind case Uniforms => case Textures => case Samplers =>
    }
    assert Name("main") !in MAIN && Name("helper") !in MAIN;
  }

  lemma NamedHere(sh: Shader)
    requires |sh.funcs| == 2 && sh.funcs[0] == Func("helper", ["a"], BODY) && sh.funcs[1] == Func("main", ["v"], MAIN)
    requires Body(sh.funcs[0]) == [Name("mul"), OPEN, Name("a"), CLOSE, COMMA, SPACE, Name("a"), SEMICOLON, END]
    requires Ordinary(BODY) && Declared(sh, Textures) == [] && Declared(sh, Samplers) == []
    ensures CallsByName(sh, 0) && GlobalsByName(sh, 0)
  {
    hide Declared, Body, BODY, MAIN, Ordinary;
    assert forall f :: f in sh.funcs ==> f.name == "main" || f.name == "helper";
  }

  /** The function needs nothing, so it has no extra parameter. */
  lemma SignatureIs()
    ensures |Example().funcs| == 2
    ensures Signature(Example(), FinalData(Example(), 0), Example().funcs[0]) == ["a"]
  {
    hide *;
    Shape();
    ExampleIsWellFormed();
    var sh := Example();
    if "uniforms" in FinalData(sh, 0).Needs(Uniforms) {
      var n := NeedHasSource(sh, 0, Uniforms, "uniforms");
      BodyIs();
      Mentioned(sh, n);
      EntryEmpty(sh, 0, n);
      NothingNeeded(sh, n);
      assert false;
    }
    HelperSignature(sh);
  }

  lemma Mentioned(sh: Shader, n: string)
    requires |sh.funcs| == 2 && sh.funcs[0].name == "helper" && sh.funcs[1].name == "main" && Mentions(sh, 0, n)
    requires Body(sh.funcs[0]) == [Name("mul"), OPEN, Name("a"), CLOSE, COMMA, SPACE, Name("a"), SEMICOLON, END]
    ensures n == "mul" || n == "a"
    ensures forall k :: 0 <= k < |sh.funcs| ==> sh.funcs[k].name != n
  {
    hide Body;
  }

  lemma NothingNeeded(sh: Shader, n: string)
    requires (n == "mul" || n == "a") && UniformNames(sh) == ["u"] && DataOf(Analyze(sh, 0), n) == NO_NEEDS
    ensures Own(sh, Uniforms, n) == [] && DataOf(Analyze(sh, 0), n).Needs(Uniforms) == []
  {
    hide UniformNames, Analyze, DataOf;
  }

  lemma HelperSignature(sh: Shader)
    requires |sh.funcs| == 2 && sh.funcs[0] == Func("helper", ["a"], BODY)
    requires Declared(sh, Uniforms) == ["uniforms"] && Declared(sh, Textures) == [] && Declared(sh, Samplers) == []
    requires "uniforms" !in FinalData(sh, 0).Needs(Uniforms)
    ensures Signature(sh, FinalData(sh, 0), sh.funcs[0]) == ["a"]
  {
    hide Declared, FinalData;
    assert Keep(["uniforms"], FinalData(sh, 0).Needs(Uniforms)) == Keep([], FinalData(sh, 0).Needs(Uniforms));
    assert ["a"] + [] + [] + [] == ["a"];
  }

  // ---------------------------------------------------------------------------------------------------------
  // What goes wrong

  lemma NotComplete()
    ensures !Complete(Example(), BODY, "}")
  {
    hide *;
    Marks();
    ArgsAre();
    OneOperand(Example());
    NoCommaBefore();
    CompleteInner(Example(), BODY, "}", ARGS, ")");
    TooFew(Example(), BODY);
  }

  lemma OneOperand(sh: Shader)
    ensures BODY != [] && BODY[0].text != "}" && FormOf(sh, BODY) == Form.Call(1, ARGS) && Inner(sh, BODY, ARGS, ")")
  {
    assert BODY[1..] == [OPEN] + ARGS && ([OPEN] + ARGS)[1..] == ARGS;
    assert OpenCall(BODY[1..]) == [OPEN] + ARGS;
  }

  lemma NoCommaBefore()
    ensures Commas(ARGS) == 0
  {
    assert ARGS[0] == Name("a") && ARGS[1..][0] == CLOSE;
  }

  lemma TooFew(sh: Shader, ts: seq<Token>)
    requires ts != [] && FormOf(sh, ts).Call? && Commas(FormOf(sh, ts).args) < FormOf(sh, ts).commas
    ensures !Enough(sh, ts)
  {
    hide FormOf, Commas;
  }

  lemma NothingIsCompared(sh: Shader, body: seq<Token>)
    requires body == [Name("mul"), OPEN, Name("a"), CLOSE, COMMA, SPACE, Name("a"), SEMICOLON, END]
    ensures forall k: nat :: !RawUniform(sh, body, k)
  {
    hide Bare, UniformNames;
  }

  lemma OutOfScope(sh: Shader, params: seq<string>)
    requires params == ["a"]
    ensures !InScope(sh, params, UniformRef("u"))
  {
  }

  /** The body has no comparison, and the analysis stops at its closing brace and finds no uniform in it. The text that
      is emitted for it refers to the uniform of the next function, but the function has no uniform buffer. */
  lemma ExampleIsOutOfScope()
    ensures var sh := Example();
      && |sh.funcs| == 2 && WellFormed(sh) && CallsByName(sh, 0) && GlobalsByName(sh, 0) && Lexical(BODY)
      && sh.funcs[0].body == BODY && !Complete(sh, BODY, "}")
      && (forall k: nat :: !RawUniform(sh, Body(sh.funcs[0]), k))
      && EmittedBody(sh, 0).Ok? && EmittedBody(sh, 0).value.rest == [] && SkipTo(BODY, "}") == BEHIND
      && UniformRef("u") in EmittedBody(sh, 0).value.out
      && !InScope(sh, Signature(sh, FinalData(sh, 0), sh.funcs[0]), UniformRef("u"))
  {
    hide *;
    Shape();
    ExampleIsWellFormed();
    LexedBodies();
    NotComplete();
    BodyIs();
    NothingIsCompared(Example(), Body(Example().funcs[0]));
    ExampleEmits();
    SkipIs();
    SignatureIs();
    OutOfScope(Example(), ["a"]);
  }
}
