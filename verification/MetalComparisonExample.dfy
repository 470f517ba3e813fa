/** A shader whose emitted text refers to a uniform that is not there: it compares `n<u`, with the uniform `u`. */
module MetalComparisonExample {
  import opened ShaderTokens
  import opened MetalTranspiler
  import opened MetalAnalysis
  import opened MetalBodies
  import opened MetalScoping
  import opened MetalSyntax
  import opened MetalRendering
  import opened MetalComparisons

  const LESS := Other("<")

  /** `return n<u; }` */
  const BODY := [Name("return"), SPACE, Name("n"), LESS, Name("u"), SEMICOLON, END]

  function Example(): Shader {
    Shader(true, [UniformVar("u", "float")], [], {}, [Func("main", ["n"], BODY)])
  }

  lemma Shape()
    ensures var sh := Example();
      && |sh.funcs| == 1 && sh.funcs[0] == Func("main", ["n"], BODY) && sh.inOutStructs == {}
      && UniformNames(sh) == ["u"] && TextureNames(sh) == [] && Declared(sh, Uniforms) == ["uniforms"]
      && Declared(sh, Textures) == [] && Declared(sh, Samplers) == []
  {
    var sh := Example();
    assert !("texture" <= "float");
    assert NamesOf(sh, sh.uniformVars[1..], true) == NamesOf(sh, sh.uniformVars[1..], false) == [];
  }

  lemma OrdinaryName(n: string)
    requires n in ["return", "n", "u"]
    ensures PlainName(Example(), n) && (n in UniformNames(Example()) <==> n == "u")
  {
    hide *;
    Shape();
    OrdinaryHere(Example(), n);
  }

  lemma OrdinaryHere(sh: Shader, n: string)
    requires n in ["return", "n", "u"] && UniformNames(sh) == ["u"] && TextureNames(sh) == [] && sh.inOutStructs == {}
    ensures PlainName(sh, n) && (n in UniformNames(sh) <==> n == "u")
  {
    hide UniformNames, TextureNames;
  }

  lemma BodyIs()
    ensures Body(Func("main", ["n"], BODY)) == BODY && SkipTo(BODY, "}") == []
  {
    hide *;
    SplitBody();
    Closing();
    var last := [Name("u"), SEMICOLON, END];
    SkipClose(END, []);
    SkipMark(SEMICOLON, [END], "}");
    SkipMark(Name("u"), [SEMICOLON, END], "}");
    SkipMark(LESS, last, "}");
    SkipMark(Name("n"), [LESS] + last, "}");
    SkipMark(SPACE, [Name("n"), LESS] + last, "}");
    SkipMark(Name("return"), [SPACE] + ([Name("n"), LESS] + last), "}");
    WholeBody(Func("main", ["n"], BODY));
  }

  lemma WholeBody(f: Func)
    requires SkipTo(f.body, "}") == []
    ensures Body(f) == f.body
  {
    hide SkipTo;
  }

  lemma ExampleIsWellFormed()
    ensures WellFormed(Example()) && CallsByName(Example(), 0) && GlobalsByName(Example(), 0)
  {
    hide *;
    Shape();
    BodyIs();
    ConditionsHold(Example());
  }

  lemma ConditionsHold(sh: Shader)
    requires |sh.funcs| == 1 && sh.funcs[0] == Func("main", ["n"], BODY) && Body(sh.funcs[0]) == BODY
    requires Declared(sh, Uniforms) == ["uniforms"] && Declared(sh, Textures) == [] && Declared(sh, Samplers) == []
    ensures WellFormed(sh) && CallsByName(sh, 0) && GlobalsByName(sh, 0)
  {
    hide *;
    NamesInBody();
    WellFormedHere(sh);
    NamedHere(sh);
  }

  lemma WellFormedHere(sh: Shader)
    requires |sh.funcs| == 1 && sh.funcs[0].name == "main" && Body(sh.funcs[0]) == BODY && sh.funcs[0].body == BODY
    requires Lexed(BODY) && Name("main") !in BODY
    requires Declared(sh, Uniforms) == ["uniforms"] && Declared(sh, Textures) == [] && Declared(sh, Samplers) == []
    ensures WellFormed(sh)
  {
    hide Declared, Body, BODY, Lexed;
    forall kind ensures Distinct(Declared(sh, kind)) {
      match kind case Uniforms => case Textures => case Samplers =>
    }
  }

  lemma NamedHere(sh: Shader)
    requires |sh.funcs| == 1 && sh.funcs[0].name == "main" && Body(sh.funcs[0]) == BODY && sh.funcs[0].body == BODY
    requires Ordinary(BODY) && forall t :: t in BODY ==> t.text != "main" && !(t.Blank? && t.text == "}")
    requires Declared(sh, Textures) == [] && Declared(sh, Samplers) == []
    ensures CallsByName(sh, 0) && GlobalsByName(sh, 0)
  {
    hide Declared, Body, BODY, Ordinary;
    assert forall f :: f in sh.funcs ==> f.name == "main";
  }

  lemma NamesInBody()
    ensures Lexed(BODY) && Ordinary(BODY) && Lexical(BODY) && Name("main") !in BODY
    ensures forall t :: t in BODY ==> t.text != "main" && !(t.Blank? && t.text == "}")
  {
  }

  lemma FirstComplete(sh: Shader, t: Token, ts: seq<Token>)
    requires t.text != "}" && t != BEGIN && t != OPEN && (t.Name? ==> PlainName(sh, t.text))
    ensures Complete(sh, [t] + ts, "}") <==> Complete(sh, ts, "}")
  {
    var all := [t] + ts;
    assert all[1..] == ts;
    IsSingle(sh, all);
    CompletePlain(sh, all, "}");
  }

  lemma IsSingle(sh: Shader, ts: seq<Token>)
    requires ts != [] && (ts[0].Name? ==> PlainName(sh, ts[0].text)) && ts[0] != BEGIN && ts[0] != OPEN
    ensures Plain(sh, ts)
  {
    hide TextureNames, MethodForm, SkipBlanks, OpenCall;
  }

  lemma EndIsComplete(sh: Shader)
    ensures Complete(sh, [END], "}")
  {
  }

  /** Nothing in the body is taken apart. */
  lemma BodyIsComplete()
    ensures Complete(Example(), BODY, "}") && Lexical(BODY)
  {
    hide *;
    var sh, last := Example(), [Name("u"), SEMICOLON, END];
    SplitBody();
    Closing();
    NamesInBody();
    OrdinaryName("return");
    OrdinaryName("n");
    OrdinaryName("u");
    EndIsComplete(sh);
    FirstComplete(sh, SEMICOLON, [END]);
    FirstComplete(sh, Name("u"), [SEMICOLON, END]);
    FirstComplete(sh, LESS, last);
    FirstComplete(sh, Name("n"), [LESS] + last);
    FirstComplete(sh, SPACE, [Name("n"), LESS] + last);
    FirstComplete(sh, Name("return"), [SPACE] + ([Name("n"), LESS] + last));
  }

  /** What is printed for the body. */
  const OUT := [Copied("return"), Text(" "), Compare("n", "<", "u"), Text("<"), UniformRef("u"), Text(";")]

  lemma ExampleEmits()
    ensures |Example().funcs| == 1 && EmittedBody(Example(), 0) == Ok(Chunk(OUT, END, []))
  {
    hide *;
    Shape();
    Emits(Example(), FinalAnalysis(Example()));
    EmittedIs(Example());
  }

  lemma EmittedIs(sh: Shader)
    requires |sh.funcs| > 0
    ensures EmittedBody(sh, 0) == Transpile(sh, FinalAnalysis(sh), BEGIN, sh.funcs[0].body, "}")
  {
    hide Transpile;
  }

  lemma Emits(sh: Shader, data: Analysis)
    requires sh == Example()
    ensures Transpile(sh, data, BEGIN, BODY, "}") == Ok(Chunk(OUT, END, []))
  {
    hide *;
    var last := [Name("u"), SEMICOLON, END];
    SplitBody();
    Closing();
    OrdinaryName("return");
    OrdinaryName("n");
    OrdinaryName("u");
    StopStep(sh, data, SEMICOLON, END, []);
    MarkStep(sh, data, Name("u"), SEMICOLON, [END], "}");
    UniformStep(sh, data, LESS, "u", [SEMICOLON, END], "}");
    MarkStep(sh, data, Name("n"), LESS, last, "}");
    ComparisonStep(sh, data, SPACE, last);
    MarkStep(sh, data, Name("return"), SPACE, [Name("n"), LESS] + last, "}");
    PlainStep(sh, data, BEGIN, "return", [SPACE] + ([Name("n"), LESS] + last), "}");
    OutIs();
    Prefixes();
  }

  lemma SplitBody()
    ensures var last := [Name("u"), SEMICOLON, END];
      && BODY == [Name("return")] + ([SPACE] + ([Name("n"), LESS] + last))
      && last == [Name("u")] + [SEMICOLON, END] && [SEMICOLON, END] == [SEMICOLON] + [END] && [END] == [END] + []
      && NoComparison([SPACE] + ([Name("n"), LESS] + last))
      && [Name("n"), LESS] + last == [Name("n")] + ([LESS] + last)
  {
  }

  lemma Closing()
    ensures Stop("}") && LESS.text != "." && END.text == "}" && SEMICOLON.text == ";" && LESS.text == "<"
    ensures SPACE.text == " " && !LESS.Name? && LESS != BEGIN && LESS != OPEN && !SEMICOLON.Name?
    ensures SEMICOLON != BEGIN && SEMICOLON != OPEN && !SPACE.Name? && SPACE != BEGIN && SPACE != OPEN
    ensures forall n: string :: Name(n) != BEGIN && Name(n) != OPEN
  {
  }

  lemma OutIs()
    ensures OUT == [Copied("return")] + ([Text(" ")] + ([Compare("n", "<", "u")] + ([Text("<")] + ([UniformRef("u")]
                   + ([Text(";")] + [])))))
  {
  }

  lemma Prefixes()
    ensures forall a, b, last, rest :: Prefixed(a, Ok(Chunk(b, last, rest))) == Ok(Chunk(a + b, last, rest))
  {
  }

  /** The comparison is printed, and the operator comes next. */
  lemma ComparisonStep(sh: Shader, data: Analysis, prev: Token, last: seq<Token>)
    requires PlainName(sh, "n") && "n" !in UniformNames(sh) && last != [] && last[0] == Name("u")
    ensures Transpile(sh, data, prev, [Name("n"), LESS] + last, "}")
         == Prefixed([Compare("n", "<", "u")], Transpile(sh, data, Name("n"), [LESS] + last, "}"))
  {
    var ts := [Name("n"), LESS] + last;
    assert ts[1..] == [LESS] + last && ts[2..] == last && ts == [Name("n")] + ([LESS] + last);
    FirstStep(sh, data, prev, Name("n"), [LESS] + last, "}");
    assert SkipBlanks(last) == last;
    hide Transpile, UniformNames, TextureNames, SkipBlanks;
  }

  lemma SignatureIs()
    ensures |Example().funcs| == 1
    ensures Signature(Example(), FinalData(Example(), 0), Example().funcs[0]) == ["n", "uniforms"]
  {
    hide *;
    Shape();
    MainSignature(Example());
  }

  lemma MainSignature(sh: Shader)
    requires |sh.funcs| == 1 && sh.funcs[0] == Func("main", ["n"], BODY)
    requires Declared(sh, Uniforms) == ["uniforms"] && Declared(sh, Textures) == [] && Declared(sh, Samplers) == []
    ensures Signature(sh, FinalData(sh, 0), sh.funcs[0]) == ["n", "uniforms"]
  {
    hide Declared, FinalData;
    assert ["n"] + ["uniforms"] + [] + [] == ["n", "uniforms"];
  }

  /** The uniform is printed without its buffer, although the function has the buffer as a parameter; the operator and
      the operand are printed a second time behind it. */
  lemma ExampleIsOutOfScope()
    ensures |Example().funcs| == 1 && EmittedBody(Example(), 0).Ok?
    ensures Print(EmittedBody(Example(), 0).value.out)
         == "return" + (" " + ("all(n < u)" + ("<" + ("uniforms.u" + (";" + "")))))
    ensures RawUniform(Example(), Body(Example().funcs[0]), 2)
    ensures exists p :: p in EmittedBody(Example(), 0).value.out
              && !InScope(Example(), Signature(Example(), FinalData(Example(), 0), Example().funcs[0]), p)
  {
    hide *;
    Shape();
    BodyIs();
    ExampleEmits();
    ExampleIsWellFormed();
    RawHere(Example());
    BodyIsComplete();
    Printed();
    ScopedExactly(Example(), 0);
  }

  lemma RawHere(sh: Shader)
    requires sh == Example() && UniformNames(sh) == ["u"]
    ensures RawUniform(sh, BODY, 2)
  {
    OrdinaryName("n");
    hide Example, UniformNames, TextureNames;
    assert SkipBlanks(BODY[4..]) == BODY[4..] && BODY[4..][0] == Name("u");
  }

  lemma PrintFirst(p: Piece, ps: seq<Piece>)
    ensures Print([p] + ps) == p.Print() + Print(ps)
  {
    assert ([p] + ps)[1..] == ps;
  }

  lemma EachPrints()
    ensures Compare("n", "<", "u").Print() == "all(n < u)" && UniformRef("u").Print() == "uniforms.u"
    ensures Text(";").Print() == ";" && Text(" ").Print() == " " && Text("<").Print() == "<"
    ensures Copied("return").Print() == "return" && Print([]) == ""
  {
  }

  lemma Printed()
    ensures Print(OUT) == "return" + (" " + ("all(n < u)" + ("<" + ("uniforms.u" + (";" + "")))))
  {
    hide *;
    EachPrints();
    OutIs();
    var a := [Text(";")] + [];
    var b := [UniformRef("u")] + a;
    var c := [Text("<")] + b;
    var d := [Compare("n", "<", "u")] + c;
    PrintFirst(Text(";"), []);
    PrintFirst(UniformRef("u"), a);
    PrintFirst(Text("<"), b);
    PrintFirst(Compare("n", "<", "u"), c);
    PrintFirst(Text(" "), d);
    PrintFirst(Copied("return"), [Text(" ")] + d);
  }
}
