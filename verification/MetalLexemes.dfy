/** The lexemes of what is emitted for a body are the text of the lifted body. */
module MetalLexemes {
  import opened ShaderTokens
  import opened MetalTranspiler
  import opened MetalSyntax
  import opened MetalRendering
  import opened MetalLifting
  import M = MetalText

  // ---------------------------------------------------------------------------------------------------------
  // Lexemes of the emitted text

  function PieceLexemes(p: Piece): M.Text {
    match p
    case Text(s) => TextLexemes(s)
    case Copied(n) => [n]
    case UniformRef(n) => ["uniforms", ".", n]
    case TextureRef(n) => [n]
    case ExtraArg(n) => [n]
    case Compare(l, op, r) => ["all", "(", l, op, r, ")"]
  }

  /** Most fixed text is a single lexeme. */
  function TextLexemes(s: string): M.Text {
    match s
    case "((" => ["(", "("]
    case ") * (" => [")", "*", "("]
    case ")) + (" => [")", ")", "+", "("]
    case "))" => [")", ")"]
    case "int(" => ["int", "("]
    case "int2(" => ["int2", "("]
    case "uint(" => ["uint", "("]
    case "sample(" => ["sample", "("]
    case "bias(" => ["bias", "("]
    case "level(" => ["level", "("]
    case "gradient2d(" => ["gradient2d", "("]
    case "read(uint2(" => ["read", "(", "uint2", "("]
    case ".xy)" => [".", "xy", ")"]
    case "0)" => ["0", ")"]
    case "[\"" => ["[", "\""]
    case "\"]" => ["\"", "]"]
    case _ => if Whitespace(s) || s == "" then [] else [s]
  }

  function Lexemes(ps: seq<Piece>): M.Text {
    if ps == [] then [] else PieceLexemes(ps[0]) + Lexemes(ps[1..])
  }

  lemma {:induction false} LexemesConcat(a: seq<Piece>, b: seq<Piece>)
    ensures Lexemes(a + b) == Lexemes(a) + Lexemes(b)
  {
    if a == [] {
      assert a + b == b;
    } else {
      assert (a + b)[1..] == a[1..] + b;
      LexemesConcat(a[1..], b);
    }
  }

  lemma LexemesFirst(p: Piece, b: seq<Piece>)
    ensures Lexemes([p] + b) == PieceLexemes(p) + Lexemes(b)
  {
    assert ([p] + b)[1..] == b;
  }

  lemma LexemesLast(a: seq<Piece>, p: Piece)
    ensures Lexemes(a + [p]) == Lexemes(a) + PieceLexemes(p)
  {
    LexemesConcat(a, [p]);
    LexemesFirst(p, []);
    assert [p] + [] == [p];
  }

  lemma FixedLexemes()
    ensures PieceLexemes(Text(" ")) == [] && PieceLexemes(Text(",")) == [","] && Lexemes(SEPARATOR) == [","]
    ensures PieceLexemes(Text("(")) == ["("] && PieceLexemes(Text(")")) == [")"] && Lexemes(GAP) == []
    ensures PieceLexemes(Text(".")) == ["."] && PieceLexemes(Text("-")) == ["-"]
  {
    assert Whitespace(" ");
    assert ','  in "," && '(' in "(" && ')' in ")" && '.' in "." && '-' in "-";
    assert SEPARATOR[1..] == [Text(" ")] && Lexemes([Text(" ")]) == [];
  }

  lemma CompoundLexemes()
    ensures PieceLexemes(Text("((")) == ["(", "("] && PieceLexemes(Text("))")) == [")", ")"]
    ensures PieceLexemes(Text(") * (")) == [")", "*", "("] && PieceLexemes(Text(")) + (")) == [")", ")", "+", "("]
    ensures PieceLexemes(Text("int(")) == ["int", "("] && PieceLexemes(Text("int2(")) == ["int2", "("]
    ensures PieceLexemes(Text("uint(")) == ["uint", "("] && PieceLexemes(Text("0)")) == ["0", ")"]
    ensures PieceLexemes(Text("read(uint2(")) == ["read", "(", "uint2", "("]
    ensures PieceLexemes(Text(".xy)")) == [".", "xy", ")"] && PieceLexemes(Text("sample(")) == ["sample", "("]
    ensures PieceLexemes(Text("bias(")) == ["bias", "("] && PieceLexemes(Text("level(")) == ["level", "("]
    ensures PieceLexemes(Text("gradient2d(")) == ["gradient2d", "("]
  {
  }

  lemma StatementLexemes()
    ensures PieceLexemes(Text("=")) == ["="] && PieceLexemes(Text(";")) == [";"]
    ensures PieceLexemes(Text("{")) == ["{"] && PieceLexemes(Text("}")) == ["}"]
  {
    assert '=' in "=" && ';' in ";" && '{' in "{" && '}' in "}";
  }

  lemma NumeralLexeme(n: string)
    requires Numeral(n)
    ensures TextLexemes(n) == [n]
  {
    assert n[0] in n;
    assert n != "0)" by {
      assert ')' in "0)";
    }
  }

  lemma CharacterLexeme(c: string)
    requires c in CHARACTERS
    ensures PieceLexemes(Text(c)) == [c]
  {
    assert c[0] in c;
  }

  lemma NumeralPiece(n: string)
    requires Numeral(n)
    ensures PieceLexemes(Text(n)) == [n]
  {
    hide TextLexemes;
    NumeralLexeme(n);
  }

  /** A single piece. */
  lemma NameLexeme(p: Piece)
    ensures Lexemes([p]) == PieceLexemes(p)
    ensures p.UniformRef? ==> PieceLexemes(p) == ["uniforms", ".", p.name]
    ensures p.Copied? || p.TextureRef? || p.ExtraArg? ==> PieceLexemes(p) == [p.name]
  {
    hide TextLexemes;
    LexemesFirst(p, []);
    assert [p] + [] == [p];
  }

  /** An operator between blanks. */
  lemma SignText(op: string, b: seq<Piece>)
    requires Sign(op)
    ensures Lexemes(SpacedPieces(op) + b) == M.OpText(op) + Lexemes(b)
  {
    hide Lexemes, PieceLexemes, TextLexemes, Sign, CHARACTERS;
    SignCharacters(op);
    FixedLexemes();
    assert SpacedPieces(op) + b == [Text(" ")] + (OpPieces(op) + ([Text(" ")] + b));
    LexemesFirst(Text(" "), OpPieces(op) + ([Text(" ")] + b));
    LexemesFirst(Text(" "), b);
    if |op| == 2 {
      var c, d := Text(op[..1]), Text(op[1..]);
      CharacterLexeme(op[..1]);
      CharacterLexeme(op[1..]);
      assert OpPieces(op) + ([Text(" ")] + b) == [c] + ([d] + ([Text(" ")] + b));
      LexemesFirst(c, [d] + ([Text(" ")] + b));
      LexemesFirst(d, [Text(" ")] + b);
      assert [op[..1]] + ([op[1..]] + Lexemes(b)) == M.OpText(op) + Lexemes(b);
    } else {
      CharacterLexeme(op);
      LexemesFirst(Text(op), [Text(" ")] + b);
    }
  }

  /** Arguments with the blanks behind their commas. */
  lemma SeparatedText(a: seq<Piece>, b: seq<Piece>)
    ensures Lexemes(a + (SEPARATOR + b)) == Lexemes(a) + ([","] + Lexemes(b))
    ensures Lexemes(a + SEPARATOR + b) == Lexemes(a) + ([","] + Lexemes(b))
  {
    hide Lexemes, PieceLexemes, TextLexemes;
    FixedLexemes();
    LexemesConcat(a, SEPARATOR + b);
    LexemesConcat(SEPARATOR, b);
    assert a + SEPARATOR + b == a + (SEPARATOR + b);
  }

  lemma GapText(a: seq<Piece>)
    ensures Lexemes(GAP + a) == Lexemes(a)
  {
    hide Lexemes, PieceLexemes, TextLexemes;
    FixedLexemes();
    LexemesConcat(GAP, a);
  }

  lemma {:induction false} ExtraText(names: seq<string>)
    ensures Lexemes(ExtraArgs(names)) == M.PrintArgs(Names(names))
  {
    if |names| > 1 {
      ExtraText(names[1..]);
      SeparatedText([ExtraArg(names[0])], ExtraArgs(names[1..]));
      assert Names(names)[1..] == Names(names[1..]);
    }
  }

  lemma {:induction false} PrintArgsConcat(a: seq<M.Expr>, b: seq<M.Expr>)
    requires a != [] && b != []
    ensures M.PrintArgs(a + b) == M.PrintArgs(a) + ([","] + M.PrintArgs(b))
  {
    assert (a + b)[1..] == a[1..] + b;
    if |a| == 1 {
      assert a[1..] + b == b;
    } else {
      PrintArgsConcat(a[1..], b);
    }
  }

  /** Two operands in fixed text. */
  lemma TwoText(p: Piece, a: seq<Piece>, q: Piece, b: seq<Piece>, r: Piece)
    ensures Lexemes([p] + a + [q] + b + [r])
         == PieceLexemes(p) + (Lexemes(a) + (PieceLexemes(q) + (Lexemes(b) + PieceLexemes(r))))
  {
    hide Lexemes, PieceLexemes, TextLexemes;
    assert [p] + a + [q] + b + [r] == [p] + (a + ([q] + (b + [r])));
    LexemesFirst(p, a + ([q] + (b + [r])));
    LexemesConcat(a, [q] + (b + [r]));
    LexemesFirst(q, b + [r]);
    LexemesLast(b, r);
  }

  /** One operand in fixed text. */
  lemma OneText(p: Piece, a: seq<Piece>, q: Piece)
    ensures Lexemes([p] + a + [q]) == PieceLexemes(p) + (Lexemes(a) + PieceLexemes(q))
  {
    hide Lexemes, PieceLexemes, TextLexemes;
    assert [p] + a + [q] == [p] + (a + [q]);
    LexemesFirst(p, a + [q]);
    LexemesLast(a, q);
  }

  // ---------------------------------------------------------------------------------------------------------
  // The text of an expression

  lemma {:induction false} ExprText(sh: Shader, data: Analysis, e: Expr)
    requires ProperPart(sh, data, e)
    ensures Lexemes(Emit(data, e)) == M.Print(Lift(data, e))
    decreases e, 2
  {
    hide Lexemes, PieceLexemes, TextLexemes;
    hide PlainName, OuterName, UniformNames, TextureNames, LiftCall, EmitCall, EmitAccess;
    FixedLexemes();
    match e {
      case Literal(n) =>
        NumeralPiece(n);
        NameLexeme(Text(n));
      case Local(x) => NameLexeme(Copied(x));
      case Handle(x) => NameLexeme(Copied(x));
      case Uniform(u) => NameLexeme(UniformRef(u));
      case Paren(x) =>
        ExprText(sh, data, x);
        OneText(Text("("), Emit(data, x), Text(")"));
      case Negate(x) =>
        ExprText(sh, data, x);
        LexemesFirst(Text("-"), Emit(data, x));
      case Infix(op, l, r) =>
        ExprText(sh, data, l);
        ExprText(sh, data, r);
        InfixText(op, Emit(data, l), Emit(data, r));
        hide SpacedPieces;
      case Conditional(c, a, b) =>
        ExprText(sh, data, c);
        ExprText(sh, data, a);
        ExprText(sh, data, b);
        ConditionalText(Emit(data, c), Emit(data, a), Emit(data, b));
        hide SpacedPieces;
      case Member(b, f) =>
        ExprText(sh, data, b);
        MemberText(Emit(data, b), f);
      case Index(b, i) =>
        ExprText(sh, data, b);
        ExprText(sh, data, i);
        IndexText(Emit(data, b), Emit(data, i));
      case Call(_, _) => CallText(sh, data, e);
      case Access(_, _, _) => AccessText(sh, data, e);
    }
  }

  lemma InfixText(op: string, a: seq<Piece>, b: seq<Piece>)
    requires M.OpLevel(op) > 0
    ensures Lexemes(a + (SpacedPieces(op) + b)) == Lexemes(a) + (M.OpText(op) + Lexemes(b))
  {
    hide Lexemes, SpacedPieces, M.OpText;
    LexemesConcat(a, SpacedPieces(op) + b);
    SignText(op, b);
  }

  lemma ConditionalText(c: seq<Piece>, a: seq<Piece>, b: seq<Piece>)
    ensures Lexemes(c + (SpacedPieces("?") + (a + (SpacedPieces(":") + b))))
         == Lexemes(c) + (["?"] + (Lexemes(a) + ([":"] + Lexemes(b))))
  {
    hide Lexemes, SpacedPieces;
    var yes := a + (SpacedPieces(":") + b);
    LexemesConcat(c, SpacedPieces("?") + yes);
    SignText("?", yes);
    LexemesConcat(a, SpacedPieces(":") + b);
    SignText(":", b);
  }

  lemma IndexText(b: seq<Piece>, i: seq<Piece>)
    ensures Lexemes(b + ([Text("[")] + (i + [Text("]")]))) == Lexemes(b) + (["["] + (Lexemes(i) + ["]"]))
  {
    IndexLexemes();
    hide Lexemes, PieceLexemes, TextLexemes;
    LexemesConcat(b, [Text("[")] + (i + [Text("]")]));
    LexemesFirst(Text("["), i + [Text("]")]);
    LexemesLast(i, Text("]"));
  }

  lemma IndexLexemes()
    ensures PieceLexemes(Text("[")) == ["["] && PieceLexemes(Text("]")) == ["]"]
  {
    assert '[' in "[" && ']' in "]";
  }

  lemma MemberText(a: seq<Piece>, f: string)
    ensures Lexemes(a + [Text("."), Copied(f)]) == Lexemes(a) + [".", f]
  {
    hide Lexemes, PieceLexemes, TextLexemes;
    FixedLexemes();
    LexemesConcat(a, [Text("."), Copied(f)]);
    assert [Text("."), Copied(f)] == [Text(".")] + [Copied(f)];
    LexemesLast([Text(".")], Copied(f));
    NameLexeme(Text("."));
    NameLexeme(Copied(f));
  }

  /** The operands, each as it is emitted. */
  ghost predicate PartsRead(parts: seq<seq<Piece>>, es: seq<M.Expr>) {
    |parts| == |es| && forall k :: 0 <= k < |es| ==> Lexemes(parts[k]) == M.Print(es[k])
  }

  lemma {:induction false} EachText(sh: Shader, data: Analysis, args: seq<Expr>)
    requires forall a :: a in args ==> ProperPart(sh, data, a)
    ensures PartsRead(EmitEach(data, args), LiftEach(data, args))
    decreases args, 0
  {
    hide Emit, Lift, ProperPart;
    if args != [] {
      ExprText(sh, data, args[0]);
      EachText(sh, data, args[1..]);
      EachPart(data, args);
    }
  }

  lemma {:induction false} JoinedText(parts: seq<seq<Piece>>, es: seq<M.Expr>)
    requires PartsRead(parts, es)
    ensures Lexemes(Joined(parts)) == M.PrintArgs(es)
    decreases |parts|
  {
    if |parts| > 1 {
      JoinedText(parts[1..], es[1..]);
      SeparatedText(parts[0], Joined(parts[1..]));
    }
  }

  lemma {:induction false} CallText(sh: Shader, data: Analysis, e: Expr)
    requires e.Call? && ProperExpr(sh, data, e)
    ensures Lexemes(Emit(data, e)) == M.Print(Lift(data, e))
    decreases e, 1
  {
    hide Lexemes, PieceLexemes, TextLexemes;
    hide PlainName, OuterName, UniformNames, TextureNames, ProperPart;
    var f, parts, es := e.f, EmitEach(data, e.args), LiftEach(data, e.args);
    CallParts(sh, data, e);
    EachText(sh, data, e.args);
    if f == "mul" {
      MulText(data, parts, es);
    } else if f == "mad" {
      MadText(data, parts, es);
    } else if f == "int3" {
      Int3Text(data, parts, es);
    } else {
      if e.args == [] {
        NoArguments(sh, data, f, e.args);
      }
      PlainCallText(data, f, parts, es);
    }
  }

  /** Only a call with an argument can have further ones appended. */
  lemma NoArguments(sh: Shader, data: Analysis, f: string, args: seq<Expr>)
    requires f != "mul" && f != "mad" && ProperCall(sh, data, f, args) && args == []
    ensures DataOf(data, f).AdditionalArguments() == []
  {
  }

  lemma MulText(data: Analysis, parts: seq<seq<Piece>>, es: seq<M.Expr>)
    requires |parts| == 2 && PartsRead(parts, es)
    ensures Lexemes(EmitCall(data, "mul", parts)) == M.Print(LiftCall(data, "mul", es))
  {
    hide Lexemes, PieceLexemes, TextLexemes;
    CompoundLexemes();
    FixedLexemes();
    TwoText(Text("("), parts[0], Text(") * ("), parts[1], Text(")"));
    var a, b := M.Print(es[0]), M.Print(es[1]);
    assert M.Print(LiftCall(data, "mul", es)) == ["("] + (a + [")"]) + (["*"] + (["("] + (b + [")"])));
    assert ["("] + (a + [")"]) + (["*"] + (["("] + (b + [")"]))) == ["("] + (a + ([")", "*", "("] + (b + [")"])));
  }

  lemma MadText(data: Analysis, parts: seq<seq<Piece>>, es: seq<M.Expr>)
    requires |parts| == 3 && PartsRead(parts, es)
    ensures Lexemes(EmitCall(data, "mad", parts)) == M.Print(LiftCall(data, "mad", es))
  {
    hide Lexemes, PieceLexemes, TextLexemes;
    CompoundLexemes();
    FixedLexemes();
    var b, c := GAP + parts[1], GAP + parts[2];
    GapText(parts[1]);
    GapText(parts[2]);
    TwoText(Text("(("), parts[0], Text(") * ("), b, Text(")) + ("));
    var front := [Text("((")] + parts[0] + [Text(") * (")] + b + [Text(")) + (")];
    LexemesConcat(front, c + [Text(")")]);
    LexemesLast(c, Text(")"));
    assert EmitCall(data, "mad", parts) == front + (c + [Text(")")]);
    MadPrint(es[0], es[1], es[2]);
  }

  lemma MadPrint(x: M.Expr, y: M.Expr, z: M.Expr)
    ensures M.Print(M.Infix("+", M.Paren(M.Infix("*", M.Paren(x), M.Paren(y))), M.Paren(z)))
         == ["(", "("] + (M.Print(x) + ([")", "*", "("] + (M.Print(y) + [")", ")", "+", "("])))
            + (M.Print(z) + [")"])
  {
    var product := M.Infix("*", M.Paren(x), M.Paren(y));
    ProductPrint(x, y);
    assert M.Print(M.Paren(product)) == ["("] + (M.Print(product) + [")"]);
    assert M.Print(M.Infix("+", M.Paren(product), M.Paren(z)))
        == M.Print(M.Paren(product)) + (["+"] + (["("] + (M.Print(z) + [")"])));
    hide M.Print;
    SumPrint(M.Print(x), M.Print(y), M.Print(z));
  }

  lemma ProductPrint(x: M.Expr, y: M.Expr)
    ensures M.Print(M.Infix("*", M.Paren(x), M.Paren(y)))
         == ["("] + (M.Print(x) + ([")", "*", "("] + (M.Print(y) + [")"])))
  {
    assert M.Print(M.Paren(x)) == ["("] + (M.Print(x) + [")"]);
    assert M.Print(M.Paren(y)) == ["("] + (M.Print(y) + [")"]);
  }

  lemma SumPrint(a: M.Text, b: M.Text, c: M.Text)
    ensures ["("] + (["("] + (a + ([")", "*", "("] + (b + [")"]))) + [")"]) + (["+"] + (["("] + (c + [")"])))
         == ["(", "("] + (a + ([")", "*", "("] + (b + [")", ")", "+", "("]))) + (c + [")"])
  {
    var tail := c + [")"];
    assert b + [")"] + [")"] + (["+"] + (["("] + tail)) == b + [")", ")", "+", "("] + tail;
    assert ["("] + (["("] + (a + ([")", "*", "("] + (b + [")"]))) + [")"]) + (["+"] + (["("] + tail))
        == ["(", "("] + (a + ([")", "*", "("] + (b + [")"] + [")"] + (["+"] + (["("] + tail)))));
  }

  lemma Int3Text(data: Analysis, parts: seq<seq<Piece>>, es: seq<M.Expr>)
    requires 2 <= |parts| <= 3 && PartsRead(parts, es)
    ensures Lexemes(EmitCall(data, "int3", parts)) == M.Print(LiftCall(data, "int3", es))
  {
    hide Lexemes, PieceLexemes, TextLexemes;
    CompoundLexemes();
    FixedLexemes();
    var call := [Text("(")] + EmitInts(parts) + [Text(")")];
    LexemesFirst(Copied("int3"), call);
    NameLexeme(Copied("int3"));
    OneText(Text("("), EmitInts(parts), Text(")"));
    IntsText(parts, es);
    hide PieceLexemes, EmitInts, IntArgs;
    assert ["int3"] + (["("] + (M.PrintArgs(IntArgs(es)) + [")"])) == ["int3", "("] + (M.PrintArgs(IntArgs(es))
         + [")"]);
  }

  /** A conversion of one operand. */
  lemma ConversionText(open: string, f: string, part: seq<Piece>, e: M.Expr)
    requires PieceLexemes(Text(open)) == [f, "("] && Lexemes(part) == M.Print(e)
    ensures Lexemes(Converted(open, part)) == M.Print(M.Call(f, [e]))
    ensures Lexemes(Converted(open, GAP + part)) == M.Print(M.Call(f, [e]))
  {
    hide Lexemes, PieceLexemes, TextLexemes;
    CompoundLexemes();
    FixedLexemes();
    GapText(part);
    OneText(Text(open), part, Text(")"));
    OneText(Text(open), GAP + part, Text(")"));
    assert M.PrintArgs([e]) == M.Print(e);
  }

  lemma IntsText(parts: seq<seq<Piece>>, es: seq<M.Expr>)
    requires 2 <= |parts| <= 3 && PartsRead(parts, es)
    ensures Lexemes(EmitInts(parts)) == M.PrintArgs(IntArgs(es))
  {
    hide Lexemes, PieceLexemes, TextLexemes, EmitInts, IntArgs;
    if |parts| == 3 {
      ThreeInts(parts, es);
    } else {
      TwoInts(parts, es);
    }
  }

  lemma ThreeInts(parts: seq<seq<Piece>>, es: seq<M.Expr>)
    requires |parts| == 3 && PartsRead(parts, es)
    ensures Lexemes(EmitInts(parts)) == M.PrintArgs(IntArgs(es))
  {
    var a, b, c := Converted("int(", parts[0]), Converted("int(", GAP + parts[1]), Converted("int(", GAP + parts[2]);
    hide Lexemes, PieceLexemes, TextLexemes, Converted;
    CompoundLexemes();
    ConversionText("int(", "int", parts[0], es[0]);
    ConversionText("int(", "int", parts[1], es[1]);
    ConversionText("int(", "int", parts[2], es[2]);
    ThreeParts(a, b, c);
    ThreeArgs(IntArgs(es));
  }

  lemma ThreeParts(a: seq<Piece>, b: seq<Piece>, c: seq<Piece>)
    ensures Lexemes(a + SEPARATOR + b + SEPARATOR + c) == Lexemes(a) + ([","] + (Lexemes(b) + ([","] + Lexemes(c))))
  {
    hide Lexemes;
    SeparatedText(b, c);
    SeparatedText(a, b + (SEPARATOR + c));
    assert a + SEPARATOR + b + SEPARATOR + c == a + (SEPARATOR + (b + (SEPARATOR + c)));
  }

  lemma TwoInts(parts: seq<seq<Piece>>, es: seq<M.Expr>)
    requires |parts| == 2 && PartsRead(parts, es)
    ensures Lexemes(EmitInts(parts)) == M.PrintArgs(IntArgs(es))
  {
    var a, b := Converted("int2(", parts[0]), Converted("int(", GAP + parts[1]);
    hide Lexemes, PieceLexemes, TextLexemes, Converted;
    CompoundLexemes();
    ConversionText("int2(", "int2", parts[0], es[0]);
    ConversionText("int(", "int", parts[1], es[1]);
    SeparatedText(a, b);
    TwoArgs(IntArgs(es));
  }

  lemma TwoArgs(es: seq<M.Expr>)
    requires |es| == 2
    ensures M.PrintArgs(es) == M.Print(es[0]) + ([","] + M.Print(es[1]))
  {
    assert M.PrintArgs(es[1..]) == M.Print(es[1]);
  }

  lemma ThreeArgs(es: seq<M.Expr>)
    requires |es| == 3
    ensures M.PrintArgs(es) == M.Print(es[0]) + ([","] + (M.Print(es[1]) + ([","] + M.Print(es[2]))))
  {
    TwoArgs(es[1..]);
  }

  lemma PlainCallText(data: Analysis, f: string, parts: seq<seq<Piece>>, es: seq<M.Expr>)
    requires f != "mul" && f != "mad" && f != "int3" && PartsRead(parts, es)
    requires parts == [] ==> DataOf(data, f).AdditionalArguments() == []
    ensures Lexemes(EmitCall(data, f, parts)) == M.Print(LiftCall(data, f, es))
  {
    hide Lexemes, PieceLexemes, TextLexemes;
    FixedLexemes();
    var extra := DataOf(data, f).AdditionalArguments();
    var inner := if extra == [] then Joined(parts) else Joined(parts) + SEPARATOR + ExtraArgs(extra);
    InnerText(parts, es, extra, inner);
    SpelledPiece(f);
    hide Joined, ExtraArgs, Spelled;
    LexemesFirst(Spelled(f), [Text("(")] + inner + [Text(")")]);
    OneText(Text("("), inner, Text(")"));
    CallPrint(MetalName(f), es + Names(extra));
  }

  lemma CallPrint(f: string, es: seq<M.Expr>)
    ensures M.Print(M.Call(f, es)) == [f] + (["("] + (M.PrintArgs(es) + [")"]))
  {
  }

  /** The arguments of a call, with those that are appended. */
  lemma InnerText(parts: seq<seq<Piece>>, es: seq<M.Expr>, extra: seq<string>, inner: seq<Piece>)
    requires PartsRead(parts, es) && (parts == [] ==> extra == [])
    requires inner == if extra == [] then Joined(parts) else Joined(parts) + SEPARATOR + ExtraArgs(extra)
    ensures Lexemes(inner) == M.PrintArgs(es + Names(extra))
  {
    hide Lexemes, PieceLexemes, TextLexemes, Joined, ExtraArgs;
    JoinedText(parts, es);
    if extra == [] {
      assert es + Names(extra) == es;
    } else {
      ExtraText(extra);
      SeparatedText(Joined(parts), ExtraArgs(extra));
      PrintArgsConcat(es, Names(extra));
    }
  }

  lemma SpelledPiece(f: string)
    ensures PieceLexemes(Spelled(f)) == [MetalName(f)]
  {
    hide TextLexemes, MetalName;
    if MetalName(f) != f {
      SpelledIsWord(f);
      WordLexeme(MetalName(f));
    }
  }

  /** Names are single lexemes. */
  lemma WordLexeme(n: string)
    requires n != "" && LastLetter(n)
    ensures TextLexemes(n) == [n]
  {
    assert n[|n| - 1] in n;
  }

  predicate LastLetter(n: string) {
    n != "" && var c := n[|n| - 1]; 'a' <= c <= 'z' || 'A' <= c <= 'Z' || '0' <= c <= '9' || c == '>'
  }

  lemma SpelledIsWord(f: string)
    requires MetalName(f) != f
    ensures LastLetter(MetalName(f)) && 'a' <= MetalName(f)[0] <= 'z'
  {
    if ConvertType(f).Ok? && ConvertType(f).value != f {
      TypeIsWord(f);
    } else {
      IntrinsicIsWord(f);
    }
  }

  lemma TypeIsWord(f: string)
    requires ConvertType(f).Ok? && ConvertType(f).value != f
    ensures var n := ConvertType(f).value; LastLetter(n) && 'a' <= n[0] <= 'z'
  {
  }

  lemma IntrinsicIsWord(f: string)
    requires ConvertIntrinsic(f).Ok? && ConvertIntrinsic(f).value != ""
    ensures var n := ConvertIntrinsic(f).value; LastLetter(n) && 'a' <= n[0] <= 'z'
  {
  }

  // ---------------------------------------------------------------------------------------------------------
  // Accesses to textures

  ghost predicate ReadsAs(ps: seq<Piece>, f: string, args: seq<M.Expr>) {
    Lexemes(ps) == [f, "("] + (M.PrintArgs(args) + [")"])
  }

  lemma {:induction false} AccessText(sh: Shader, data: Analysis, e: Expr)
    requires e.Access? && ProperExpr(sh, data, e)
    ensures Lexemes(Emit(data, e)) == M.Print(Lift(data, e))
    decreases e, 1
  {
    hide PlainName, OuterName, UniformNames, TextureNames, ProperPart, EmitAccess, SampleArgs, ReadsAs, ReadAt,
         ReadFrom;
    var t, f, args := e.texture, e.f, e.args;
    PartsAreProper(sh, data, e);
    if f == "Load" {
      LoadText(sh, data, args[0], EmitEach(data, args));
      var read := if args[0].Call? && args[0].f == "int3" then ReadAt(LiftEach(data, args[0].args))
                  else ReadFrom(Lift(data, args[0]));
      MethodText(t, EmitAccess(f, EmitEach(data, args)), "read", read);
    } else {
      EachText(sh, data, args);
      SamplingText(f, EmitEach(data, args), LiftEach(data, args));
      MethodText(t, EmitAccess(f, EmitEach(data, args)), "sample", SampleArgs(f, LiftEach(data, args)));
    }
  }

  lemma SamplingText(f: string, parts: seq<seq<Piece>>, es: seq<M.Expr>)
    requires PartsRead(parts, es) && f in {"Sample", "SampleBias", "SampleGrad", "SampleLevel"}
    requires |es| == (if f == "Sample" then 2 else if f == "SampleGrad" then 4 else 3)
    ensures ReadsAs(EmitAccess(f, parts), "sample", SampleArgs(f, es))
  {
    hide EmitAccess, SampleArgs, ReadsAs;
    if f == "Sample" {
      SampleText(parts, es);
    } else if f == "SampleGrad" {
      GradText(parts, es);
    } else {
      OptionText(f, parts, es);
    }
  }

  lemma MethodText(t: string, access: seq<Piece>, f: string, args: seq<M.Expr>)
    requires ReadsAs(access, f, args)
    ensures Lexemes([TextureRef(t), Text(".")] + access) == M.Print(M.Method(M.Name(t), f, args))
  {
    hide Lexemes, PieceLexemes, TextLexemes;
    FixedLexemes();
    assert [TextureRef(t), Text(".")] + access == [TextureRef(t)] + ([Text(".")] + access);
    LexemesFirst(TextureRef(t), [Text(".")] + access);
    LexemesFirst(Text("."), access);
    NameLexeme(TextureRef(t));
    var inner := M.PrintArgs(args) + [")"];
    assert ["."] + ([f, "("] + inner) == [".", f, "("] + inner;
  }

  /** A sampler and a coordinate. */
  lemma PairText(a: seq<Piece>, b: seq<Piece>, x: M.Expr, y: M.Expr)
    requires Lexemes(a) == M.Print(x) && Lexemes(b) == M.Print(y)
    ensures Lexemes(a + SEPARATOR + (GAP + b)) == M.Print(x) + ([","] + M.Print(y))
  {
    hide Lexemes, PieceLexemes, TextLexemes;
    SeparatedText(a, GAP + b);
    GapText(b);
  }

  lemma SampleText(parts: seq<seq<Piece>>, es: seq<M.Expr>)
    requires |parts| == 2 && PartsRead(parts, es)
    ensures ReadsAs(EmitAccess("Sample", parts), "sample", SampleArgs("Sample", es))
  {
    hide Lexemes, PieceLexemes, TextLexemes;
    CompoundLexemes();
    FixedLexemes();
    var inner := parts[0] + SEPARATOR + (GAP + parts[1]);
    PairText(parts[0], parts[1], es[0], es[1]);
    OneText(Text("sample("), inner, Text(")"));
    assert EmitAccess("Sample", parts) == [Text("sample(")] + inner + [Text(")")];
    TwoArgs(es);
  }

  /** Options are called like functions. */
  lemma OptionText(f: string, parts: seq<seq<Piece>>, es: seq<M.Expr>)
    requires (f == "SampleBias" || f == "SampleLevel") && |parts| == 3 && PartsRead(parts, es)
    ensures ReadsAs(EmitAccess(f, parts), "sample", SampleArgs(f, es))
  {
    hide Lexemes, PieceLexemes, TextLexemes;
    CompoundLexemes();
    var option, name := if f == "SampleBias" then "bias(" else "level(", if f == "SampleBias" then "bias" else "level";
    var a, b, c := parts[0], GAP + parts[1], GAP + parts[2];
    assert EmitAccess(f, parts)
        == [Text("sample(")] + (a + SEPARATOR + b + SEPARATOR) + [Text(option)] + c + [Text("))")];
    TwoText(Text("sample("), a + SEPARATOR + b + SEPARATOR, Text(option), c, Text("))"));
    PairText(a, parts[1], es[0], es[1]);
    FixedLexemes();
    LexemesConcat(a + SEPARATOR + b, SEPARATOR);
    GapText(parts[2]);
    ThreeArgs(SampleArgs(f, es));
    assert M.PrintArgs([es[2]]) == M.Print(es[2]);
    CloseTwice("sample", M.Print(es[0]), M.Print(es[1]), [name, "("], M.Print(es[2]));
  }

  lemma CloseTwice(f: string, a: M.Text, b: M.Text, open: M.Text, c: M.Text)
    ensures [f, "("] + (a + ([","] + b) + [","] + (open + (c + [")", ")"])))
         == [f, "("] + (a + ([","] + (b + ([","] + (open + (c + [")"]))))) + [")"])
  {
    assert open + (c + [")", ")"]) == open + (c + [")"]) + [")"];
  }

  lemma GradText(parts: seq<seq<Piece>>, es: seq<M.Expr>)
    requires |parts| == 4 && PartsRead(parts, es)
    ensures ReadsAs(EmitAccess("SampleGrad", parts), "sample", SampleArgs("SampleGrad", es))
  {
    hide Lexemes, PieceLexemes, TextLexemes;
    CompoundLexemes();
    var a, b, c, d := parts[0], GAP + parts[1], GAP + parts[2], GAP + parts[3];
    var inner := c + SEPARATOR + d;
    assert EmitAccess("SampleGrad", parts)
        == [Text("sample(")] + (a + SEPARATOR + b + SEPARATOR) + [Text("gradient2d(")] + inner + [Text("))")];
    TwoText(Text("sample("), a + SEPARATOR + b + SEPARATOR, Text("gradient2d("), inner, Text("))"));
    PairText(a, parts[1], es[0], es[1]);
    GapText(parts[2]);
    PairText(c, parts[3], es[2], es[3]);
    FixedLexemes();
    LexemesConcat(a + SEPARATOR + b, SEPARATOR);
    ThreeArgs(SampleArgs("SampleGrad", es));
    TwoArgs([es[2], es[3]]);
    CloseTwice("sample", M.Print(es[0]), M.Print(es[1]), ["gradient2d", "("], M.PrintArgs([es[2], es[3]]));
  }

  // ---------------------------------------------------------------------------------------------------------
  // Loads

  lemma {:induction false} LoadText(sh: Shader, data: Analysis, e: Expr, parts: seq<seq<Piece>>)
    requires ProperExpr(sh, data, e) && ((e.Call? && e.f == "int3") || !LeadsInt3(e))
    requires |parts| == 1 && parts[0] == Emit(data, e)
    ensures ReadsAs(EmitAccess("Load", parts), "read",
                    if e.Call? && e.f == "int3" then ReadAt(LiftEach(data, e.args)) else ReadFrom(Lift(data, e)))
    decreases e, 3
  {
    hide Lexemes, PieceLexemes, TextLexemes;
    hide PlainName, OuterName, UniformNames, TextureNames, ReadCall;
    ReadIsOk(sh, data, e);
    if e.Call? && e.f == "int3" {
      CallParts(sh, data, e);
      EachText(sh, data, e.args);
      ReadInt3(sh, data, e.args);
      ReadAtText(EmitEach(data, e.args), LiftEach(data, e.args));
    } else {
      NotInt3(sh, data, e);
      ExprText(sh, data, e);
      ReadFromText(Emit(data, e), Lift(data, e));
    }
  }

  lemma ReadFromText(arg: seq<Piece>, e: M.Expr)
    requires arg != [] && !BeginsInt3(arg) && Lexemes(arg) == M.Print(e)
    ensures ReadCall(arg).Ok? && ReadsAs(ReadCall(arg).value, "read", ReadFrom(e))
  {
    var front := [Text("read(uint2(")] + arg + [Text(".xy)")];
    assert ReadCall(arg) == Ok(front + SEPARATOR + [Text("0)")]);
    hide Lexemes, PieceLexemes, TextLexemes, ReadCall;
    CompoundLexemes();
    OneText(Text("read(uint2("), arg, Text(".xy)"));
    SeparatedText(front, [Text("0)")]);
    NameLexeme(Text("0)"));
    TwoArgs(ReadFrom(e));
    var xy := M.Member(e, "xy");
    assert M.PrintArgs([xy]) == M.Print(xy);
    FromPrint(M.Print(e));
  }

  lemma FromPrint(t: M.Text)
    ensures ["read", "(", "uint2", "("] + (t + [".", "xy", ")"]) + ([","] + ["0", ")"])
         == ["read", "("] + (["uint2", "("] + (t + [".", "xy"] + [")"]) + ([","] + ["0"]) + [")"])
  {
    assert t + [".", "xy", ")"] == t + [".", "xy"] + [")"];
  }

  lemma ReadAtText(parts: seq<seq<Piece>>, es: seq<M.Expr>)
    requires 2 <= |parts| <= 3 && PartsRead(parts, es)
    ensures ReadsAs(EmitRead(parts), "read", ReadAt(es))
  {
    hide Lexemes, PieceLexemes, TextLexemes, EmitRead;
    CompoundLexemes();
    if |parts| == 3 {
      ReadThree(parts, es);
    } else {
      ReadTwo(parts, es);
    }
  }

  lemma ReadThree(parts: seq<seq<Piece>>, es: seq<M.Expr>)
    requires |parts| == 3 && PartsRead(parts, es)
    ensures ReadsAs(EmitRead(parts), "read", ReadAt(es))
  {
    var a, b, c := Converted("int(", parts[0]), Converted("int(", GAP + parts[1]), Converted("int(", GAP + parts[2]);
    EmitThree(parts, a, b, c);
    hide Lexemes, PieceLexemes, TextLexemes, EmitRead;
    CompoundLexemes();
    ConversionText("int(", "int", parts[0], es[0]);
    ConversionText("int(", "int", parts[1], es[1]);
    ConversionText("int(", "int", parts[2], es[2]);
    var xs := [M.Call("int", [es[0]]), M.Call("int", [es[1]])];
    PairText(a, b, xs[0], xs[1]);
    TwoArgs(xs);
    ReadText(a + SEPARATOR + (GAP + b), c, xs, M.Call("int", [es[2]]));
  }

  lemma EmitThree(parts: seq<seq<Piece>>, a: seq<Piece>, b: seq<Piece>, c: seq<Piece>)
    requires |parts| == 3 && a == Converted("int(", parts[0])
    requires b == Converted("int(", GAP + parts[1]) && c == Converted("int(", GAP + parts[2])
    ensures EmitRead(parts)
         == [Text("read(uint2(")] + (a + SEPARATOR + (GAP + b)) + [Text(")")] + SEPARATOR + [Text("uint(")] + (GAP + c)
            + [Text("))")]
  {
    hide Converted;
    Inside(Text("read(uint2("), a, GAP + b);
  }

  lemma Inside(p: Piece, a: seq<Piece>, b: seq<Piece>)
    ensures [p] + a + SEPARATOR + b == [p] + (a + SEPARATOR + b)
  {
  }

  lemma ReadTwo(parts: seq<seq<Piece>>, es: seq<M.Expr>)
    requires |parts| == 2 && PartsRead(parts, es)
    ensures ReadsAs(EmitRead(parts), "read", ReadAt(es))
  {
    var a, b := Converted("int2(", parts[0]), Converted("int(", GAP + parts[1]);
    assert EmitRead(parts)
        == [Text("read(uint2(")] + a + [Text(")")] + SEPARATOR + [Text("uint(")] + (GAP + b) + [Text("))")];
    hide Lexemes, PieceLexemes, TextLexemes, EmitRead;
    CompoundLexemes();
    ConversionText("int2(", "int2", parts[0], es[0]);
    ConversionText("int(", "int", parts[1], es[1]);
    var x := M.Call("int2", [es[0]]);
    assert M.PrintArgs([x]) == M.Print(x);
    ReadText(a, b, [x], M.Call("int", [es[1]]));
  }

  lemma ReadText(a: seq<Piece>, b: seq<Piece>, xs: seq<M.Expr>, y: M.Expr)
    requires Lexemes(a) == M.PrintArgs(xs) && Lexemes(b) == M.Print(y)
    ensures ReadsAs([Text("read(uint2(")] + a + [Text(")")] + SEPARATOR + [Text("uint(")] + (GAP + b) + [Text("))")],
                    "read", [M.Call("uint2", xs), M.Call("uint", [y])])
  {
    hide Lexemes, PieceLexemes, TextLexemes;
    CompoundLexemes();
    FixedLexemes();
    var front := [Text("read(uint2(")] + a + [Text(")")];
    var last := [Text("uint(")] + (GAP + b) + [Text("))")];
    OneText(Text("read(uint2("), a, Text(")"));
    OneText(Text("uint("), GAP + b, Text("))"));
    GapText(b);
    SeparatedText(front, last);
    assert front + SEPARATOR + [Text("uint(")] + (GAP + b) + [Text("))")] == front + SEPARATOR + last;
    TwoArgs([M.Call("uint2", xs), M.Call("uint", [y])]);
    assert M.PrintArgs([y]) == M.Print(y);
    ReadPrint(M.PrintArgs(xs), M.Print(y));
  }

  lemma ReadPrint(a: M.Text, b: M.Text)
    ensures ["read", "(", "uint2", "("] + (a + [")"]) + ([","] + (["uint", "("] + (b + [")", ")"])))
         == ["read", "("] + (["uint2", "("] + (a + [")"]) + ([","] + (["uint", "("] + (b + [")"]))) + [")"])
  {
    assert b + [")", ")"] == b + [")"] + [")"];
  }

  // ---------------------------------------------------------------------------------------------------------
  // The text of a body

  lemma {:induction false} PrintBodyConcat(a: seq<M.Stmt>, b: seq<M.Stmt>)
    ensures M.PrintBody(a + b) == M.PrintBody(a) + M.PrintBody(b)
  {
    hide M.PrintStmt;
    if a == [] {
      assert a + b == b;
    } else {
      assert (a + b)[1..] == a[1..] + b;
      PrintBodyConcat(a[1..], b);
    }
  }

  lemma OneStmt(s: M.Stmt)
    ensures M.PrintBody([s]) == M.PrintStmt(s)
  {
    hide M.PrintStmt;
    assert M.PrintBody([s][1..]) == [];
  }

  lemma TypeLexeme(sh: Shader, t: string)
    ensures PieceLexemes(SpelledType(sh, t)) == [MetalType(sh, t)]
  {
    if t in sh.inOutStructs {
      WordLexeme(t + "_Out");
    } else {
      SpelledPiece(t);
    }
  }

  lemma {:induction false} FieldsText(fields: seq<string>)
    ensures Lexemes(EmitFields(fields)) == M.PrintFields(fields)
  {
    hide PieceLexemes, TextLexemes;
    if fields != [] {
      FixedLexemes();
      NameLexeme(Copied(fields[0]));
      var more := EmitFields(fields[1..]);
      FieldsText(fields[1..]);
      assert EmitFields(fields) == [Text(".")] + ([Copied(fields[0])] + more);
      LexemesFirst(Text("."), [Copied(fields[0])] + more);
      LexemesFirst(Copied(fields[0]), more);
    }
  }

  /** ` = `, a value and a semicolon. */
  lemma ValueText(sh: Shader, data: Analysis, op: string, e: Expr)
    requires ProperExpr(sh, data, e) && op in M.ASSIGNMENTS
    ensures Lexemes(EmitValue(data, op, e)) == M.OpText(op) + (M.Print(Lift(data, e)) + [";"])
    ensures Lexemes(Emit(data, e) + [Text(";")]) == M.Print(Lift(data, e)) + [";"]
  {
    hide Lexemes, PieceLexemes, TextLexemes, Emit, Lift;
    FixedLexemes();
    StatementLexemes();
    ExprText(sh, data, e);
    var value := Emit(data, e) + [Text(";")];
    LexemesLast(Emit(data, e), Text(";"));
    SignText(op, value);
  }

  /** A keyword, a condition in parentheses, and what follows. */
  lemma BranchText(sh: Shader, data: Analysis, word: string, c: Expr, more: seq<Piece>)
    requires ProperExpr(sh, data, c)
    ensures Lexemes([Copied(word), Text(" ")] + (EmitCondition(data, c) + (GAP + more)))
         == [word, "("] + (M.Print(Lift(data, c)) + ([")"] + Lexemes(more)))
  {
    hide Lexemes, PieceLexemes, TextLexemes, Emit, Lift;
    FixedLexemes();
    NameLexeme(Copied(word));
    ExprText(sh, data, c);
    var cond := EmitCondition(data, c);
    OneText(Text("("), Emit(data, c), Text(")"));
    GapText(more);
    LexemesConcat(cond, GAP + more);
    assert [Copied(word), Text(" ")] + (cond + (GAP + more)) == [Copied(word)] + ([Text(" ")] + (cond + (GAP + more)));
    LexemesFirst(Copied(word), [Text(" ")] + (cond + (GAP + more)));
    LexemesFirst(Text(" "), cond + (GAP + more));
    BranchPrint(word, M.Print(Lift(data, c)), Lexemes(more));
  }

  lemma BranchPrint(word: string, c: M.Text, more: M.Text)
    ensures [word] + ([] + (["("] + (c + [")"]) + more)) == [word, "("] + (c + ([")"] + more))
  {
  }

  lemma {:induction false} BlockText(sh: Shader, data: Analysis, ss: seq<Stmt>)
    requires ProperBody(sh, data, ss)
    ensures Lexemes(EmitBlock(sh, data, ss)) == ["{"] + (M.PrintBody(LiftBody(sh, data, ss)) + ["}"])
    decreases ss, 1
  {
    hide Lexemes, PieceLexemes, TextLexemes;
    StatementLexemes();
    BodyText(sh, data, ss);
    OneText(Text("{"), EmitBody(sh, data, ss), Text("}"));
  }

  lemma {:induction false} BodyText(sh: Shader, data: Analysis, ss: seq<Stmt>)
    requires ProperBody(sh, data, ss)
    ensures Lexemes(EmitBody(sh, data, ss)) == M.PrintBody(LiftBody(sh, data, ss))
    decreases ss, 0
  {
    hide EmitStmt, LiftStmt, PieceLexemes, ProperStmt;
    if ss != [] {
      StmtText(sh, data, ss[0]);
      BodyText(sh, data, ss[1..]);
      LexemesConcat(EmitStmt(sh, data, ss[0]), EmitBody(sh, data, ss[1..]));
      PrintBodyConcat(LiftStmt(sh, data, ss[0]), LiftBody(sh, data, ss[1..]));
    }
  }

  lemma {:induction false} StmtText(sh: Shader, data: Analysis, s: Stmt)
    requires ProperStmt(sh, data, s)
    ensures Lexemes(EmitStmt(sh, data, s)) == M.PrintBody(LiftStmt(sh, data, s))
    decreases s, 2
  {
    hide Lexemes, PieceLexemes, TextLexemes, Emit, Lift, EmitStmt;
    match s {
      case Gap(b) => GapIsSilent(sh, data, b);
      case If(_, _, _) => IfText(sh, data, s);
      case When(_, _) => WhenText(sh, data, s);
      case While(_, _) => WhenText(sh, data, s);
      case _ => SimpleText(sh, data, s);
    }
  }

  lemma GapIsSilent(sh: Shader, data: Analysis, b: string)
    requires Whitespace(b)
    ensures Lexemes(EmitStmt(sh, data, Gap(b))) == []
  {
    assert b[0] in b;
    assert TextLexemes(b) == [];
    hide TextLexemes;
    NameLexeme(Text(b));
  }

  /** The start of a declaration. */
  lemma DeclarationText(sh: Shader, t: string, x: string, more: seq<Piece>)
    ensures Lexemes([SpelledType(sh, t)] + (GAP + ([Copied(x)] + more))) == [MetalType(sh, t), x] + Lexemes(more)
  {
    hide Lexemes, PieceLexemes, TextLexemes, SpelledType, MetalType;
    TypeLexeme(sh, t);
    NameLexeme(Copied(x));
    LexemesFirst(SpelledType(sh, t), GAP + ([Copied(x)] + more));
    GapText([Copied(x)] + more);
    LexemesFirst(Copied(x), more);
    assert [MetalType(sh, t)] + ([x] + Lexemes(more)) == [MetalType(sh, t), x] + Lexemes(more);
  }

  lemma SimpleText(sh: Shader, data: Analysis, s: Stmt)
    requires (s.Let? || s.Declare? || s.Assign? || s.Return?) && ProperStmt(sh, data, s)
    ensures Lexemes(EmitStmt(sh, data, s)) == M.PrintBody(LiftStmt(sh, data, s))
  {
    hide *;
    match s {
      case Let(_, _) => LetText(sh, data, s);
      case Declare(_, _, _) => DeclareText(sh, data, s);
      case Assign(_, _, _, _) => AssignText(sh, data, s);
      case Return(_) => ReturnText(sh, data, s);
      case _ =>
    }
  }

  lemma LetText(sh: Shader, data: Analysis, s: Stmt)
    requires s.Let? && ProperStmt(sh, data, s)
    ensures Lexemes(EmitStmt(sh, data, s)) == M.PrintBody(LiftStmt(sh, data, s))
  {
    hide Lexemes, PieceLexemes, TextLexemes, SpelledType, MetalType;
    OneStmt(LiftStmt(sh, data, s)[0]);
    StatementLexemes();
    NameLexeme(Text(";"));
    DeclarationText(sh, s.typeName, s.x, [Text(";")]);
    assert [Copied(s.x), Text(";")] == [Copied(s.x)] + [Text(";")];
  }

  lemma DeclareText(sh: Shader, data: Analysis, s: Stmt)
    requires s.Declare? && ProperStmt(sh, data, s)
    ensures Lexemes(EmitStmt(sh, data, s)) == M.PrintBody(LiftStmt(sh, data, s))
  {
    hide Lexemes, PieceLexemes, TextLexemes, Emit, Lift, EmitValue, SpelledType, MetalType;
    var Declare(t, x, e) := s;
    OneStmt(LiftStmt(sh, data, s)[0]);
    ValueText(sh, data, "=", e);
    DeclarationText(sh, t, x, EmitValue(data, "=", e));
    var value := M.Print(Lift(data, e)) + [";"];
    assert [MetalType(sh, t), x] + (["="] + value) == [MetalType(sh, t), x, "="] + value;
  }

  lemma AssignText(sh: Shader, data: Analysis, s: Stmt)
    requires s.Assign? && ProperStmt(sh, data, s)
    ensures Lexemes(EmitStmt(sh, data, s)) == M.PrintBody(LiftStmt(sh, data, s))
  {
    hide Lexemes, PieceLexemes, TextLexemes, Emit, Lift, EmitFields, EmitValue;
    var Assign(x, fields, op, e) := s;
    OneStmt(LiftStmt(sh, data, s)[0]);
    ValueText(sh, data, op, e);
    FieldsText(fields);
    NameLexeme(Copied(x));
    LexemesFirst(Copied(x), EmitFields(fields) + EmitValue(data, op, e));
    LexemesConcat(EmitFields(fields), EmitValue(data, op, e));
  }

  lemma ReturnText(sh: Shader, data: Analysis, s: Stmt)
    requires s.Return? && ProperStmt(sh, data, s)
    ensures Lexemes(EmitStmt(sh, data, s)) == M.PrintBody(LiftStmt(sh, data, s))
  {
    hide Lexemes, PieceLexemes, TextLexemes, Emit, Lift;
    OneStmt(LiftStmt(sh, data, s)[0]);
    ValueText(sh, data, "=", s.value);
    FixedLexemes();
    NameLexeme(Copied("return"));
    var value := Emit(data, s.value) + [Text(";")];
    assert [Copied("return"), Text(" ")] + value == [Copied("return")] + ([Text(" ")] + value);
    LexemesFirst(Copied("return"), [Text(" ")] + value);
    LexemesFirst(Text(" "), value);
  }

  lemma {:induction false} WhenText(sh: Shader, data: Analysis, s: Stmt)
    requires (s.When? || s.While?) && ProperStmt(sh, data, s)
    ensures Lexemes(EmitStmt(sh, data, s)) == M.PrintBody(LiftStmt(sh, data, s))
    decreases s, 1
  {
    hide Lexemes, PieceLexemes, TextLexemes, Emit, Lift, EmitBlock;
    OneStmt(LiftStmt(sh, data, s)[0]);
    var word, body := if s.When? then "if" else "while", if s.When? then s.thn else s.body;
    BlockText(sh, data, body);
    BranchText(sh, data, word, s.cond, EmitBlock(sh, data, body));
    BlockPrint(M.PrintBody(LiftBody(sh, data, body)), ["}"]);
  }

  lemma BlockPrint(body: M.Text, more: M.Text)
    ensures [")"] + (["{"] + (body + more)) == [")", "{"] + (body + more)
  {
  }

  lemma {:induction false} IfText(sh: Shader, data: Analysis, s: Stmt)
    requires s.If? && ProperStmt(sh, data, s)
    ensures Lexemes(EmitStmt(sh, data, s)) == M.PrintBody(LiftStmt(sh, data, s))
    decreases s, 1
  {
    hide Lexemes, PieceLexemes, TextLexemes, Emit, Lift, EmitBlock;
    OneStmt(LiftStmt(sh, data, s)[0]);
    var a, b := EmitBlock(sh, data, s.thn), EmitBlock(sh, data, s.els);
    BlockText(sh, data, s.thn);
    BlockText(sh, data, s.els);
    ElseText(a, b);
    BranchText(sh, data, "if", s.cond, a + ([Text(" "), Copied("else"), Text(" ")] + b));
    ElsePrint(M.PrintBody(LiftBody(sh, data, s.thn)), M.PrintBody(LiftBody(sh, data, s.els)));
  }

  lemma ElseText(a: seq<Piece>, b: seq<Piece>)
    ensures Lexemes(a + ([Text(" "), Copied("else"), Text(" ")] + b)) == Lexemes(a) + (["else"] + Lexemes(b))
  {
    hide Lexemes, PieceLexemes, TextLexemes;
    FixedLexemes();
    NameLexeme(Copied("else"));
    var more := [Text(" "), Copied("else"), Text(" ")] + b;
    LexemesConcat(a, more);
    assert more == [Text(" ")] + ([Copied("else")] + ([Text(" ")] + b));
    LexemesFirst(Text(" "), [Copied("else")] + ([Text(" ")] + b));
    LexemesFirst(Copied("else"), [Text(" ")] + b);
    LexemesFirst(Text(" "), b);
    assert [] + (["else"] + ([] + Lexemes(b))) == ["else"] + Lexemes(b);
  }

  lemma ElsePrint(a: M.Text, b: M.Text)
    ensures [")"] + (["{"] + (a + ["}"]) + (["else"] + (["{"] + (b + ["}"]))))
         == [")", "{"] + (a + (["}", "else", "{"] + (b + ["}"])))
  {
    assert ["}"] + (["else"] + (["{"] + (b + ["}"]))) == ["}", "else", "{"] + (b + ["}"]);
  }
}
