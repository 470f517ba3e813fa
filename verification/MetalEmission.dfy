/** What is emitted for a program: the text of the lifted program, which is read as that program. */
module MetalEmission {
  import opened Options
  import opened ShaderTokens
  import opened MetalTranspiler
  import opened MetalAnalysis
  import opened MetalScoping
  import opened MetalSyntax
  import opened MetalRendering
  import opened MetalLifting
  import opened MetalLexemes
  import opened MetalReading
  import opened MetalMachines
  import opened MetalMeaning
  import M = MetalText

  /** What is emitted for a function is the text of its lifted body. */
  lemma EmittedIsLifted(p: Program, i: nat)
    requires Proper(p) && i < |p.bodies|
    ensures EmittedBody(p.shader, i).Ok?
    ensures EmittedBody(p.shader, i).value.out == EmitBody(p.shader, FinalAnalysis(p.shader), p.bodies[i])
    ensures EmittedBody(p.shader, i).value.rest == SkipTo(p.shader.funcs[i].body, "}")
    ensures Lexemes(EmittedBody(p.shader, i).value.out) == M.PrintBody(LiftProgram(p).bodies[i])
  {
    hide WellFormed, SafeDelimiters, Distinct, FinalAnalysis, Declared, ProperBody, SkipTo, Transpile, NamesAreFree,
         Lexemes, BodyTokens, EmitBody, LiftBody, FunctionNames, Signature, FinalData;
    var sh := p.shader;
    var body, ts := sh.funcs[i].body, BodyTokens(p.bodies[i]);
    var post := body[|ts| + 1..];
    assert body == ts + ([END] + post);
    TranspileBody(sh, FinalAnalysis(sh), p.bodies[i], BEGIN, post);
    SkipBody(sh, FinalAnalysis(sh), p.bodies[i], post);
    BodyText(sh, FinalAnalysis(sh), p.bodies[i]);
  }

  ghost predicate GlobalsAreWords(sh: Shader) {
    forall kind, x :: x in Declared(sh, kind) ==> M.Word(x)
  }

  lemma CallsPassWords(sh: Shader)
    requires WellFormed(sh) && GlobalsAreWords(sh)
    ensures PassesWords(FinalAnalysis(sh))
  {
    hide WellFormed, Declared, M.Word;
    forall f, a | a in DataOf(FinalAnalysis(sh), f).AdditionalArguments()
      ensures M.Word(a)
    {
      if forall k :: 0 <= k < |sh.funcs| ==> sh.funcs[k].name != f {
        EntryEmpty(sh, |sh.funcs|, f);
      } else {
        var j :| 0 <= j < |sh.funcs| && sh.funcs[j].name == f;
        var kind :| a in FinalData(sh, j).Needs(kind);
        NeedsAreDeclared(sh, j, kind, a);
      }
    }
  }

  /** If the tokens of a function are read as its body, the emitted text is read as the lifted body exactly when every
      product in it stands where a `*` or a `+` may stand. */
  lemma EmittedReads(p: Program, i: nat)
    requires Proper(p) && i < |p.bodies| && GlobalsAreWords(p.shader)
    requires M.ParseBody(Spoken(BodyTokens(p.bodies[i]))) == Some((VerbatimBody(p.bodies[i]), []))
    ensures EmittedBody(p.shader, i).Ok?
    ensures M.ParseBody(Lexemes(EmittedBody(p.shader, i).value.out)) == Some((LiftProgram(p).bodies[i], []))
       <==> ClearBody(p.bodies[i])
  {
    EmittedIsLifted(p, i);
    CallsPassWords(p.shader);
    BodyParts(p, i);
    hide *;
    EmittedReadsBack(p.shader, FinalAnalysis(p.shader), p.bodies[i]);
  }

  lemma BodyParts(p: Program, i: nat)
    requires Proper(p) && i < |p.bodies|
    ensures ProperBody(p.shader, FinalAnalysis(p.shader), p.bodies[i])
    ensures LiftProgram(p).bodies[i] == LiftBody(p.shader, FinalAnalysis(p.shader), p.bodies[i])
  {
    hide WellFormed, SafeDelimiters, Distinct, FinalAnalysis, Declared, ProperBody, NamesAreFree, LiftBody;
  }

  // ---------------------------------------------------------------------------------------------------------
  // Nothing in it is out of scope

  ghost predicate NoneCompared(ps: seq<Piece>) {
    forall c :: c in ps ==> !c.Compare?
  }

  ghost predicate NoneComparedIn(parts: seq<seq<Piece>>) {
    forall k :: 0 <= k < |parts| ==> NoneCompared(parts[k])
  }

  lemma NoneConcat(a: seq<Piece>, b: seq<Piece>)
    ensures NoneCompared(a + b) <==> NoneCompared(a) && NoneCompared(b)
  {
    if NoneCompared(a + b) {
      forall c | c in a ensures !c.Compare? { assert c in a + b; }
      forall c | c in b ensures !c.Compare? { assert c in a + b; }
    }
  }

  /** Pieces of fixed text. */
  lemma NoneFixed()
    ensures NoneCompared(SEPARATOR) && NoneCompared(GAP) && NoneCompared([])
    ensures forall s: string :: NoneCompared([Text(s)]) && NoneCompared([Copied(s)])
    ensures forall s: string :: NoneCompared(SpacedPieces(s))
  {
  }

  lemma {:induction false} ExprHasNone(sh: Shader, data: Analysis, e: Expr)
    requires ProperPart(sh, data, e)
    ensures NoneCompared(Emit(data, e))
    decreases e, 2
  {
    hide UniformNames, TextureNames, PlainName, OuterName, EmitCall, EmitAccess;
    match e {
      case Paren(x) => ExprHasNone(sh, data, x);
      case Negate(x) => ExprHasNone(sh, data, x);
      case Infix(_, l, r) =>
        ExprHasNone(sh, data, l);
        ExprHasNone(sh, data, r);
      case Conditional(c, a, b) =>
        ExprHasNone(sh, data, c);
        ExprHasNone(sh, data, a);
        ExprHasNone(sh, data, b);
      case Member(b, _) => ExprHasNone(sh, data, b);
      case Index(b, n) =>
        ExprHasNone(sh, data, b);
        ExprHasNone(sh, data, n);
      case Call(f, args) =>
        CallParts(sh, data, e);
        ArgsHaveNone(sh, data, args);
        CallHasNone(data, f, EmitEach(data, args));
      case Access(_, f, args) =>
        PartsAreProper(sh, data, e);
        ArgsHaveNone(sh, data, args);
        AccessHasNone(f, EmitEach(data, args));
      case _ =>
    }
  }

  lemma {:induction false} ArgsHaveNone(sh: Shader, data: Analysis, args: seq<Expr>)
    requires forall a :: a in args ==> ProperPart(sh, data, a)
    ensures NoneComparedIn(EmitEach(data, args))
    decreases args, 1
  {
    hide Emit, ProperPart, NoneCompared;
    if args != [] {
      ExprHasNone(sh, data, args[0]);
      ArgsHaveNone(sh, data, args[1..]);
      EachPart(data, args);
    }
  }

  lemma {:induction false} JoinedHasNone(parts: seq<seq<Piece>>)
    requires NoneComparedIn(parts)
    ensures NoneCompared(Joined(parts))
    decreases |parts|
  {
    if |parts| > 1 {
      JoinedHasNone(parts[1..]);
    }
  }

  lemma {:induction false} ExtrasHaveNone(names: seq<string>)
    ensures NoneCompared(ExtraArgs(names))
  {
    if names != [] {
      ExtrasHaveNone(names[1..]);
    }
  }

  lemma ConversionHasNone(open: string, part: seq<Piece>)
    requires NoneCompared(part)
    ensures NoneCompared(Converted(open, part)) && NoneCompared(Converted(open, GAP + part))
  {
  }

  lemma IntsHaveNone(parts: seq<seq<Piece>>)
    requires NoneComparedIn(parts) && 2 <= |parts| <= 3
    ensures NoneCompared(EmitInts(parts))
  {
    hide Converted;
    ConversionHasNone("int(", parts[1]);
    ConversionHasNone("int(", parts[0]);
    ConversionHasNone("int2(", parts[0]);
    if |parts| == 3 {
      ConversionHasNone("int(", parts[2]);
    }
  }

  lemma CallHasNone(data: Analysis, f: string, parts: seq<seq<Piece>>)
    requires NoneComparedIn(parts)
    ensures NoneCompared(EmitCall(data, f, parts))
  {
    if f == "mul" && |parts| == 2 {
      ProductHasNone(parts[0], parts[1]);
    } else if f == "mad" && |parts| == 3 {
      SumHasNone(parts[0], parts[1], parts[2]);
    } else if f == "int3" && 2 <= |parts| <= 3 {
      IntsHaveNone(parts);
      hide NoneCompared, EmitInts;
      NoneFixed();
      NoneConcat([Text("(")], EmitInts(parts));
      NoneConcat([Text("(")] + EmitInts(parts), [Text(")")]);
      NoneConcat([Copied("int3")], [Text("(")] + EmitInts(parts) + [Text(")")]);
    } else {
      PlainHasNone(data, f, parts);
    }
  }

  lemma ProductHasNone(a: seq<Piece>, b: seq<Piece>)
    requires NoneCompared(a) && NoneCompared(b)
    ensures NoneCompared([Text("(")] + a + [Text(") * (")] + b + [Text(")")])
  {
    hide NoneCompared;
    NoneFixed();
    NoneConcat([Text("(")], a);
    NoneConcat([Text("(")] + a, [Text(") * (")]);
    NoneConcat([Text("(")] + a + [Text(") * (")], b);
    NoneConcat([Text("(")] + a + [Text(") * (")] + b, [Text(")")]);
  }

  lemma SumHasNone(a: seq<Piece>, b: seq<Piece>, c: seq<Piece>)
    requires NoneCompared(a) && NoneCompared(b) && NoneCompared(c)
    ensures NoneCompared([Text("((")] + a + [Text(") * (")] + (GAP + b) + [Text(")) + (")] + (GAP + c) + [Text(")")])
  {
    hide NoneCompared;
    NoneFixed();
    NoneConcat(GAP, b);
    NoneConcat(GAP, c);
    NoneConcat([Text("((")], a);
    NoneConcat([Text("((")] + a, [Text(") * (")]);
    NoneConcat([Text("((")] + a + [Text(") * (")], GAP + b);
    var front := [Text("((")] + a + [Text(") * (")] + (GAP + b);
    NoneConcat(front, [Text(")) + (")]);
    NoneConcat(front + [Text(")) + (")], GAP + c);
    NoneConcat(front + [Text(")) + (")] + (GAP + c), [Text(")")]);
  }

  lemma PlainHasNone(data: Analysis, f: string, parts: seq<seq<Piece>>)
    requires NoneComparedIn(parts)
    ensures var extra := DataOf(data, f).AdditionalArguments();
      NoneCompared([Spelled(f)] + ([Text("(")] + (if extra == [] then Joined(parts)
                                                  else Joined(parts) + SEPARATOR + ExtraArgs(extra)) + [Text(")")]))
  {
    var extra := DataOf(data, f).AdditionalArguments();
    JoinedHasNone(parts);
    ExtrasHaveNone(extra);
    assert NoneCompared([Spelled(f)]) by { hide MetalName; }
    hide NoneCompared, Joined, ExtraArgs, Spelled, DataOf;
    NoneFixed();
    NoneConcat(Joined(parts), SEPARATOR);
    NoneConcat(Joined(parts) + SEPARATOR, ExtraArgs(extra));
    var inner := if extra == [] then Joined(parts) else Joined(parts) + SEPARATOR + ExtraArgs(extra);
    NoneConcat([Text("(")], inner);
    NoneConcat([Text("(")] + inner, [Text(")")]);
    NoneConcat([Spelled(f)], [Text("(")] + inner + [Text(")")]);
  }

  lemma AccessHasNone(f: string, parts: seq<seq<Piece>>)
    requires NoneComparedIn(parts)
    ensures NoneCompared(EmitAccess(f, parts))
  {
    if f == "Load" && |parts| == 1 && ReadCall(parts[0]).Ok? {
      hide EmitAccess;
      ReadHasNone(parts[0]);
      assert EmitAccess(f, parts) == ReadCall(parts[0]).value by { LoadIsRead(parts); }
    } else {
      hide ReadCall;
    }
  }

  lemma LoadIsRead(parts: seq<seq<Piece>>)
    requires |parts| == 1 && ReadCall(parts[0]).Ok?
    ensures EmitAccess("Load", parts) == ReadCall(parts[0]).value
  {
    hide ReadCall;
  }

  lemma ReadHasNone(ps: seq<Piece>)
    requires NoneCompared(ps) && ReadCall(ps).Ok?
    ensures NoneCompared(ReadCall(ps).value)
  {
    if |ps| >= 3 {
      SplitHasNone(ps[2..|ps| - 1], 3, []);
    }
    hide Split;
  }

  lemma {:induction false} SplitHasNone(ps: seq<Piece>, cuts: nat, part: seq<Piece>)
    requires NoneCompared(ps) && NoneCompared(part)
    ensures NoneComparedIn(Split(ps, cuts, part))
    decreases |ps|
  {
    if ps != [] {
      if ps[0] == Text(",") && cuts > 0 {
        SplitHasNone(ps[1..], if part == [] then cuts else cuts - 1, []);
      } else {
        SplitHasNone(ps[1..], cuts, part + [ps[0]]);
      }
    }
  }

  lemma {:induction false} FieldsHaveNone(fields: seq<string>)
    ensures NoneCompared(EmitFields(fields))
  {
    if fields != [] {
      FieldsHaveNone(fields[1..]);
    }
  }

  lemma ValueHasNone(sh: Shader, data: Analysis, e: Expr)
    requires ProperExpr(sh, data, e)
    ensures NoneCompared(Emit(data, e)) && NoneCompared(Emit(data, e) + [Text(";")])
    ensures forall op :: NoneCompared(EmitValue(data, op, e))
    ensures NoneCompared(EmitCondition(data, e))
  {
    ExprHasNone(sh, data, e);
    hide NoneCompared, Emit;
    NoneFixed();
    NoneConcat(Emit(data, e), [Text(";")]);
    forall op ensures NoneCompared(EmitValue(data, op, e)) {
      hide SpacedPieces;
      NoneConcat(SpacedPieces(op), Emit(data, e) + [Text(";")]);
    }
    NoneConcat([Text("(")], Emit(data, e));
    NoneConcat([Text("(")] + Emit(data, e), [Text(")")]);
  }

  lemma {:induction false} BlockHasNone(sh: Shader, data: Analysis, ss: seq<Stmt>)
    requires ProperBody(sh, data, ss)
    ensures NoneCompared(EmitBlock(sh, data, ss))
    decreases ss, 1
  {
    BodyHasNone(sh, data, ss);
    hide NoneCompared, EmitBody;
    NoneFixed();
    NoneConcat([Text("{")], EmitBody(sh, data, ss));
    NoneConcat([Text("{")] + EmitBody(sh, data, ss), [Text("}")]);
  }

  /** A keyword and a condition in front of other pieces. */
  lemma BranchHasNone(sh: Shader, data: Analysis, word: string, c: Expr, more: seq<Piece>)
    requires ProperExpr(sh, data, c) && NoneCompared(more)
    ensures NoneCompared([Copied(word), Text(" ")] + (EmitCondition(data, c) + (GAP + more)))
  {
    ValueHasNone(sh, data, c);
    assert NoneCompared([Copied(word), Text(" ")]);
    hide NoneCompared, EmitCondition;
    NoneFixed();
    NoneConcat(GAP, more);
    NoneConcat(EmitCondition(data, c), GAP + more);
    NoneConcat([Copied(word), Text(" ")], EmitCondition(data, c) + (GAP + more));
  }

  lemma {:induction false} StmtHasNone(sh: Shader, data: Analysis, s: Stmt)
    requires ProperStmt(sh, data, s)
    ensures NoneCompared(EmitStmt(sh, data, s))
    decreases s, 1
  {
    hide EmitBlock, EmitCondition, ProperExpr, NoneCompared;
    match s {
      case If(c, a, b) =>
        BlockHasNone(sh, data, a);
        BlockHasNone(sh, data, b);
        ElseHasNone(EmitBlock(sh, data, a), EmitBlock(sh, data, b));
        BranchHasNone(sh, data, "if", c, EmitBlock(sh, data, a)
                      + ([Text(" "), Copied("else"), Text(" ")] + EmitBlock(sh, data, b)));
      case When(c, a) =>
        BlockHasNone(sh, data, a);
        BranchHasNone(sh, data, "if", c, EmitBlock(sh, data, a));
      case While(c, b) =>
        BlockHasNone(sh, data, b);
        BranchHasNone(sh, data, "while", c, EmitBlock(sh, data, b));
      case _ => SimpleHasNone(sh, data, s);
    }
  }

  lemma ElseHasNone(a: seq<Piece>, b: seq<Piece>)
    requires NoneCompared(a) && NoneCompared(b)
    ensures NoneCompared(a + ([Text(" "), Copied("else"), Text(" ")] + b))
  {
    assert NoneCompared([Text(" "), Copied("else"), Text(" ")]);
    hide NoneCompared;
    NoneConcat([Text(" "), Copied("else"), Text(" ")], b);
    NoneConcat(a, [Text(" "), Copied("else"), Text(" ")] + b);
  }

  lemma SimpleHasNone(sh: Shader, data: Analysis, s: Stmt)
    requires ProperStmt(sh, data, s) && !s.If? && !s.When? && !s.While?
    ensures NoneCompared(EmitStmt(sh, data, s))
  {
    hide ProperExpr, Emit, EmitValue, SpelledType;
    match s {
      case Declare(t, x, e) =>
        ValueHasNone(sh, data, e);
        TypeHasNone(sh, t);
      case Let(t, x) => TypeHasNone(sh, t);
      case Assign(x, fields, op, e) =>
        ValueHasNone(sh, data, e);
        FieldsHaveNone(fields);
      case Return(e) => ValueHasNone(sh, data, e);
      case _ =>
    }
    hide EmitFields, PlainName, LocalName, TypeName, Keywords;
  }

  lemma TypeHasNone(sh: Shader, t: string)
    ensures !SpelledType(sh, t).Compare?
  {
    hide MetalName;
  }

  lemma {:induction false} BodyHasNone(sh: Shader, data: Analysis, ss: seq<Stmt>)
    requires ProperBody(sh, data, ss)
    ensures NoneCompared(EmitBody(sh, data, ss))
    decreases ss, 0
  {
    hide EmitStmt, ProperStmt;
    if ss == [] {
      NoneFixed();
    } else {
      StmtHasNone(sh, data, ss[0]);
      BodyHasNone(sh, data, ss[1..]);
      NoneConcat(EmitStmt(sh, data, ss[0]), EmitBody(sh, data, ss[1..]));
    }
  }

  /** Everything that the emitted function names is a parameter. */
  lemma EmittedIsInScope(p: Program, i: nat)
    requires Proper(p) && i < |p.bodies| && CallsByName(p.shader, i)
    ensures EmittedBody(p.shader, i).Ok?
    ensures forall x :: x in EmittedBody(p.shader, i).value.out ==> InScope(p.shader, LiftProgram(p).params[i], x)
  {
    EmittedIsLifted(p, i);
    BodyParts(p, i);
    ScopeParts(p, i);
    hide *;
    BodyHasNone(p.shader, FinalAnalysis(p.shader), p.bodies[i]);
    var out := EmittedBody(p.shader, i).value.out;
    forall x | x in out
      ensures InScope(p.shader, LiftProgram(p).params[i], x)
    {
      NotCompared(out, x);
      EndedBodyInScope(p.shader, i, x);
    }
  }

  lemma NotCompared(ps: seq<Piece>, x: Piece)
    requires NoneCompared(ps) && x in ps
    ensures !x.Compare?
  {
  }

  lemma ScopeParts(p: Program, i: nat)
    requires Proper(p) && i < |p.bodies|
    ensures WellFormed(p.shader) && i < |p.shader.funcs|
    ensures LiftProgram(p).params[i] == Signature(p.shader, FinalData(p.shader, i), p.shader.funcs[i])
  {
    hide WellFormed, SafeDelimiters, Distinct, FinalAnalysis, Declared, ProperBody, NamesAreFree, LiftBody, Signature,
         FinalData;
  }
}
