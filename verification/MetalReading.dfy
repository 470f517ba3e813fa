/** The Metal compiler reads what is emitted for a body as the lifted body exactly when each product stands where its
    operator may stand. */
module MetalReading {
  import opened Options
  import opened ShaderTokens
  import opened MetalTranspiler
  import opened MetalSyntax
  import opened MetalRendering
  import opened MetalLifting
  import opened MetalLexemes
  import M = MetalText

  // ---------------------------------------------------------------------------------------------------------
  // The source as it is read

  /** The expression as it is written, with the names it is written with. */
  function Verbatim(e: Expr): M.Expr {
    match e
    case Literal(n) => M.Literal(n)
    case Local(x) => M.Name(x)
    case Handle(s) => M.Name(s)
    case Uniform(u) => M.Name(u)
    case Paren(x) => M.Paren(Verbatim(x))
    case Negate(x) => M.Negate(Verbatim(x))
    case Infix(op, l, r) => M.Infix(op, Verbatim(l), Verbatim(r))
    case Conditional(c, a, b) => M.Conditional(Verbatim(c), Verbatim(a), Verbatim(b))
    case Member(b, f) => M.Member(Verbatim(b), f)
    case Index(b, i) => M.Index(Verbatim(b), Verbatim(i))
    case Call(f, args) => M.Call(f, VerbatimEach(args))
    case Access(t, f, args) => M.Method(M.Name(t), f, VerbatimEach(args))
  }

  function VerbatimEach(args: seq<Expr>): (es: seq<M.Expr>)
    ensures |es| == |args| && forall k :: 0 <= k < |args| ==> es[k] == Verbatim(args[k])
  {
    if args == [] then [] else [Verbatim(args[0])] + VerbatimEach(args[1..])
  }

  function VerbatimStmt(s: Stmt): seq<M.Stmt>
    decreases s
  {
    match s
    case Gap(_) => []
    case Let(t, x) => [M.Let(t, x)]
    case Declare(t, x, e) => [M.Declare(t, x, Verbatim(e))]
    case Assign(x, fields, op, e) => [M.Assign(x, fields, op, Verbatim(e))]
    case If(c, a, b) => [M.If(Verbatim(c), VerbatimBody(a), VerbatimBody(b))]
    case When(c, a) => [M.When(Verbatim(c), VerbatimBody(a))]
    case While(c, b) => [M.While(Verbatim(c), VerbatimBody(b))]
    case Return(e) => [M.Return(Verbatim(e))]
  }

  function VerbatimBody(ss: seq<Stmt>): seq<M.Stmt>
    decreases ss
  {
    if ss == [] then [] else VerbatimStmt(ss[0]) + VerbatimBody(ss[1..])
  }

  /** The tokens without the blanks: operators of two characters are two tokens. */
  function Spoken(ts: seq<Token>): M.Text {
    if ts == [] then [] else (if ts[0].Blank? then [] else [ts[0].text]) + Spoken(ts[1..])
  }

  lemma {:induction false} SpokenConcat(a: seq<Token>, b: seq<Token>)
    ensures Spoken(a + b) == Spoken(a) + Spoken(b)
  {
    if a == [] {
      assert a + b == b;
    } else {
      assert (a + b)[1..] == a[1..] + b;
      SpokenConcat(a[1..], b);
    }
  }

  lemma SpokenFirst(t: Token, ts: seq<Token>)
    ensures Spoken([t] + ts) == (if t.Blank? then [] else [t.text]) + Spoken(ts)
  {
    assert ([t] + ts)[1..] == ts;
  }

  lemma SpokenOne(t: Token)
    ensures Spoken([t]) == if t.Blank? then [] else [t.text]
  {
    SpokenFirst(t, []);
    assert [t] + [] == [t];
  }

  /** Two tokens in front. */
  lemma SpokenTwo(t: Token, u: Token, ts: seq<Token>)
    ensures Spoken([t, u] + ts)
         == (if t.Blank? then [] else [t.text]) + ((if u.Blank? then [] else [u.text]) + Spoken(ts))
  {
    assert [t, u] + ts == [t] + ([u] + ts);
    SpokenFirst(t, [u] + ts);
    SpokenFirst(u, ts);
  }

  lemma SpokenParen(ts: seq<Token>)
    ensures Spoken([OPEN] + (ts + [CLOSE])) == ["("] + (Spoken(ts) + [")"])
  {
    hide Spoken;
    SpokenFirst(OPEN, ts + [CLOSE]);
    SpokenConcat(ts, [CLOSE]);
    SpokenOne(CLOSE);
  }

  lemma SpokenInfix(op: string, ls: seq<Token>, rs: seq<Token>)
    ensures Spoken(ls + (Spaced(op) + rs)) == Spoken(ls) + (M.OpText(op) + Spoken(rs))
  {
    hide Spoken, Spaced, M.OpText;
    SpokenConcat(ls, Spaced(op) + rs);
    SpokenSign(op, rs);
  }

  lemma {:induction false} ExprSpoken(e: Expr)
    ensures Spoken(Tokens(e)) == M.Print(Verbatim(e))
    decreases e, 1
  {
    hide Spoken, Spaced, M.OpText;
    match e {
      case Literal(n) => SpokenOne(Number(n));
      case Local(x) => SpokenOne(Name(x));
      case Handle(x) => SpokenOne(Name(x));
      case Uniform(x) => SpokenOne(Name(x));
      case Paren(x) =>
        ExprSpoken(x);
        SpokenParen(Tokens(x));
      case Negate(x) =>
        ExprSpoken(x);
        SpokenFirst(MINUS, Tokens(x));
      case Infix(op, l, r) =>
        ExprSpoken(l);
        ExprSpoken(r);
        SpokenInfix(op, Tokens(l), Tokens(r));
      case Conditional(c, a, b) =>
        ExprSpoken(c);
        ExprSpoken(a);
        ExprSpoken(b);
        SpokenConditional(Tokens(c), Tokens(a), Tokens(b));
      case Member(b, f) =>
        ExprSpoken(b);
        SpokenMember(Tokens(b), f);
      case Index(b, i) =>
        ExprSpoken(b);
        ExprSpoken(i);
        SpokenIndex(Tokens(b), Tokens(i));
      case Call(f, args) =>
        ArgsSpoken(args);
        SpokenCall(f, ArgTokens(args));
      case Access(t, f, args) =>
        ArgsSpoken(args);
        SpokenAccess(t, f, ArgTokens(args));
    }
  }

  lemma SpokenMember(b: seq<Token>, f: string)
    ensures Spoken(b + [DOT, Name(f)]) == Spoken(b) + [".", f]
  {
    hide Spoken;
    SpokenConcat(b, [DOT, Name(f)]);
    assert [DOT, Name(f)] == [DOT] + [Name(f)];
    SpokenFirst(DOT, [Name(f)]);
    SpokenOne(Name(f));
  }

  lemma SpokenIndex(b: seq<Token>, i: seq<Token>)
    ensures Spoken(b + ([LEFT] + (i + [RIGHT]))) == Spoken(b) + (["["] + (Spoken(i) + ["]"]))
  {
    hide Spoken;
    SpokenConcat(b, [LEFT] + (i + [RIGHT]));
    SpokenFirst(LEFT, i + [RIGHT]);
    SpokenConcat(i, [RIGHT]);
    SpokenOne(RIGHT);
  }

  lemma SpokenAccess(t: string, f: string, args: seq<Token>)
    ensures Spoken([Name(t), DOT, Name(f), OPEN] + (args + [CLOSE])) == [t] + ([".", f, "("] + (Spoken(args) + [")"]))
  {
    hide Spoken;
    var call := [Name(f), OPEN] + (args + [CLOSE]);
    assert [Name(t), DOT, Name(f), OPEN] + (args + [CLOSE]) == [Name(t), DOT] + call;
    SpokenTwo(Name(t), DOT, call);
    SpokenCall(f, args);
    assert ["."] + ([f, "("] + (Spoken(args) + [")"])) == [".", f, "("] + (Spoken(args) + [")"]);
  }

  /** An operator between blanks. */
  lemma SpokenSign(op: string, r: seq<Token>)
    ensures Spoken(Spaced(op) + r) == M.OpText(op) + Spoken(r)
  {
    hide Spoken;
    assert Spaced(op) + r == [SPACE] + (OpTokens(op) + ([SPACE] + r));
    SpokenFirst(SPACE, OpTokens(op) + ([SPACE] + r));
    SpokenFirst(SPACE, r);
    if |op| == 2 {
      SpokenTwo(Other(op[..1]), Other(op[1..]), [SPACE] + r);
      assert [op[..1]] + ([op[1..]] + Spoken(r)) == M.OpText(op) + Spoken(r);
    } else {
      SpokenFirst(Other(op), [SPACE] + r);
    }
  }

  lemma SpokenConditional(c: seq<Token>, a: seq<Token>, b: seq<Token>)
    ensures Spoken(c + (QUESTION + (a + (COLON + b))))
         == Spoken(c) + (["?"] + (Spoken(a) + ([":"] + Spoken(b))))
  {
    MarksAreSpaced();
    hide Spoken, Spaced, QUESTION, COLON;
    var yes := a + (COLON + b);
    SpokenConcat(c, QUESTION + yes);
    SpokenSign("?", yes);
    SpokenConcat(a, COLON + b);
    SpokenSign(":", b);
    assert M.OpText("?") == ["?"] && M.OpText(":") == [":"];
  }

  lemma SpokenCall(f: string, args: seq<Token>)
    ensures Spoken([Name(f), OPEN] + (args + [CLOSE])) == [f, "("] + (Spoken(args) + [")"])
  {
    hide Spoken;
    SpokenTwo(Name(f), OPEN, args + [CLOSE]);
    SpokenConcat(args, [CLOSE]);
    SpokenOne(CLOSE);
    assert [f] + (["("] + (Spoken(args) + [")"])) == [f, "("] + (Spoken(args) + [")"]);
  }

  lemma {:induction false} ArgsSpoken(args: seq<Expr>)
    ensures Spoken(ArgTokens(args)) == M.PrintArgs(VerbatimEach(args))
    decreases args, 0
  {
    hide Tokens, Verbatim;
    if args != [] {
      ExprSpoken(args[0]);
      if |args| > 1 {
        ArgsSpoken(args[1..]);
        assert VerbatimEach(args)[1..] == VerbatimEach(args[1..]);
        var more := ArgTokens(args[1..]);
        hide Spoken;
        SpokenConcat(Tokens(args[0]), [COMMA, SPACE] + more);
        SpokenTwo(COMMA, SPACE, more);
        assert [","] + ([] + Spoken(more)) == [","] + Spoken(more);
      }
    }
  }

  lemma {:induction false} FieldsSpoken(fields: seq<string>)
    ensures Spoken(FieldTokens(fields)) == M.PrintFields(fields)
  {
    if fields != [] {
      FieldsSpoken(fields[1..]);
      hide Spoken;
      SpokenTwo(DOT, Name(fields[0]), FieldTokens(fields[1..]));
      assert ["."] + ([fields[0]] + M.PrintFields(fields[1..])) == [".", fields[0]] + M.PrintFields(fields[1..]);
    }
  }

  /** A value and a semicolon, with or without the sign in front. */
  lemma ValueSpoken(op: string, e: Expr)
    ensures Spoken(Tokens(e) + [SEMICOLON]) == M.Print(Verbatim(e)) + [";"]
    ensures Spoken(Spaced(op) + (Tokens(e) + [SEMICOLON])) == M.OpText(op) + (M.Print(Verbatim(e)) + [";"])
  {
    hide Spoken, Tokens, Verbatim, Spaced;
    ExprSpoken(e);
    SpokenConcat(Tokens(e), [SEMICOLON]);
    SpokenOne(SEMICOLON);
    SpokenSign(op, Tokens(e) + [SEMICOLON]);
  }

  lemma {:induction false} BodySpoken(ss: seq<Stmt>)
    ensures Spoken(BodyTokens(ss)) == M.PrintBody(VerbatimBody(ss))
    decreases ss, 0
  {
    hide StmtTokens, VerbatimStmt;
    if ss != [] {
      StmtSpoken(ss[0]);
      BodySpoken(ss[1..]);
      SpokenConcat(StmtTokens(ss[0]), BodyTokens(ss[1..]));
      PrintBodyConcat(VerbatimStmt(ss[0]), VerbatimBody(ss[1..]));
    }
  }

  lemma {:induction false} StmtSpoken(s: Stmt)
    ensures Spoken(StmtTokens(s)) == M.PrintBody(VerbatimStmt(s))
    decreases s, 2
  {
    match s {
      case Gap(b) => SpokenOne(Blank(b));
      case If(_, _, _) => IfSpoken(s);
      case When(_, _) => WhenSpoken(s);
      case While(_, _) => WhenSpoken(s);
      case _ => SimpleSpoken(s);
    }
  }

  lemma DeclareSpoken(s: Stmt)
    requires s.Let? || s.Declare?
    ensures Spoken(StmtTokens(s)) == M.PrintBody(VerbatimStmt(s))
  {
    hide Spoken, Tokens, Verbatim, Spaced;
    OneStmt(VerbatimStmt(s)[0]);
    match s {
      case Let(t, x) =>
        assert StmtTokens(s) == [Name(t), SPACE] + ([Name(x)] + [SEMICOLON]);
        SpokenTwo(Name(t), SPACE, [Name(x)] + [SEMICOLON]);
        SpokenFirst(Name(x), [SEMICOLON]);
        SpokenOne(SEMICOLON);
      case Declare(t, x, e) =>
        var value := Spaced("=") + (Tokens(e) + [SEMICOLON]);
        ValueSpoken("=", e);
        assert StmtTokens(s) == [Name(t), SPACE] + ([Name(x)] + value);
        SpokenTwo(Name(t), SPACE, [Name(x)] + value);
        SpokenFirst(Name(x), value);
        assert [t] + ([] + ([x] + (["="] + (M.Print(Verbatim(e)) + [";"]))))
            == [t, x, "="] + (M.Print(Verbatim(e)) + [";"]);
    }
  }

  lemma SimpleSpoken(s: Stmt)
    requires s.Let? || s.Declare? || s.Assign? || s.Return?
    ensures Spoken(StmtTokens(s)) == M.PrintBody(VerbatimStmt(s))
  {
    hide Spoken, Tokens, Verbatim, FieldTokens, Spaced;
    if s.Let? || s.Declare? {
      DeclareSpoken(s);
    } else if s.Assign? {
      var value := Spaced(s.op) + (Tokens(s.value) + [SEMICOLON]);
      OneStmt(VerbatimStmt(s)[0]);
      ValueSpoken(s.op, s.value);
      FieldsSpoken(s.fields);
      SpokenFirst(Name(s.x), FieldTokens(s.fields) + value);
      SpokenConcat(FieldTokens(s.fields), value);
    } else {
      OneStmt(VerbatimStmt(s)[0]);
      ValueSpoken("=", s.value);
      SpokenTwo(Name("return"), SPACE, Tokens(s.value) + [SEMICOLON]);
    }
  }

  /** A keyword, a condition in parentheses, and what follows. */
  lemma TestSpoken(word: string, c: Expr, more: seq<Token>)
    ensures Spoken([Name(word), SPACE, OPEN] + (Tokens(c) + ([CLOSE, SPACE, BEGIN] + more)))
         == [word, "("] + (M.Print(Verbatim(c)) + ([")", "{"] + Spoken(more)))
  {
    hide Spoken, Tokens, Verbatim;
    ExprSpoken(c);
    var block := [CLOSE, SPACE, BEGIN] + more;
    assert [Name(word), SPACE, OPEN] + (Tokens(c) + block) == [Name(word), SPACE] + ([OPEN] + (Tokens(c) + block));
    SpokenTwo(Name(word), SPACE, [OPEN] + (Tokens(c) + block));
    SpokenFirst(OPEN, Tokens(c) + block);
    SpokenConcat(Tokens(c), block);
    assert block == [CLOSE, SPACE] + ([BEGIN] + more);
    SpokenTwo(CLOSE, SPACE, [BEGIN] + more);
    SpokenFirst(BEGIN, more);
    TestPrint(word, M.Print(Verbatim(c)), Spoken(more));
  }

  lemma TestPrint(word: string, c: M.Text, more: M.Text)
    ensures [word] + ([] + (["("] + (c + ([")"] + ([] + (["{"] + more))))))
         == [word, "("] + (c + ([")", "{"] + more))
  {
    assert [")"] + ([] + (["{"] + more)) == [")", "{"] + more;
  }

  lemma {:induction false} BlockSpoken(ss: seq<Stmt>, more: seq<Token>)
    ensures Spoken(BodyTokens(ss) + more) == M.PrintBody(VerbatimBody(ss)) + Spoken(more)
    decreases ss, 1
  {
    hide Spoken;
    BodySpoken(ss);
    SpokenConcat(BodyTokens(ss), more);
  }

  lemma {:induction false} WhenSpoken(s: Stmt)
    requires s.When? || s.While?
    ensures Spoken(StmtTokens(s)) == M.PrintBody(VerbatimStmt(s))
    decreases s, 1
  {
    hide Spoken, Tokens, Verbatim, BodyTokens;
    OneStmt(VerbatimStmt(s)[0]);
    var word, body := if s.When? then "if" else "while", if s.When? then s.thn else s.body;
    TestSpoken(word, s.cond, BodyTokens(body) + [END]);
    BlockSpoken(body, [END]);
    SpokenOne(END);
  }

  lemma {:induction false} IfSpoken(s: Stmt)
    requires s.If?
    ensures Spoken(StmtTokens(s)) == M.PrintBody(VerbatimStmt(s))
    decreases s, 1
  {
    hide Spoken, Tokens, Verbatim, BodyTokens;
    OneStmt(VerbatimStmt(s)[0]);
    var other := BodyTokens(s.els) + [END];
    TestSpoken("if", s.cond, BodyTokens(s.thn) + ([END, SPACE, Name("else"), SPACE, BEGIN] + other));
    BlockSpoken(s.thn, [END, SPACE, Name("else"), SPACE, BEGIN] + other);
    BlockSpoken(s.els, [END]);
    SpokenOne(END);
    ElseSpoken(other);
  }

  lemma ElseSpoken(other: seq<Token>)
    ensures Spoken([END, SPACE, Name("else"), SPACE, BEGIN] + other) == ["}", "else", "{"] + Spoken(other)
  {
    hide Spoken;
    var more := [Name("else"), SPACE] + ([BEGIN] + other);
    assert [END, SPACE, Name("else"), SPACE, BEGIN] + other == [END, SPACE] + more;
    SpokenTwo(END, SPACE, more);
    SpokenTwo(Name("else"), SPACE, [BEGIN] + other);
    SpokenFirst(BEGIN, other);
    assert ["}"] + ([] + (["else"] + ([] + (["{"] + Spoken(other))))) == ["}", "else", "{"] + Spoken(other);
  }

  // ---------------------------------------------------------------------------------------------------------
  // When the emitted text is read as the lifted program

  /** Where a product may stand without parentheses around it: `mul` comes out as `*` and `mad` as `+`, and what is
      loaded from gets a member access behind it. */
  predicate Clear(e: Expr, k: nat) {
    match e
    case Paren(x) => Clear(x, 1)
    case Negate(x) => Clear(x, M.POSTFIX)
    case Infix(op, l, r) => Clear(l, M.OpLevel(op)) && Clear(r, M.OpLevel(op) + 1)
    case Conditional(c, a, b) => Clear(c, 2) && Clear(a, 1) && Clear(b, 1)
    case Member(b, _) => Clear(b, M.POSTFIX)
    case Index(b, i) => Clear(b, M.POSTFIX) && Clear(i, 1)
    case Call(f, args) =>
      && (f == "mul" ==> k <= M.OpLevel("*"))
      && (f == "mad" ==> k <= M.OpLevel("+"))
      && forall a :: a in args ==> Clear(a, 1)
    case Access(t, f, args) =>
      if f == "Load" && |args| == 1 && !(args[0].Call? && args[0].f == "int3") then
        Clear(args[0], M.POSTFIX) && !args[0].Infix? && !args[0].Negate? && !args[0].Conditional?
      else forall a :: a in args ==> Clear(a, 1)
    case _ => true
  }

  predicate ClearStmt(s: Stmt) {
    match s
    case Gap(_) => true
    case Let(_, _) => true
    case Declare(_, _, e) => Clear(e, 1)
    case Assign(_, _, _, e) => Clear(e, 1)
    case If(c, a, b) => Clear(c, 1) && ClearBody(a) && ClearBody(b)
    case When(c, a) => Clear(c, 1) && ClearBody(a)
    case While(c, b) => Clear(c, 1) && ClearBody(b)
    case Return(e) => Clear(e, 1)
  }

  predicate ClearBody(ss: seq<Stmt>) {
    forall s :: s in ss ==> ClearStmt(s)
  }

  /** The globals that calls pass on are named by words. */
  ghost predicate PassesWords(data: Analysis) {
    forall f, a :: a in DataOf(data, f).AdditionalArguments() ==> M.Word(a)
  }

  lemma MetalNameIsWord(f: string)
    ensures M.Word(MetalName(f)) <==> M.Word(f)
  {
    if MetalName(f) != f {
      SpelledIsWord(f);
      RespelledIsWord(f);
    }
  }

  lemma RespelledIsWord(f: string)
    requires MetalName(f) != f
    ensures M.Word(f)
  {
  }

  lemma {:induction false} ExprReadable(sh: Shader, data: Analysis, e: Expr, k: nat)
    requires ProperPart(sh, data, e) && PassesWords(data) && 1 <= k <= M.POSTFIX
    ensures M.Readable(Lift(data, e), k) <==> M.Readable(Verbatim(e), k) && Clear(e, k)
    decreases e, 2
  {
    hide PlainName, OuterName, UniformNames, TextureNames, LiftCall, M.Word, M.Number;
    match e {
      case Literal(_) =>
      case Local(_) =>
      case Handle(_) =>
      case Uniform(u) => assert M.Word("uniforms") by { UniformsIsWord(); }
      case Paren(x) => ExprReadable(sh, data, x, 1);
      case Negate(x) => ExprReadable(sh, data, x, M.POSTFIX);
      case Infix(_, _, _) => OperatorReadable(sh, data, e, k);
      case Conditional(_, _, _) => OperatorReadable(sh, data, e, k);
      case Member(b, f) => ExprReadable(sh, data, b, M.POSTFIX);
      case Index(_, _) => OperatorReadable(sh, data, e, k);
      case Call(_, _) => CallReadable(sh, data, e, k);
      case Access(_, _, _) => AccessReadable(sh, data, e, k);
    }
  }

  lemma {:induction false} OperatorReadable(sh: Shader, data: Analysis, e: Expr, k: nat)
    requires ProperPart(sh, data, e) && PassesWords(data) && 1 <= k <= M.POSTFIX
    requires e.Infix? || e.Conditional? || e.Index?
    ensures M.Readable(Lift(data, e), k) <==> M.Readable(Verbatim(e), k) && Clear(e, k)
    decreases e, 1
  {
    hide PlainName, OuterName, UniformNames, TextureNames, LiftCall, M.Word, M.Number;
    match e {
      case Infix(op, l, r) =>
        ExprReadable(sh, data, l, M.OpLevel(op));
        ExprReadable(sh, data, r, M.OpLevel(op) + 1);
      case Conditional(c, a, b) =>
        ExprReadable(sh, data, c, 2);
        ExprReadable(sh, data, a, 1);
        ExprReadable(sh, data, b, 1);
      case Index(b, i) =>
        ExprReadable(sh, data, b, M.POSTFIX);
        ExprReadable(sh, data, i, 1);
    }
  }

  lemma UniformsIsWord()
    ensures M.Word("uniforms")
  {
  }

  /** Each argument is readable exactly if it is as it is written, and clear. */
  ghost predicate SameReading(args: seq<Expr>, es: seq<M.Expr>) {
    && |es| == |args|
    && forall k :: 0 <= k < |args| ==>
         (M.Readable(es[k], 1) <==> M.Readable(Verbatim(args[k]), 1) && Clear(args[k], 1))
  }

  lemma {:induction false} EachReadable(sh: Shader, data: Analysis, args: seq<Expr>)
    requires (forall a :: a in args ==> ProperPart(sh, data, a)) && PassesWords(data)
    ensures SameReading(args, LiftEach(data, args))
    decreases args, 0
  {
    hide ProperPart, Lift, Verbatim, Clear, M.Readable, PassesWords;
    if args != [] {
      ExprReadable(sh, data, args[0], 1);
      EachReadable(sh, data, args[1..]);
      assert forall k :: 0 < k < |args| ==> args[k] == args[1..][k - 1];
    }
  }

  lemma ArgsAre(args: seq<Expr>)
    ensures M.AllReadable(VerbatimEach(args)) <==> forall k :: 0 <= k < |args| ==> M.Readable(Verbatim(args[k]), 1)
    ensures (forall a :: a in args ==> Clear(a, 1)) <==> forall k :: 0 <= k < |args| ==> Clear(args[k], 1)
  {
    hide M.Readable, Verbatim, Clear;
    var es := VerbatimEach(args);
    if M.AllReadable(es) {
      forall k | 0 <= k < |args| ensures M.Readable(Verbatim(args[k]), 1) { assert es[k] in es; }
    }
  }

  lemma {:induction false} CallReadable(sh: Shader, data: Analysis, e: Expr, k: nat)
    requires e.Call? && ProperExpr(sh, data, e) && PassesWords(data) && 1 <= k <= M.POSTFIX
    ensures M.Readable(Lift(data, e), k) <==> M.Readable(Verbatim(e), k) && Clear(e, k)
    decreases e, 1
  {
    hide PlainName, OuterName, UniformNames, TextureNames, ProperPart, PassesWords;
    var f, es := e.f, LiftEach(data, e.args);
    CallParts(sh, data, e);
    EachReadable(sh, data, e.args);
    ArgsAre(e.args);
    if f == "mul" {
      MulReadable(data, e, es, k);
    } else if f == "mad" {
      MadReadable(data, e, es, k);
    } else if f == "int3" {
      IntsReadable(data, e, es, k);
    } else {
      PlainReadable(data, e, es, k);
    }
  }

  lemma CallReads(f: string, args: seq<M.Expr>, k: nat)
    ensures M.Readable(M.Call(f, args), k) <==> M.Word(f) && M.AllReadable(args)
  {
  }

  /** Lists of arguments, spelled out. */
  lemma ListReads(args: seq<M.Expr>)
    ensures M.AllReadable(args) <==> forall i :: 0 <= i < |args| ==> M.Readable(args[i], 1)
    ensures |args| == 1 ==> (M.AllReadable(args) <==> M.Readable(args[0], 1))
    ensures |args| == 2 ==> (M.AllReadable(args) <==> M.Readable(args[0], 1) && M.Readable(args[1], 1))
    ensures |args| == 3
        ==> (M.AllReadable(args) <==> M.Readable(args[0], 1) && M.Readable(args[1], 1) && M.Readable(args[2], 1))
  {
    hide M.Readable;
    if M.AllReadable(args) {
      forall i | 0 <= i < |args| ensures M.Readable(args[i], 1) { assert args[i] in args; }
    }
  }

  /** A call as it is written. */
  lemma WrittenReads(e: Expr, k: nat)
    requires e.Call?
    ensures M.Readable(Verbatim(e), k)
       <==> M.Word(e.f) && forall i :: 0 <= i < |e.args| ==> M.Readable(Verbatim(e.args[i]), 1)
    ensures Clear(e, k)
       <==> (e.f == "mul" ==> k <= M.OpLevel("*")) && (e.f == "mad" ==> k <= M.OpLevel("+"))
            && forall i :: 0 <= i < |e.args| ==> Clear(e.args[i], 1)
  {
    ArgsAre(e.args);
    CallReads(e.f, VerbatimEach(e.args), k);
    hide M.Readable;
  }

  lemma MulReadable(data: Analysis, e: Expr, es: seq<M.Expr>, k: nat)
    requires e.Call? && e.f == "mul" && |e.args| == 2 && SameReading(e.args, es) && 1 <= k
    ensures M.Readable(LiftCall(data, e.f, es), k) <==> M.Readable(Verbatim(e), k) && Clear(e, k)
  {
    hide Verbatim, Clear, M.Readable, M.Word;
    WrittenReads(e, k);
    ProductWords();
    ProductReads(es[0], es[1], k);
  }

  lemma ProductWords()
    ensures M.Word("mul") && M.Word("mad") && M.Word("int3") && M.Word("int") && M.Word("int2")
  {
  }

  lemma ProductReads(a: M.Expr, b: M.Expr, k: nat)
    ensures M.Readable(M.Infix("*", M.Paren(a), M.Paren(b)), k)
       <==> k <= M.OpLevel("*") && M.Readable(a, 1) && M.Readable(b, 1)
  {
  }

  lemma SumReads(a: M.Expr, b: M.Expr, k: nat)
    ensures M.Readable(M.Infix("+", M.Paren(a), M.Paren(b)), k)
       <==> k <= M.OpLevel("+") && M.Readable(a, 1) && M.Readable(b, 1)
  {
  }

  lemma MadReadable(data: Analysis, e: Expr, es: seq<M.Expr>, k: nat)
    requires e.Call? && e.f == "mad" && |e.args| == 3 && SameReading(e.args, es) && 1 <= k
    ensures M.Readable(LiftCall(data, e.f, es), k) <==> M.Readable(Verbatim(e), k) && Clear(e, k)
  {
    hide Verbatim, Clear, M.Readable, M.Word;
    WrittenReads(e, k);
    ProductWords();
    ProductReads(es[0], es[1], 1);
    SumReads(M.Infix("*", M.Paren(es[0]), M.Paren(es[1])), es[2], k);
  }

  lemma OneReads(f: string, e: M.Expr)
    requires M.Word(f)
    ensures M.Readable(M.Call(f, [e]), 1) <==> M.Readable(e, 1)
  {
    CallReads(f, [e], 1);
    ListReads([e]);
    hide M.Readable;
  }

  lemma IntsReadable(data: Analysis, e: Expr, es: seq<M.Expr>, k: nat)
    requires e.Call? && e.f == "int3" && 2 <= |e.args| <= 3 && SameReading(e.args, es) && 1 <= k
    ensures M.Readable(LiftCall(data, e.f, es), k) <==> M.Readable(Verbatim(e), k) && Clear(e, k)
  {
    hide Verbatim, Clear, M.Readable, M.Word, M.AllReadable;
    WrittenReads(e, k);
    ProductWords();
    CallReads("int3", IntArgs(es), k);
    ListReads(IntArgs(es));
    OneReads("int", es[1]);
    if |es| == 3 {
      OneReads("int", es[0]);
      OneReads("int", es[2]);
    } else {
      OneReads("int2", es[0]);
    }
  }

  lemma PlainReadable(data: Analysis, e: Expr, es: seq<M.Expr>, k: nat)
    requires e.Call? && e.f != "mul" && e.f != "mad" && e.f != "int3" && SameReading(e.args, es) && 1 <= k
    requires PassesWords(data)
    ensures M.Readable(LiftCall(data, e.f, es), k) <==> M.Readable(Verbatim(e), k) && Clear(e, k)
  {
    WrittenReads(e, k);
    MetalNameIsWord(e.f);
    hide MetalName, Verbatim, Clear, M.Readable, M.AllReadable, M.Word;
    var extra := DataOf(data, e.f).AdditionalArguments();
    CallReads(MetalName(e.f), es + Names(extra), k);
    ListReads(es);
    ListReads(es + Names(extra));
    NamesReads(extra);
    assert forall i :: 0 <= i < |es| ==> (es + Names(extra))[i] == es[i];
    assert forall i :: 0 <= i < |extra| ==> (es + Names(extra))[|es| + i] == Names(extra)[i];
    assert forall i :: |es| <= i < |es| + |extra| ==> (es + Names(extra))[i] == Names(extra)[i - |es|];
  }

  lemma NamesReads(names: seq<string>)
    requires forall a :: a in names ==> M.Word(a)
    ensures forall i :: 0 <= i < |names| ==> M.Readable(Names(names)[i], 1)
  {
  }

  lemma {:induction false} AccessReadable(sh: Shader, data: Analysis, e: Expr, k: nat)
    requires e.Access? && ProperExpr(sh, data, e) && PassesWords(data) && 1 <= k <= M.POSTFIX
    ensures M.Readable(Lift(data, e), k) <==> M.Readable(Verbatim(e), k) && Clear(e, k)
    decreases e, 1
  {
    hide PlainName, OuterName, UniformNames, TextureNames, PassesWords;
    PartsAreProper(sh, data, e);
    if e.f == "Load" {
      LoadReadable(sh, data, e, k);
    } else {
      EachReadable(sh, data, e.args);
      SampleReadable(data, e, LiftEach(data, e.args), k);
    }
  }

  lemma MethodReads(t: string, f: string, args: seq<M.Expr>, k: nat)
    ensures M.Readable(M.Method(M.Name(t), f, args), k) <==> M.Word(t) && M.Word(f) && M.AllReadable(args)
  {
  }

  lemma MethodWords(f: string)
    requires f in {"Sample", "SampleBias", "SampleGrad", "SampleLevel"}
    ensures M.Word(f) && M.Word("sample")
  {
  }

  lemma SampleIs(data: Analysis, e: Expr, k: nat)
    requires e.Access? && e.f != "Load"
    ensures Lift(data, e) == M.Method(M.Name(e.texture), "sample", SampleArgs(e.f, LiftEach(data, e.args)))
    ensures Verbatim(e) == M.Method(M.Name(e.texture), e.f, VerbatimEach(e.args))
    ensures Clear(e, k) <==> forall a :: a in e.args ==> Clear(a, 1)
  {
  }

  lemma SampleReadable(data: Analysis, e: Expr, es: seq<M.Expr>, k: nat)
    requires e.Access? && SameReading(e.args, es) && es == LiftEach(data, e.args)
    requires |e.args| == (if e.f == "Sample" then 2 else if e.f == "SampleGrad" then 4 else 3)
    requires e.f in {"Sample", "SampleBias", "SampleGrad", "SampleLevel"}
    ensures M.Readable(Lift(data, e), k) <==> M.Readable(Verbatim(e), k) && Clear(e, k)
  {
    hide M.Word, M.Readable, M.AllReadable, SampleArgs, Clear, Lift, Verbatim;
    ArgsAre(e.args);
    SampleIs(data, e, k);
    assert M.Word(e.f) && M.Word("sample") by { MethodWords(e.f); }
    MethodReads(e.texture, "sample", SampleArgs(e.f, es), k);
    MethodReads(e.texture, e.f, VerbatimEach(e.args), k);
    SampleArgsReadable(e.f, es);
  }

  lemma SampleArgsReadable(f: string, es: seq<M.Expr>)
    requires |es| == (if f == "Sample" then 2 else if f == "SampleGrad" then 4 else 3)
    requires f in {"Sample", "SampleBias", "SampleGrad", "SampleLevel"}
    ensures M.AllReadable(SampleArgs(f, es)) <==> forall k :: 0 <= k < |es| ==> M.Readable(es[k], 1)
  {
    assert M.Word("level") && M.Word("bias") && M.Word("gradient2d");
    hide M.Word, M.Readable, M.AllReadable;
    ListReads(SampleArgs(f, es));
    if f == "SampleGrad" {
      CallReads("gradient2d", es[2..], 1);
      ListReads(es[2..]);
      assert es[2..] == [es[2], es[3]];
    } else if f != "Sample" {
      OneReads(if f == "SampleBias" then "bias" else "level", es[2]);
    }
  }

  lemma {:induction false} LoadReadable(sh: Shader, data: Analysis, e: Expr, k: nat)
    requires e.Access? && e.f == "Load" && ProperExpr(sh, data, e) && PassesWords(data) && 1 <= k <= M.POSTFIX
    ensures M.Readable(Lift(data, e), k) <==> M.Readable(Verbatim(e), k) && Clear(e, k)
    decreases e, 0
  {
    hide PlainName, OuterName, UniformNames, TextureNames, PassesWords, M.Readable, M.AllReadable, M.Word;
    var a := e.args[0];
    PartsAreProper(sh, data, e);
    if a.Call? && a.f == "int3" {
      CallParts(sh, data, a);
      EachReadable(sh, data, a.args);
      LoadAt(data, e, a, LiftEach(data, a.args), k);
    } else {
      ExprReadable(sh, data, a, M.POSTFIX);
      LoadFrom(data, e, a, k);
    }
  }

  lemma LoadAt(data: Analysis, e: Expr, a: Expr, es: seq<M.Expr>, k: nat)
    requires e.Access? && e.f == "Load" && e.args == [a] && a.Call? && a.f == "int3" && 2 <= |a.args| <= 3
    requires es == LiftEach(data, a.args) && SameReading(a.args, es)
    ensures M.Readable(Lift(data, e), k) <==> M.Readable(Verbatim(e), k) && Clear(e, k)
  {
    var t := e.texture;
    assert VerbatimEach(e.args) == [Verbatim(a)];
    assert Lift(data, e) == M.Method(M.Name(t), "read", ReadAt(es));
    assert Verbatim(e) == M.Method(M.Name(t), "Load", [Verbatim(a)]);
    assert M.Word("Load") && M.Word("read") && M.Word("int3");
    assert Clear(e, k) <==> Clear(a, 1);
    hide M.Word, M.Readable, M.AllReadable, Clear, Lift, Verbatim;
    MethodReads(t, "read", ReadAt(es), k);
    MethodReads(t, "Load", [Verbatim(a)], k);
    ListReads([Verbatim(a)]);
    WrittenReads(a, 1);
    ReadAtReadable(es);
  }

  lemma LoadFrom(data: Analysis, e: Expr, a: Expr, k: nat)
    requires e.Access? && e.f == "Load" && e.args == [a] && !(a.Call? && a.f == "int3")
    requires M.Readable(Lift(data, a), M.POSTFIX) <==> M.Readable(Verbatim(a), M.POSTFIX) && Clear(a, M.POSTFIX)
    ensures M.Readable(Lift(data, e), k) <==> M.Readable(Verbatim(e), k) && Clear(e, k)
  {
    var t, xy := e.texture, M.Member(Lift(data, a), "xy");
    assert VerbatimEach(e.args) == [Verbatim(a)];
    assert Lift(data, e) == M.Method(M.Name(t), "read", [M.Call("uint2", [xy]), M.Literal("0")]);
    assert Verbatim(e) == M.Method(M.Name(t), "Load", [Verbatim(a)]);
    assert M.Word("Load") && M.Word("read") && M.Word("uint2") && M.Word("xy");
    assert M.Readable(M.Literal("0"), 1);
    assert M.Readable(xy, 1) <==> M.Readable(Lift(data, a), M.POSTFIX);
    assert Clear(e, k) <==> Clear(a, M.POSTFIX) && !a.Infix? && !a.Negate? && !a.Conditional?;
    TightReading(a);
    hide M.Word, M.Readable, M.AllReadable, Clear, Lift, Verbatim;
    MethodReads(t, "read", [M.Call("uint2", [xy]), M.Literal("0")], k);
    MethodReads(t, "Load", [Verbatim(a)], k);
    ListReads([Verbatim(a)]);
    ListReads([M.Call("uint2", [xy]), M.Literal("0")]);
    OneReads("uint2", xy);
  }

  /** What stands in front of a member access. */
  lemma TightReading(e: Expr)
    ensures M.Readable(Verbatim(e), M.POSTFIX)
       <==> M.Readable(Verbatim(e), 1) && !e.Infix? && !e.Negate? && !e.Conditional?
  {
  }

  lemma ReadAtReadable(es: seq<M.Expr>)
    requires 2 <= |es| <= 3
    ensures M.AllReadable(ReadAt(es)) <==> forall i :: 0 <= i < |es| ==> M.Readable(es[i], 1)
  {
    assert M.Word("int") && M.Word("int2") && M.Word("uint2") && M.Word("uint");
    hide M.Word, M.Readable, M.AllReadable;
    ListReads(ReadAt(es));
    OneReads("int", es[1]);
    if |es| == 3 {
      OneReads("int", es[0]);
      OneReads("int", es[2]);
      OneReads("uint", M.Call("int", [es[2]]));
      CallReads("uint2", [M.Call("int", [es[0]]), M.Call("int", [es[1]])], 1);
      ListReads([M.Call("int", [es[0]]), M.Call("int", [es[1]])]);
    } else {
      OneReads("int2", es[0]);
      OneReads("uint", M.Call("int", [es[1]]));
      OneReads("uint2", M.Call("int2", [es[0]]));
    }
  }

  // ---------------------------------------------------------------------------------------------------------
  // Bodies

  lemma ConcatReads(a: seq<M.Stmt>, b: seq<M.Stmt>)
    ensures M.ReadableBody(a + b) <==> M.ReadableBody(a) && M.ReadableBody(b)
  {
    hide M.ReadableStmt;
    if M.ReadableBody(a + b) {
      forall s | s in a ensures M.ReadableStmt(s) { assert s in a + b; }
      forall s | s in b ensures M.ReadableStmt(s) { assert s in a + b; }
    }
  }

  lemma OneStmtReads(s: M.Stmt)
    ensures M.ReadableBody([s]) <==> M.ReadableStmt(s)
  {
    hide M.ReadableStmt;
    assert [s][0] == s;
  }

  lemma MetalTypeReads(sh: Shader, data: Analysis, t: string)
    requires Keywords(sh) && TypeName(sh, data, t)
    ensures M.Identifier(MetalType(sh, t)) <==> M.Identifier(t)
  {
    hide UniformNames, TextureNames;
    if t in sh.inOutStructs {
      OutIsIdentifier(t);
      assert PlainName(sh, "if") && PlainName(sh, "else") && PlainName(sh, "while") && PlainName(sh, "return");
    } else if MetalName(t) != t {
      RespelledIsFree(t);
    }
  }

  lemma OutIsIdentifier(t: string)
    ensures M.Identifier(t + "_Out") <==> M.Word(t) || t == ""
  {
    if t != "" {
      assert (t + "_Out")[0] == t[0];
      var n := t + "_Out";
      assert n[|n| - 1] == 't' && n[|n| - 2] == 'u';
    }
  }

  lemma RespelledIsFree(f: string)
    requires MetalName(f) != f
    ensures M.Identifier(f) && M.Identifier(MetalName(f))
  {
  }

  lemma {:induction false} BodyReadable(sh: Shader, data: Analysis, ss: seq<Stmt>)
    requires ProperBody(sh, data, ss) && PassesWords(data)
    ensures M.ReadableBody(LiftBody(sh, data, ss)) <==> M.ReadableBody(VerbatimBody(ss)) && ClearBody(ss)
    decreases ss, 0
  {
    hide ProperStmt, LiftStmt, VerbatimStmt, ClearStmt, M.ReadableBody, PassesWords;
    if ss == [] {
      assert M.ReadableBody([]) by { NothingReads(); }
    } else {
      StmtReadable(sh, data, ss[0]);
      BodyReadable(sh, data, ss[1..]);
      ConcatReads(LiftStmt(sh, data, ss[0]), LiftBody(sh, data, ss[1..]));
      ConcatReads(VerbatimStmt(ss[0]), VerbatimBody(ss[1..]));
      assert ss == [ss[0]] + ss[1..];
    }
  }

  lemma NothingReads()
    ensures M.ReadableBody([])
  {
  }

  lemma {:induction false} StmtReadable(sh: Shader, data: Analysis, s: Stmt)
    requires ProperStmt(sh, data, s) && PassesWords(data)
    ensures M.ReadableBody(LiftStmt(sh, data, s)) <==> M.ReadableBody(VerbatimStmt(s)) && ClearStmt(s)
    decreases s, 1
  {
    hide ProperExpr, M.ReadableBody, M.Identifier, M.Word, PassesWords, PlainName, UniformNames, MetalType, TypeName,
         Keywords, M.Readable, Clear, ClearBody;
    if s.Gap? {
      NothingReads();
    } else {
      OneStmtReads(LiftStmt(sh, data, s)[0]);
      OneStmtReads(VerbatimStmt(s)[0]);
      match s {
        case Let(t, _) => MetalTypeReads(sh, data, t);
        case Declare(t, _, e) =>
          MetalTypeReads(sh, data, t);
          ExprReadable(sh, data, e, 1);
        case Assign(_, _, _, e) => ExprReadable(sh, data, e, 1);
        case Return(e) => ExprReadable(sh, data, e, 1);
        case If(c, a, b) =>
          ExprReadable(sh, data, c, 1);
          BodyReadable(sh, data, a);
          BodyReadable(sh, data, b);
        case When(c, a) =>
          ExprReadable(sh, data, c, 1);
          BodyReadable(sh, data, a);
        case While(c, b) =>
          ExprReadable(sh, data, c, 1);
          BodyReadable(sh, data, b);
        case _ =>
      }
    }
  }

  /** If a body is read as it is meant, what is emitted for it is read as the lifted body exactly when every product in
      it stands where a `*` or a `+` may stand. */
  lemma EmittedReadsBack(sh: Shader, data: Analysis, ss: seq<Stmt>)
    requires ProperBody(sh, data, ss) && PassesWords(data)
    requires M.ParseBody(Spoken(BodyTokens(ss))) == Some((VerbatimBody(ss), []))
    ensures M.ParseBody(Lexemes(EmitBody(sh, data, ss))) == Some((LiftBody(sh, data, ss), [])) <==> ClearBody(ss)
  {
    BodySpoken(ss);
    M.BodyReadsBack(VerbatimBody(ss));
    BodyText(sh, data, ss);
    M.BodyReadsBack(LiftBody(sh, data, ss));
    BodyReadable(sh, data, ss);
    hide *;
  }

  /** A product that is divided by is read as a divisor and a factor. */
  lemma DividedByProduct(data: Analysis, a: Expr, b: Expr, c: Expr)
    requires M.Readable(Lift(data, a), M.OpLevel("/")) && M.Readable(Lift(data, b), 1) && M.Readable(Lift(data, c), 1)
    ensures M.ParseInfix(M.Print(Lift(data, Infix("/", a, Call("mul", [b, c])))), 1)
         == Some((M.Infix("*", M.Infix("/", Lift(data, a), M.Paren(Lift(data, b))), M.Paren(Lift(data, c))), []))
  {
    hide *;
    var x, y, z := Lift(data, a), M.Paren(Lift(data, b)), M.Paren(Lift(data, c));
    QuotientIs(data, a, b, c);
    BracketsBind(Lift(data, b));
    BracketsBind(Lift(data, c));
    QuotientsPrint(x, y, z);
    QuotientsRead(x, y, z);
    M.ReadsBack(M.Infix("*", M.Infix("/", x, y), z));
  }

  lemma QuotientIs(data: Analysis, a: Expr, b: Expr, c: Expr)
    ensures Lift(data, Infix("/", a, Call("mul", [b, c])))
         == M.Infix("/", Lift(data, a), M.Infix("*", M.Paren(Lift(data, b)), M.Paren(Lift(data, c))))
  {
    hide DataOf, MetalName;
    assert LiftEach(data, [b, c]) == [Lift(data, b), Lift(data, c)];
  }

  lemma BracketsBind(e: M.Expr)
    requires M.Readable(e, 1)
    ensures M.Readable(M.Paren(e), M.PREFIX)
  {
  }

  lemma QuotientsPrint(x: M.Expr, y: M.Expr, z: M.Expr)
    ensures M.Print(M.Infix("/", x, M.Infix("*", y, z))) == M.Print(M.Infix("*", M.Infix("/", x, y), z))
  {
    assert M.Print(M.Infix("*", y, z)) == M.Print(y) + (["*"] + M.Print(z));
    assert M.Print(M.Infix("/", x, y)) == M.Print(x) + (["/"] + M.Print(y));
    QuotientTexts(M.Print(x), M.Print(y), M.Print(z), ["/"], ["*"]);
  }

  lemma QuotientTexts(x: M.Text, y: M.Text, z: M.Text, over: M.Text, times: M.Text)
    ensures x + (over + (y + (times + z))) == (x + (over + y)) + (times + z)
  {
  }

  lemma QuotientsRead(x: M.Expr, y: M.Expr, z: M.Expr)
    requires M.Readable(x, M.OpLevel("/")) && M.Readable(y, M.PREFIX) && M.Readable(z, M.PREFIX)
    ensures M.Readable(M.Infix("*", M.Infix("/", x, y), z), 1)
  {
    assert M.OpLevel("/") == M.OpLevel("*") == 7;
    assert M.Readable(M.Infix("/", x, y), 7);
  }
}
