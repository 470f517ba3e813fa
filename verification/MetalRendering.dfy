/** The translation of a body's tokens is the text of the lifted body. */
module MetalRendering {
  import opened ShaderTokens
  import opened MetalTranspiler
  import opened MetalSyntax
  import M = MetalText

  /** The tokens an expression can follow without being taken for the arguments of a call. */
  ghost predicate SafeBefore(data: Analysis, prev: Token) {
    prev.text != "." && prev.text != "int3" && DataOf(data, prev.text) == NO_NEEDS
  }

  /** What follows an expression. */
  ghost predicate SafeAfter(post: seq<Token>) {
    post != [] && (post[0] == CLOSE || post[0] == COMMA || post[0] == SPACE || post[0] == SEMICOLON
                   || post[0] == DOT || post[0] == LEFT || post[0] == RIGHT)
  }

  ghost predicate Stop(end: string) {
    end == "}" || end == ")" || end == ","
  }

  /** No function is called like the tokens that stand in front of expressions. */
  ghost predicate SafeDelimiters(data: Analysis) {
    && SafeBefore(data, OPEN) && SafeBefore(data, SPACE) && SafeBefore(data, COMMA) && SafeBefore(data, MINUS)
    && SafeBefore(data, LEFT)
  }

  ghost predicate NoComparison(ts: seq<Token>) {
    ts != [] ==> !(ts[0].Other? && ts[0].text in COMPARATORS)
  }

  /** What makes a comparison is what Metal has for it: the operators of equality and of order. */
  lemma ComparatorsAreRelations(op: string)
    ensures op in COMPARATORS <==> M.OpLevel(op) == M.OpLevel("==") || M.OpLevel(op) == M.OpLevel("<")
  {
  }

  // ---------------------------------------------------------------------------------------------------------
  // Single tokens

  /** A step, and the walk from where it ends. */
  function Follow(sh: Shader, data: Analysis, step: Result<Chunk>, end: string): Result<Chunk> {
    if step.Thrown? then Thrown
    else Prefixed(step.value.out, Transpile(sh, data, step.value.last, step.value.rest, end))
  }

  lemma FirstStep(sh: Shader, data: Analysis, prev: Token, t: Token, ts: seq<Token>, end: string)
    requires t.text != end
    ensures Transpile(sh, data, prev, [t] + ts, end) == Follow(sh, data, Step(sh, data, prev, [t] + ts), end)
  {
    hide Step;
  }

  lemma MarkStep(sh: Shader, data: Analysis, prev: Token, t: Token, ts: seq<Token>, end: string)
    requires t.text != end && !t.Name? && t != BEGIN && t != OPEN
    ensures Transpile(sh, data, prev, [t] + ts, end) == Prefixed([Text(t.text)], Transpile(sh, data, t, ts, end))
  {
    FirstStep(sh, data, prev, t, ts, end);
    assert ([t] + ts)[1..] == ts;
    hide Transpile;
  }

  lemma PlainStep(sh: Shader, data: Analysis, prev: Token, n: string, ts: seq<Token>, end: string)
    requires PlainName(sh, n) && (n !in UniformNames(sh) || prev.text == ".") && NoComparison(ts) && Stop(end)
    ensures Transpile(sh, data, prev, [Name(n)] + ts, end)
         == Prefixed([Copied(n)], Transpile(sh, data, Name(n), ts, end))
  {
    FirstStep(sh, data, prev, Name(n), ts, end);
    assert ([Name(n)] + ts)[1..] == ts;
    hide Transpile, UniformNames, TextureNames;
  }

  lemma UniformStep(sh: Shader, data: Analysis, prev: Token, n: string, ts: seq<Token>, end: string)
    requires PlainName(sh, n) && n in UniformNames(sh) && prev.text != "." && Stop(end)
    ensures Transpile(sh, data, prev, [Name(n)] + ts, end)
         == Prefixed([UniformRef(n)], Transpile(sh, data, Name(n), ts, end))
  {
    FirstStep(sh, data, prev, Name(n), ts, end);
    assert ([Name(n)] + ts)[1..] == ts;
    hide Transpile, UniformNames, TextureNames;
  }

  lemma OuterStep(sh: Shader, data: Analysis, prev: Token, n: string, ts: seq<Token>, end: string)
    requires OuterName(sh, data, n) && NoComparison(ts) && Stop(end)
    ensures Transpile(sh, data, prev, [Name(n)] + ts, end)
         == Prefixed([Spelled(n)], Transpile(sh, data, Name(n), ts, end))
  {
    FirstStep(sh, data, prev, Name(n), ts, end);
    assert ([Name(n)] + ts)[1..] == ts;
    hide Transpile, UniformNames, TextureNames;
  }

  /** In front of such tokens it does not matter what came before. */
  lemma PrevIrrelevant(sh: Shader, data: Analysis, p: Token, q: Token, ts: seq<Token>, end: string)
    requires ts != [] && !ts[0].Name? && ts[0] != OPEN
    ensures Transpile(sh, data, p, ts, end) == Transpile(sh, data, q, ts, end)
  {
    if ts[0].text != end {
      hide Transpile, Step;
      assert ts == [ts[0]] + ts[1..];
      FirstStep(sh, data, p, ts[0], ts[1..], end);
      FirstStep(sh, data, q, ts[0], ts[1..], end);
      SameStep(sh, data, p, q, ts);
    }
  }

  lemma SameStep(sh: Shader, data: Analysis, p: Token, q: Token, ts: seq<Token>)
    requires ts != [] && !ts[0].Name? && ts[0] != OPEN
    ensures Step(sh, data, p, ts) == Step(sh, data, q, ts)
  {
    hide Transpile, StepName, CallArguments;
  }

  lemma StopStep(sh: Shader, data: Analysis, prev: Token, t: Token, ts: seq<Token>)
    ensures Transpile(sh, data, prev, [t] + ts, t.text) == Ok(Chunk([], t, ts))
  {
    assert ([t] + ts)[1..] == ts;
  }

  /** A parenthesis whose inside is known; `arguments` is what the call makes of it. */
  lemma ParenStep(sh: Shader, data: Analysis, prev: Token, inner: seq<Token>, post: seq<Token>, end: string,
                  out: seq<Piece>, arguments: seq<Piece>)
    requires Stop(end)
    requires Transpile(sh, data, OPEN, inner + ([CLOSE] + post), ")") == Ok(Chunk(out, CLOSE, post))
    requires CallArguments(data, prev.text, out) == Ok(arguments)
    ensures Transpile(sh, data, prev, [OPEN] + (inner + ([CLOSE] + post)), end)
         == Prefixed([Text("(")] + arguments + [Text(")")], Transpile(sh, data, CLOSE, post, end))
  {
    var ts := inner + ([CLOSE] + post);
    FirstStep(sh, data, prev, OPEN, ts, end);
    assert ([OPEN] + ts)[1..] == ts;
    hide Transpile, CallArguments;
  }

  lemma BlockStep(sh: Shader, data: Analysis, prev: Token, inner: seq<Token>, post: seq<Token>, end: string,
                  out: seq<Piece>)
    requires Stop(end)
    requires Transpile(sh, data, BEGIN, inner + ([END] + post), "}") == Ok(Chunk(out, END, post))
    ensures Transpile(sh, data, prev, [BEGIN] + (inner + ([END] + post)), end)
         == Prefixed([Text("{")] + out + [Text("}")], Transpile(sh, data, END, post, end))
  {
    var ts := inner + ([END] + post);
    FirstStep(sh, data, prev, BEGIN, ts, end);
    assert ([BEGIN] + ts)[1..] == ts;
    hide Transpile;
  }

  lemma SafeCall(data: Analysis, prev: Token, out: seq<Piece>)
    requires SafeBefore(data, prev)
    ensures CallArguments(data, prev.text, out) == Ok(out)
  {
  }

  // ---------------------------------------------------------------------------------------------------------
  // Expressions

  lemma FirstIsNoBlank(e: Expr)
    ensures !Tokens(e)[0].Blank?
  {
  }

  /** A call that a name begins, and the walk from behind its closing parenthesis. */
  lemma CallStep(sh: Shader, data: Analysis, prev: Token, t: Token, ts: seq<Token>, end: string, out: seq<Piece>,
                 post: seq<Token>)
    requires t.text != end && SafeAfter(post)
    requires Step(sh, data, prev, [t] + ts) == Ok(Chunk(out, CLOSE, post))
    ensures Transpile(sh, data, prev, [t] + ts, end) == Prefixed(out, Transpile(sh, data, SPACE, post, end))
  {
    hide Transpile, Step;
    FirstStep(sh, data, prev, t, ts, end);
    PrevIrrelevant(sh, data, CLOSE, SPACE, post, end);
  }

  lemma {:induction false} TranspileExpr(sh: Shader, data: Analysis, e: Expr, prev: Token, post: seq<Token>,
                                         end: string)
    requires ProperExpr(sh, data, e) && SafeDelimiters(data)
    requires SafeBefore(data, prev) && SafeAfter(post) && Stop(end)
    ensures Transpile(sh, data, prev, Tokens(e) + post, end)
         == Prefixed(Emit(data, e), Transpile(sh, data, SPACE, post, end))
    decreases e, 2
  {
    hide Transpile, PlainName, OuterName, CallArguments, UniformNames, TextureNames;
    match e {
      case Literal(n) =>
        MarkStep(sh, data, prev, Number(n), post, end);
        PrevIrrelevant(sh, data, Number(n), SPACE, post, end);
      case Local(x) =>
        PlainStep(sh, data, prev, x, post, end);
        PrevIrrelevant(sh, data, Name(x), SPACE, post, end);
      case Uniform(u) =>
        UniformStep(sh, data, prev, u, post, end);
        PrevIrrelevant(sh, data, Name(u), SPACE, post, end);
      case Paren(_) => TranspileParen(sh, data, e, prev, post, end);
      case Negate(x) =>
        assert Tokens(e) + post == [MINUS] + (Tokens(x) + post);
        MarkStep(sh, data, prev, MINUS, Tokens(x) + post, end);
        TranspileExpr(sh, data, x, MINUS, post, end);
        PrefixedTwice([Text("-")], Emit(data, x), Transpile(sh, data, SPACE, post, end));
      case Infix(_, _, _) => TranspileInfix(sh, data, e, prev, post, end);
      case Conditional(_, _, _) => TranspileConditional(sh, data, e, prev, post, end);
      case Member(_, _) => TranspileMember(sh, data, e, prev, post, end);
      case Index(_, _) => TranspileIndex(sh, data, e, prev, post, end);
      case Call(f, _) =>
        if f == "mul" {
          TranspileMul(sh, data, e, prev, post, end);
        } else if f == "mad" {
          TranspileMad(sh, data, e, prev, post, end);
        } else {
          TranspileCall(sh, data, e, prev, post, end);
        }
      case Access(_, _, _) => TranspileAccess(sh, data, e, prev, post, end);
    }
  }

  lemma {:induction false} TranspileParen(sh: Shader, data: Analysis, e: Expr, prev: Token, post: seq<Token>,
                                          end: string)
    requires e.Paren? && ProperExpr(sh, data, e) && SafeDelimiters(data)
    requires SafeBefore(data, prev) && SafeAfter(post) && Stop(end)
    ensures Transpile(sh, data, prev, Tokens(e) + post, end)
         == Prefixed(Emit(data, e), Transpile(sh, data, SPACE, post, end))
    decreases e, 1
  {
    hide Transpile, CallArguments;
    var x := e.e;
    assert Tokens(e) + post == [OPEN] + (Tokens(x) + ([CLOSE] + post));
    LastPart(sh, data, x, OPEN, post);
    SafeCall(data, prev, Emit(data, x));
    ParenStep(sh, data, prev, Tokens(x), post, end, Emit(data, x), Emit(data, x));
    PrevIrrelevant(sh, data, CLOSE, SPACE, post, end);
  }

  lemma {:induction false} TranspileMember(sh: Shader, data: Analysis, e: Expr, prev: Token, post: seq<Token>,
                                           end: string)
    requires e.Member? && ProperExpr(sh, data, e) && SafeDelimiters(data)
    requires SafeBefore(data, prev) && SafeAfter(post) && Stop(end)
    ensures Transpile(sh, data, prev, Tokens(e) + post, end)
         == Prefixed(Emit(data, e), Transpile(sh, data, SPACE, post, end))
    decreases e, 1
  {
    hide Transpile, PlainName, OuterName, UniformNames;
    var o, f := e.base, e.field;
    var field := [Name(f)] + post;
    assert Tokens(e) + post == Tokens(o) + ([DOT] + field);
    TranspileExpr(sh, data, o, prev, [DOT] + field, end);
    FieldStep(sh, data, SPACE, f, post, end);
    PrevIrrelevant(sh, data, Name(f), SPACE, post, end);
    PrefixedTwice(Emit(data, o), [Text("."), Copied(f)], Transpile(sh, data, SPACE, post, end));
  }

  lemma {:induction false} TranspileIndex(sh: Shader, data: Analysis, e: Expr, prev: Token, post: seq<Token>,
                                          end: string)
    requires e.Index? && ProperExpr(sh, data, e) && SafeDelimiters(data)
    requires SafeBefore(data, prev) && SafeAfter(post) && Stop(end)
    ensures Transpile(sh, data, prev, Tokens(e) + post, end)
         == Prefixed(Emit(data, e), Transpile(sh, data, SPACE, post, end))
    decreases e, 1
  {
    hide Transpile;
    var b, i := e.base, e.index;
    var inside := Tokens(i) + ([RIGHT] + post);
    assert Tokens(e) + post == Tokens(b) + ([LEFT] + inside);
    TranspileExpr(sh, data, b, prev, [LEFT] + inside, end);
    MarkStep(sh, data, SPACE, LEFT, inside, end);
    TranspileExpr(sh, data, i, LEFT, [RIGHT] + post, end);
    MarkStep(sh, data, SPACE, RIGHT, post, end);
    PrevIrrelevant(sh, data, RIGHT, SPACE, post, end);
    var tail := Transpile(sh, data, SPACE, post, end);
    PrefixedTwice(Emit(data, i), [Text("]")], tail);
    PrefixedTwice([Text("[")], Emit(data, i) + [Text("]")], tail);
    PrefixedTwice(Emit(data, b), [Text("[")] + (Emit(data, i) + [Text("]")]), tail);
  }

  lemma FieldStep(sh: Shader, data: Analysis, prev: Token, f: string, post: seq<Token>, end: string)
    requires PlainName(sh, f) && NoComparison(post) && Stop(end)
    ensures Transpile(sh, data, prev, [DOT] + ([Name(f)] + post), end)
         == Prefixed([Text("."), Copied(f)], Transpile(sh, data, Name(f), post, end))
  {
    hide Transpile, PlainName, UniformNames;
    MarkStep(sh, data, prev, DOT, [Name(f)] + post, end);
    PlainStep(sh, data, DOT, f, post, end);
    PrefixedTwice([Text(".")], [Copied(f)], Transpile(sh, data, Name(f), post, end));
    assert [Text(".")] + [Copied(f)] == [Text("."), Copied(f)];
  }

  lemma {:induction false} TranspileInfix(sh: Shader, data: Analysis, e: Expr, prev: Token, post: seq<Token>,
                                          end: string)
    requires e.Infix? && ProperExpr(sh, data, e) && SafeDelimiters(data)
    requires SafeBefore(data, prev) && SafeAfter(post) && Stop(end)
    ensures Transpile(sh, data, prev, Tokens(e) + post, end)
         == Prefixed(Emit(data, e), Transpile(sh, data, SPACE, post, end))
    decreases e, 1
  {
    hide Transpile, Spaced, SpacedPieces;
    var op, l, r := e.op, e.left, e.right;
    var right := Tokens(r) + post;
    assert Tokens(e) + post == Tokens(l) + (Spaced(op) + right);
    SpacedFirst(op, right);
    TranspileExpr(sh, data, l, prev, Spaced(op) + right, end);
    SignStep(sh, data, op, right, end);
    TranspileExpr(sh, data, r, SPACE, post, end);
    var tail := Transpile(sh, data, SPACE, post, end);
    PrefixedTwice(SpacedPieces(op), Emit(data, r), tail);
    PrefixedTwice(Emit(data, l), SpacedPieces(op) + Emit(data, r), tail);
  }

  lemma SpacedFirst(op: string, ts: seq<Token>)
    ensures SafeAfter(Spaced(op) + ts)
  {
    assert (Spaced(op) + ts)[0] == SPACE;
  }

  lemma {:induction false} TranspileConditional(sh: Shader, data: Analysis, e: Expr, prev: Token, post: seq<Token>,
                                                end: string)
    requires e.Conditional? && ProperExpr(sh, data, e) && SafeDelimiters(data)
    requires SafeBefore(data, prev) && SafeAfter(post) && Stop(end)
    ensures Transpile(sh, data, prev, Tokens(e) + post, end)
         == Prefixed(Emit(data, e), Transpile(sh, data, SPACE, post, end))
    decreases e, 1
  {
    hide Transpile, Spaced, SpacedPieces;
    var c, a, b := e.test, e.yes, e.no;
    var no := Tokens(b) + post;
    var yes := Tokens(a) + (Spaced(":") + no);
    MarksAreSpaced();
    assert Tokens(e) + post == Tokens(c) + (Spaced("?") + yes);
    SpacedFirst("?", yes);
    SpacedFirst(":", no);
    TranspileExpr(sh, data, c, prev, Spaced("?") + yes, end);
    SignStep(sh, data, "?", yes, end);
    TranspileExpr(sh, data, a, SPACE, Spaced(":") + no, end);
    SignStep(sh, data, ":", no, end);
    TranspileExpr(sh, data, b, SPACE, post, end);
    FiveParts(Emit(data, c), SpacedPieces("?"), Emit(data, a), SpacedPieces(":"), Emit(data, b),
              Transpile(sh, data, SPACE, post, end));
  }

  lemma MarksAreSpaced()
    ensures Spaced("?") == QUESTION && Spaced(":") == COLON
  {
  }

  lemma FiveParts(a: seq<Piece>, b: seq<Piece>, c: seq<Piece>, d: seq<Piece>, e: seq<Piece>, r: Result<Chunk>)
    ensures Prefixed(a, Prefixed(b, Prefixed(c, Prefixed(d, Prefixed(e, r)))))
         == Prefixed(a + (b + (c + (d + e))), r)
  {
    PrefixedTwice(d, e, r);
    PrefixedTwice(c, d + e, r);
    PrefixedTwice(b, c + (d + e), r);
    PrefixedTwice(a, b + (c + (d + e)), r);
    hide Prefixed;
  }

  /** One character of an operator. */
  lemma CharacterStep(sh: Shader, data: Analysis, prev: Token, c: string, ts: seq<Token>, end: string)
    requires c in CHARACTERS && Stop(end)
    ensures Transpile(sh, data, prev, [Other(c)] + ts, end)
         == Prefixed([Text(c)], Transpile(sh, data, Other(c), ts, end))
  {
    MarkStep(sh, data, prev, Other(c), ts, end);
    hide Transpile;
  }

  /** An operator between blanks. */
  lemma SignStep(sh: Shader, data: Analysis, op: string, ts: seq<Token>, end: string)
    requires Sign(op) && Stop(end)
    ensures Transpile(sh, data, SPACE, Spaced(op) + ts, end)
         == Prefixed(SpacedPieces(op), Transpile(sh, data, SPACE, ts, end))
  {
    hide Transpile, CHARACTERS, Sign;
    SignCharacters(op);
    var tail := Transpile(sh, data, SPACE, ts, end);
    if |op| == 2 {
      var a, b := Other(op[..1]), Other(op[1..]);
      assert Spaced(op) + ts == [SPACE] + ([a] + ([b] + ([SPACE] + ts)));
      MarkStep(sh, data, SPACE, SPACE, [a] + ([b] + ([SPACE] + ts)), end);
      CharacterStep(sh, data, SPACE, op[..1], [b] + ([SPACE] + ts), end);
      CharacterStep(sh, data, a, op[1..], [SPACE] + ts, end);
      MarkStep(sh, data, b, SPACE, ts, end);
      PrefixedTwice([Text(op[1..])], GAP, tail);
      PrefixedTwice([Text(op[..1])], [Text(op[1..])] + GAP, tail);
      PrefixedTwice(GAP, [Text(op[..1])] + ([Text(op[1..])] + GAP), tail);
      assert [Text(op[..1])] + ([Text(op[1..])] + GAP) == OpPieces(op) + GAP;
    } else {
      var a := Other(op);
      assert Spaced(op) + ts == [SPACE] + ([a] + ([SPACE] + ts));
      MarkStep(sh, data, SPACE, SPACE, [a] + ([SPACE] + ts), end);
      CharacterStep(sh, data, SPACE, op, [SPACE] + ts, end);
      MarkStep(sh, data, a, SPACE, ts, end);
      PrefixedTwice([Text(op)], GAP, tail);
      PrefixedTwice(GAP, [Text(op)] + GAP, tail);
    }
  }

  // ---------------------------------------------------------------------------------------------------------
  // Arguments

  ghost predicate ProperPart(sh: Shader, data: Analysis, e: Expr) {
    ProperExpr(sh, data, e) || (e.Handle? && SamplerName(sh, e.sampler))
  }

  /** The last argument, with the closing parenthesis. */
  lemma {:induction false} LastPart(sh: Shader, data: Analysis, e: Expr, prev: Token, post: seq<Token>)
    requires ProperExpr(sh, data, e) && SafeDelimiters(data) && SafeBefore(data, prev)
    ensures Transpile(sh, data, prev, Tokens(e) + ([CLOSE] + post), ")") == Ok(Chunk(Emit(data, e), CLOSE, post))
    decreases e, 3
  {
    hide Transpile;
    TranspileExpr(sh, data, e, prev, [CLOSE] + post, ")");
    StopStep(sh, data, SPACE, CLOSE, post);
    assert Emit(data, e) + [] == Emit(data, e);
  }

  /** An argument with a comma behind it. */
  lemma {:induction false} NextPart(sh: Shader, data: Analysis, e: Expr, prev: Token, post: seq<Token>)
    requires ProperPart(sh, data, e) && SafeDelimiters(data) && SafeBefore(data, prev)
    ensures Transpile(sh, data, prev, Tokens(e) + ([COMMA] + post), ",") == Ok(Chunk(Emit(data, e), COMMA, post))
    decreases e, 3
  {
    hide Transpile, PlainName, UniformNames;
    if e.Handle? {
      PlainStep(sh, data, prev, e.sampler, [COMMA] + post, ",");
      StopStep(sh, data, Name(e.sampler), COMMA, post);
    } else {
      TranspileExpr(sh, data, e, prev, [COMMA] + post, ",");
      StopStep(sh, data, SPACE, COMMA, post);
    }
    assert Emit(data, e) + [] == Emit(data, e);
  }

  /** A blank in front of an argument. */
  lemma GapStep(sh: Shader, data: Analysis, prev: Token, ts: seq<Token>, end: string, out: seq<Piece>, last: Token,
                post: seq<Token>)
    requires Stop(end) && Transpile(sh, data, SPACE, ts, end) == Ok(Chunk(out, last, post))
    ensures Transpile(sh, data, prev, [SPACE] + ts, end) == Ok(Chunk(GAP + out, last, post))
  {
    hide Transpile;
    MarkStep(sh, data, prev, SPACE, ts, end);
  }

  function Rest(args: seq<Expr>, post: seq<Token>): seq<Token> {
    ArgTokens(args) + ([CLOSE] + post)
  }

  lemma RestStep(args: seq<Expr>, post: seq<Token>)
    requires args != []
    ensures |args| == 1 ==> Rest(args, post) == Tokens(args[0]) + ([CLOSE] + post)
    ensures |args| > 1 ==> Rest(args, post) == Tokens(args[0]) + ([COMMA] + ([SPACE] + Rest(args[1..], post)))
    ensures Rest(args, post) != [] && !Rest(args, post)[0].Blank?
    ensures SkipBlanks([SPACE] + Rest(args, post)) == Rest(args, post) == SkipBlanks(Rest(args, post))
  {
    hide Tokens, SkipBlanks;
    FirstIsNoBlank(args[0]);
    if |args| > 1 {
      RestMore(Tokens(args[0]), ArgTokens(args[1..]), [CLOSE] + post);
    }
    NothingToSkip(Rest(args, post));
  }

  lemma RestMore(a: seq<Token>, more: seq<Token>, post: seq<Token>)
    ensures a + ([COMMA, SPACE] + more) + post == a + ([COMMA] + ([SPACE] + (more + post)))
  {
    assert [COMMA, SPACE] + more + post == [COMMA] + ([SPACE] + (more + post));
  }

  lemma NothingToSkip(ts: seq<Token>)
    requires ts != [] && !ts[0].Blank?
    ensures SkipBlanks([SPACE] + ts) == ts == SkipBlanks(ts)
  {
    assert ([SPACE] + ts)[1..] == ts;
  }

  lemma CallTokens(e: Expr, post: seq<Token>)
    requires e.Call? || e.Access?
    ensures e.Call? ==> Tokens(e) + post == [Name(e.f)] + ([OPEN] + Rest(e.args, post))
    ensures e.Access? ==> Tokens(e) + post == [Name(e.texture)] + ([DOT, Name(e.f)] + ([OPEN] + Rest(e.args, post)))
  {
  }

  lemma EachPart(data: Analysis, args: seq<Expr>)
    requires args != []
    ensures EmitEach(data, args)[0] == Emit(data, args[0]) && EmitEach(data, args)[1..] == EmitEach(data, args[1..])
    ensures forall k :: 0 < k < |args| ==> EmitEach(data, args)[k] == EmitEach(data, args[1..])[k - 1]
  {
  }

  lemma {:induction false} TranspileJoined(sh: Shader, data: Analysis, args: seq<Expr>, prev: Token, post: seq<Token>)
    requires ProperArgs(sh, data, args) && SafeDelimiters(data) && SafeBefore(data, prev)
    ensures Transpile(sh, data, prev, Rest(args, post), ")") == Ok(Chunk(Joined(EmitEach(data, args)), CLOSE, post))
    decreases args, 4
  {
    hide Transpile, Tokens, Emit;
    if args == [] {
      assert Rest(args, post) == [CLOSE] + post;
      StopStep(sh, data, prev, CLOSE, post);
    } else if |args| == 1 {
      LastPart(sh, data, args[0], prev, post);
    } else {
      assert ProperArgs(sh, data, args[1..]);
      TranspileJoined(sh, data, args[1..], SPACE, post);
      RestStep(args, post);
      EachPart(data, args);
      hide Rest, EmitEach, Joined;
      JoinedStep(sh, data, args[0], prev, Rest(args[1..], post), Joined(EmitEach(data, args[1..])), post);
      JoinedIs(EmitEach(data, args));
    }
  }

  lemma JoinedIs(parts: seq<seq<Piece>>)
    requires |parts| > 1
    ensures Joined(parts) == parts[0] + (SEPARATOR + Joined(parts[1..]))
  {
  }

  lemma {:induction false} JoinedStep(sh: Shader, data: Analysis, e: Expr, prev: Token, ts: seq<Token>,
                                      out: seq<Piece>, post: seq<Token>)
    requires ProperExpr(sh, data, e) && SafeDelimiters(data) && SafeBefore(data, prev)
    requires Transpile(sh, data, SPACE, ts, ")") == Ok(Chunk(out, CLOSE, post))
    ensures Transpile(sh, data, prev, Tokens(e) + ([COMMA] + ([SPACE] + ts)), ")")
         == Ok(Chunk(Emit(data, e) + (SEPARATOR + out), CLOSE, post))
    decreases e, 3
  {
    hide Transpile, Tokens, Emit;
    TranspileExpr(sh, data, e, prev, [COMMA] + ([SPACE] + ts), ")");
    MarkStep(sh, data, SPACE, COMMA, [SPACE] + ts, ")");
    MarkStep(sh, data, COMMA, SPACE, ts, ")");
    assert [Text(",")] + ([Text(" ")] + out) == SEPARATOR + out;
  }

  // ---------------------------------------------------------------------------------------------------------
  // Calls

  lemma {:induction false} TranspileCall(sh: Shader, data: Analysis, e: Expr, prev: Token, post: seq<Token>,
                                         end: string)
    requires e.Call? && e.f != "mul" && e.f != "mad" && ProperExpr(sh, data, e) && SafeDelimiters(data)
    requires SafeBefore(data, prev) && SafeAfter(post) && Stop(end)
    ensures Transpile(sh, data, prev, Tokens(e) + post, end)
         == Prefixed(Emit(data, e), Transpile(sh, data, SPACE, post, end))
    decreases e, 1
  {
    hide Transpile, PlainName, OuterName, UniformNames, Joined, EmitEach, CallArguments;
    var f, args, inner := e.f, e.args, ArgTokens(e.args);
    var parens := [OPEN] + (inner + ([CLOSE] + post));
    assert Tokens(e) + post == [Name(f)] + parens;
    CalleeStep(sh, data, prev, f, args, parens, end);
    TranspileJoined(sh, data, args, OPEN, post);
    var parts := EmitEach(data, args);
    var arguments := CalledWith(data, f, parts);
    ArgumentsAre(sh, data, f, args);
    ParenStep(sh, data, Name(f), inner, post, end, Joined(parts), arguments);
    PrevIrrelevant(sh, data, CLOSE, SPACE, post, end);
    PrefixedTwice([CalleePiece(f)], [Text("(")] + arguments + [Text(")")], Transpile(sh, data, SPACE, post, end));
  }

  function CalleePiece(f: string): Piece {
    if f == "int3" then Copied(f) else Spelled(f)
  }

  /** What stands between the parentheses of a call. */
  function CalledWith(data: Analysis, f: string, parts: seq<seq<Piece>>): (out: seq<Piece>)
    ensures f != "mul" && f != "mad" ==>
      EmitCall(data, f, parts) == [CalleePiece(f)] + ([Text("(")] + out + [Text(")")])
  {
    var extra := DataOf(data, f).AdditionalArguments();
    if f == "int3" && 2 <= |parts| <= 3 then EmitInts(parts)
    else if extra == [] then Joined(parts)
    else Joined(parts) + SEPARATOR + ExtraArgs(extra)
  }

  lemma CalleeStep(sh: Shader, data: Analysis, prev: Token, f: string, args: seq<Expr>, ts: seq<Token>, end: string)
    requires f != "mul" && f != "mad" && ProperCall(sh, data, f, args) && Stop(end) && ts != [] && ts[0] == OPEN
    ensures Transpile(sh, data, prev, [Name(f)] + ts, end)
         == Prefixed([CalleePiece(f)], Transpile(sh, data, Name(f), ts, end))
    ensures f != end
  {
    hide Transpile, UniformNames;
    if f == "int3" || IsFunction(sh, f) {
      PlainStep(sh, data, prev, f, ts, end);
    } else {
      OuterStep(sh, data, prev, f, ts, end);
    }
  }

  lemma ArgumentsAre(sh: Shader, data: Analysis, f: string, args: seq<Expr>)
    requires f != "mul" && f != "mad" && ProperCall(sh, data, f, args) && ProperArgs(sh, data, args)
    ensures var parts := EmitEach(data, args);
      CallArguments(data, f, Joined(parts)) == Ok(CalledWith(data, f, parts))
  {
    hide Joined, EmitEach, IntArguments, EmitInts;
    var parts, extra := EmitEach(data, args), DataOf(data, f).AdditionalArguments();
    if f == "int3" {
      PartsAreCommaless(sh, data, args);
      SplitJoined(parts);
    }
    NoExtraArgs(extra);
  }

  lemma NoExtraArgs(names: seq<string>)
    ensures ExtraArgs(names) == [] <==> names == []
  {
  }

  // ---------------------------------------------------------------------------------------------------------
  // Splitting at commas

  ghost predicate NoCommas(ps: seq<Piece>) {
    Text(",") !in ps && ps != []
  }

  lemma {:induction false} SplitPart(part: seq<Piece>, rest: seq<Piece>, cuts: nat, before: seq<Piece>)
    requires Text(",") !in part
    ensures Split(part + rest, cuts, before) == Split(rest, cuts, before + part)
    decreases |part|
  {
    if part == [] {
      assert part + rest == rest && before + part == before;
    } else {
      var ps := part + rest;
      assert ps[1..] == part[1..] + rest && ps[0] == part[0];
      SplitPart(part[1..], rest, cuts, before + [part[0]]);
      assert before + [part[0]] + part[1..] == before + part;
    }
  }

  lemma SplitLast(part: seq<Piece>, cuts: nat)
    requires NoCommas(part)
    ensures Split(part, cuts, []) == [part]
  {
    SplitPart(part, [], cuts, []);
    assert part + [] == part && [] + part == part;
  }

  lemma SplitNext(part: seq<Piece>, rest: seq<Piece>, cuts: nat)
    requires NoCommas(part) && cuts > 0
    ensures Split(part + ([Text(",")] + rest), cuts, []) == [part] + Split(rest, cuts - 1, [])
  {
    SplitPart(part, [Text(",")] + rest, cuts, []);
    assert [] + part == part && ([Text(",")] + rest)[1..] == rest;
  }

  lemma JoinedTwo(parts: seq<seq<Piece>>)
    requires |parts| == 2
    ensures Joined(parts) == parts[0] + ([Text(",")] + (GAP + parts[1]))
  {
    assert Joined(parts[1..]) == parts[1];
  }

  lemma JoinedThree(parts: seq<seq<Piece>>)
    requires |parts| == 3
    ensures Joined(parts) == parts[0] + ([Text(",")] + (GAP + parts[1] + ([Text(",")] + (GAP + parts[2]))))
  {
    JoinedTwo(parts[1..]);
    JoinedIs(parts);
    var more := [Text(",")] + (GAP + parts[2]);
    hide Joined;
    assert SEPARATOR + (parts[1] + more) == [Text(",")] + (GAP + parts[1] + more);
  }

  lemma SplitTwo(a: seq<Piece>, b: seq<Piece>)
    requires NoCommas(a) && NoCommas(b)
    ensures Split(a + ([Text(",")] + b), 3, []) == [a, b]
  {
    hide Split, NoCommas;
    SplitNext(a, b, 3);
    SplitLast(b, 2);
  }

  lemma SplitThree(a: seq<Piece>, b: seq<Piece>, c: seq<Piece>)
    requires NoCommas(a) && NoCommas(b) && NoCommas(c)
    ensures Split(a + ([Text(",")] + (b + ([Text(",")] + c))), 3, []) == [a, b, c]
  {
    hide Split, NoCommas;
    SplitNext(a, b + ([Text(",")] + c), 3);
    SplitNext(b, c, 2);
    SplitLast(c, 1);
  }

  lemma SplitJoined(parts: seq<seq<Piece>>)
    requires 2 <= |parts| <= 3 && forall k :: 0 <= k < |parts| ==> NoCommas(parts[k])
    ensures IntArguments(Joined(parts)) == Ok(EmitInts(parts))
  {
    hide Split, Joined;
    assert NoCommas(GAP + parts[1]);
    if |parts| == 2 {
      JoinedTwo(parts);
      SplitTwo(parts[0], GAP + parts[1]);
    } else {
      assert NoCommas(GAP + parts[2]);
      JoinedThree(parts);
      SplitThree(parts[0], GAP + parts[1], GAP + parts[2]);
    }
  }

  lemma {:induction false} EmitsNoComma(sh: Shader, data: Analysis, e: Expr)
    requires ProperExpr(sh, data, e) && Commaless(data, e)
    ensures NoCommas(Emit(data, e))
    decreases e
  {
    hide UniformNames, TextureNames, PlainName, OuterName;
    match e {
      case Paren(x) => EmitsNoComma(sh, data, x);
      case Negate(x) => EmitsNoComma(sh, data, x);
      case Infix(op, l, r) =>
        EmitsNoComma(sh, data, l);
        EmitsNoComma(sh, data, r);
        NoCommaInSign(op);
        hide SpacedPieces, M.OpLevel;
      case Conditional(c, a, b) =>
        EmitsNoComma(sh, data, c);
        EmitsNoComma(sh, data, a);
        EmitsNoComma(sh, data, b);
        NoCommaInSign("?");
        NoCommaInSign(":");
        hide SpacedPieces;
      case Member(b, f) => EmitsNoComma(sh, data, b);
      case Index(b, i) =>
        EmitsNoComma(sh, data, b);
        EmitsNoComma(sh, data, i);
      case Call(f, args) =>
        var parts := EmitEach(data, args);
        PartsAreCommalessHere(sh, data, args);
        SpelledNoComma(f);
        CallNoComma(data, f, parts);
      case _ =>
    }
  }

  lemma NoCommaInSign(op: string)
    requires Sign(op)
    ensures NoCommas(SpacedPieces(op))
  {
    SignCharacters(op);
    hide Sign;
  }

  lemma SpelledNoComma(f: string)
    ensures MetalName(f) == "," ==> f == ","
  {
  }

  lemma CallNoComma(data: Analysis, f: string, parts: seq<seq<Piece>>)
    requires forall k :: 0 <= k < |parts| ==> NoCommas(parts[k])
    requires Spelled(f) != Text(",")
    requires (f == "mul" && |parts| == 2) || (f == "mad" && |parts| == 3)
          || (f != "int3" && f != "mul" && f != "mad" && |parts| <= 1 && DataOf(data, f).AdditionalArguments() == [])
    ensures NoCommas(EmitCall(data, f, parts))
  {
  }

  lemma {:induction false} PartsAreCommalessHere(sh: Shader, data: Analysis, args: seq<Expr>)
    requires ProperArgs(sh, data, args) && AllCommaless(data, args)
    ensures forall k :: 0 <= k < |args| ==> NoCommas(EmitEach(data, args)[k])
    decreases args
  {
    hide Emit, ProperExpr, Commaless, NoCommas;
    if args != [] {
      EmitsNoComma(sh, data, args[0]);
      PartsAreCommalessHere(sh, data, args[1..]);
      EachPart(data, args);
    }
  }

  lemma PartsAreCommaless(sh: Shader, data: Analysis, args: seq<Expr>)
    requires ProperArgs(sh, data, args) && AllCommaless(data, args)
    ensures forall k :: 0 <= k < |args| ==> NoCommas(EmitEach(data, args)[k])
  {
    PartsAreCommalessHere(sh, data, args);
  }

  // ---------------------------------------------------------------------------------------------------------
  // Products

  lemma {:induction false} TranspileMul(sh: Shader, data: Analysis, e: Expr, prev: Token, post: seq<Token>, end: string)
    requires e.Call? && e.f == "mul" && ProperExpr(sh, data, e) && SafeDelimiters(data)
    requires SafeBefore(data, prev) && SafeAfter(post) && Stop(end)
    ensures Transpile(sh, data, prev, Tokens(e) + post, end)
         == Prefixed(Emit(data, e), Transpile(sh, data, SPACE, post, end))
    decreases e, 1
  {
    hide Transpile, Step, SkipBlanks, Rest;
    var args := e.args;
    var xs, bs := Rest(args, post), Rest(args[1..], post);
    CallTokens(e, post);
    RestStep(args, post);
    RestStep(args[1..], post);
    assert args[1..][0] == args[1];
    NextPart(sh, data, args[0], OPEN, [SPACE] + bs);
    LastPart(sh, data, args[1], SPACE, post);
    MulStep(sh, data, prev, xs, bs, Emit(data, args[0]), Emit(data, args[1]), post);
    EachPart(data, args);
    EachPart(data, args[1..]);
    CallStep(sh, data, prev, Name("mul"), [OPEN] + xs, end, Emit(data, e), post);
  }

  lemma MulStep(sh: Shader, data: Analysis, prev: Token, ts: seq<Token>, bs: seq<Token>, a: seq<Piece>, b: seq<Piece>,
                post: seq<Token>)
    requires ts != [] && !ts[0].Blank? && bs != [] && !bs[0].Blank?
    requires Transpile(sh, data, OPEN, ts, ",") == Ok(Chunk(a, COMMA, [SPACE] + bs))
    requires Transpile(sh, data, SPACE, bs, ")") == Ok(Chunk(b, CLOSE, post))
    ensures Step(sh, data, prev, [Name("mul")] + ([OPEN] + ts))
         == Ok(Chunk([Text("(")] + a + [Text(") * (")] + b + [Text(")")], CLOSE, post))
  {
    hide Transpile;
    var all := [Name("mul")] + ([OPEN] + ts);
    assert all[1..] == [OPEN] + ts && ([OPEN] + ts)[1..] == ts;
    assert OpenCall(all[1..]) == [OPEN] + ts;
    SecondStep(sh, data, bs, b, post);
    hide SecondFactor;
    assert Multiplication(sh, data, all)
        == Ok(Chunk([Text("(")] + a + [Text(") * (")] + b + [Text(")")], CLOSE, post));
  }

  lemma SecondStep(sh: Shader, data: Analysis, bs: seq<Token>, b: seq<Piece>, post: seq<Token>)
    requires bs != [] && !bs[0].Blank?
    requires Transpile(sh, data, SPACE, bs, ")") == Ok(Chunk(b, CLOSE, post))
    ensures SecondFactor(sh, data, COMMA, [SPACE] + bs) == Ok(Chunk(b, CLOSE, post))
  {
    hide Transpile;
    assert ([SPACE] + bs)[1..] == bs && SkipBlanks([SPACE] + bs) == bs;
  }

  lemma {:induction false} TranspileMad(sh: Shader, data: Analysis, e: Expr, prev: Token, post: seq<Token>, end: string)
    requires e.Call? && e.f == "mad" && ProperExpr(sh, data, e) && SafeDelimiters(data)
    requires SafeBefore(data, prev) && SafeAfter(post) && Stop(end)
    ensures Transpile(sh, data, prev, Tokens(e) + post, end)
         == Prefixed(Emit(data, e), Transpile(sh, data, SPACE, post, end))
    decreases e, 1
  {
    hide Transpile, Step, SkipBlanks, Rest;
    var args := e.args;
    var xs, bs, cs := Rest(args, post), Rest(args[1..], post), Rest(args[2..], post);
    CallTokens(e, post);
    RestStep(args, post);
    RestStep(args[1..], post);
    RestStep(args[2..], post);
    assert args[1..][0] == args[1] && args[1..][1..] == args[2..] && args[2..][0] == args[2];
    NextPart(sh, data, args[0], OPEN, [SPACE] + bs);
    NextPart(sh, data, args[1], SPACE, [SPACE] + cs);
    GapStep(sh, data, COMMA, bs, ",", Emit(data, args[1]), COMMA, [SPACE] + cs);
    LastPart(sh, data, args[2], SPACE, post);
    GapStep(sh, data, COMMA, cs, ")", Emit(data, args[2]), CLOSE, post);
    MadStep(sh, data, prev, xs, bs, cs, Emit(data, args[0]), GAP + Emit(data, args[1]), GAP + Emit(data, args[2]),
            post);
    EachPart(data, args);
    EachPart(data, args[1..]);
    EachPart(data, args[2..]);
    CallStep(sh, data, prev, Name("mad"), [OPEN] + xs, end, Emit(data, e), post);
  }

  lemma MadStep(sh: Shader, data: Analysis, prev: Token, ts: seq<Token>, bs: seq<Token>, cs: seq<Token>, a: seq<Piece>,
                b: seq<Piece>, c: seq<Piece>, post: seq<Token>)
    requires ts != [] && !ts[0].Blank? && bs != [] && !bs[0].Blank? && cs != [] && !cs[0].Blank?
    requires Transpile(sh, data, OPEN, ts, ",") == Ok(Chunk(a, COMMA, [SPACE] + bs))
    requires Transpile(sh, data, COMMA, [SPACE] + bs, ",") == Ok(Chunk(b, COMMA, [SPACE] + cs))
    requires Transpile(sh, data, COMMA, [SPACE] + cs, ")") == Ok(Chunk(c, CLOSE, post))
    ensures Step(sh, data, prev, [Name("mad")] + ([OPEN] + ts))
         == Ok(Chunk([Text("((")] + a + [Text(") * (")] + b + [Text(")) + (")] + c + [Text(")")], CLOSE, post))
  {
    hide Transpile;
    var all := [Name("mad")] + ([OPEN] + ts);
    assert all[1..] == [OPEN] + ts && ([OPEN] + ts)[1..] == ts;
    assert ([SPACE] + bs)[1..] == bs && ([SPACE] + cs)[1..] == cs;
    assert SkipBlanks([SPACE] + bs) == bs && SkipBlanks([SPACE] + cs) == cs;
    assert OpenCall(all[1..]) == [OPEN] + ts;
    assert MultiplyAdd(sh, data, all)
        == Ok(Chunk([Text("((")] + a + [Text(") * (")] + b + [Text(")) + (")] + c + [Text(")")], CLOSE, post));
  }

  // ---------------------------------------------------------------------------------------------------------
  // Accesses to textures

  lemma {:induction false} TranspileAccess(sh: Shader, data: Analysis, e: Expr, prev: Token, post: seq<Token>,
                                           end: string)
    requires e.Access? && ProperExpr(sh, data, e) && SafeDelimiters(data)
    requires SafeBefore(data, prev) && SafeAfter(post) && Stop(end)
    ensures Transpile(sh, data, prev, Tokens(e) + post, end)
         == Prefixed(Emit(data, e), Transpile(sh, data, SPACE, post, end))
    decreases e, 1
  {
    hide Transpile, Step, TextureCall, EmitAccess, SafeDelimiters, SafeBefore, SafeAfter;
    var t, f, args := e.texture, e.f, e.args;
    var xs := [OPEN] + Rest(args, post);
    CallTokens(e, post);
    RestStep(args, post);
    if f == "Load" {
      TranspileLoad(sh, data, args, post);
    } else {
      TranspileSample(sh, data, f, args, post);
    }
    AccessStep(sh, data, prev, t, f, xs, EmitAccess(f, EmitEach(data, args)), post);
    CallStep(sh, data, prev, Name(t), [DOT, Name(f)] + xs, end, Emit(data, e), post);
  }

  lemma AccessStep(sh: Shader, data: Analysis, prev: Token, t: string, f: string, args: seq<Token>,
                   access: seq<Piece>, post: seq<Token>)
    requires TextureName(sh, t) && |args| > 1 && args[0] == OPEN && !args[1].Blank?
    requires TextureCall(sh, data, f, args) == Ok(Chunk(access, CLOSE, post))
    ensures Step(sh, data, prev, [Name(t)] + ([DOT, Name(f)] + args))
         == Ok(Chunk([TextureRef(t), Text(".")] + access, CLOSE, post))
  {
    hide TextureCall, TextureNames;
    var ts := [Name(t)] + ([DOT, Name(f)] + args);
    assert ts[1..] == [DOT, Name(f)] + args;
    assert ts[1..][1..] == [Name(f)] + args;
    assert ts[1..][1..][1..] == args;
    assert SkipBlanks(ts[1..]) == ts[1..];
    assert SkipBlanks(ts[1..][1..]) == ts[1..][1..];
    assert OpenCall(args) == args;
    assert SamplerCall(sh, data, ts) == Ok(Chunk([TextureRef(t), Text(".")] + access, CLOSE, post));
  }

  lemma {:induction false} TranspileLoad(sh: Shader, data: Analysis, args: seq<Expr>, post: seq<Token>)
    requires |args| == 1 && ProperArgs(sh, data, args) && SafeDelimiters(data)
    requires (args[0].Call? && args[0].f == "int3") || !LeadsInt3(args[0])
    ensures TextureCall(sh, data, "Load", [OPEN] + Rest(args, post))
         == Ok(Chunk(EmitAccess("Load", EmitEach(data, args)), CLOSE, post))
    decreases args, 4
  {
    hide Transpile, Emit, Rest, ReadCall;
    RestStep(args, post);
    LastPart(sh, data, args[0], OPEN, post);
    EachPart(data, args);
    ReadIsOk(sh, data, args[0]);
    assert ([OPEN] + Rest(args, post))[1..] == Rest(args, post);
  }

  lemma ReadIsOk(sh: Shader, data: Analysis, e: Expr)
    requires ProperExpr(sh, data, e) && ((e.Call? && e.f == "int3") || !LeadsInt3(e))
    ensures ReadCall(Emit(data, e)).Ok?
  {
    if e.Call? && e.f == "int3" {
      ReadInt3(sh, data, e.args);
    } else {
      NotInt3(sh, data, e);
    }
  }

  predicate BeginsInt3(ps: seq<Piece>) {
    ps != [] && ps[0].Copied? && ps[0].name == "int3"
  }

  lemma NotInt3(sh: Shader, data: Analysis, e: Expr)
    requires ProperExpr(sh, data, e) && !LeadsInt3(e)
    ensures Emit(data, e) != [] && !BeginsInt3(Emit(data, e))
  {
    hide UniformNames, TextureNames, Joined, EmitAccess, ExtraArgs;
    match e {
      case Infix(_, l, _) => NotInt3(sh, data, l);
      case Conditional(c, _, _) => NotInt3(sh, data, c);
      case Member(b, _) => NotInt3(sh, data, b);
      case Index(b, _) => NotInt3(sh, data, b);
      case _ =>
    }
  }

  /** The coordinates of a `Load` from an `int3` constructor. */
  function EmitRead(parts: seq<seq<Piece>>): seq<Piece>
    requires 2 <= |parts| <= 3
  {
    if |parts| == 3 then
      [Text("read(uint2(")] + Converted("int(", parts[0]) + SEPARATOR + (GAP + Converted("int(", GAP + parts[1]))
      + [Text(")")] + SEPARATOR + [Text("uint(")] + (GAP + Converted("int(", GAP + parts[2])) + [Text("))")]
    else
      [Text("read(uint2(")] + Converted("int2(", parts[0]) + [Text(")")] + SEPARATOR
      + [Text("uint(")] + (GAP + Converted("int(", GAP + parts[1])) + [Text("))")]
  }

  lemma ReadInt3(sh: Shader, data: Analysis, args: seq<Expr>)
    requires ProperCall(sh, data, "int3", args) && ProperArgs(sh, data, args)
    ensures ReadCall(EmitCall(data, "int3", EmitEach(data, args))) == Ok(EmitRead(EmitEach(data, args)))
  {
    PartsAreCommaless(sh, data, args);
    hide Joined, EmitEach;
    ReadParts(data, EmitEach(data, args));
  }

  lemma ReadParts(data: Analysis, parts: seq<seq<Piece>>)
    requires 2 <= |parts| <= 3 && forall k :: 0 <= k < |parts| ==> NoCommas(parts[k])
    ensures ReadCall(EmitCall(data, "int3", parts)) == Ok(EmitRead(parts))
  {
    hide Split;
    var arg := EmitCall(data, "int3", parts);
    assert arg[2..|arg| - 1] == EmitInts(parts);
    SplitInts(parts);
    hide EmitInts;
  }

  lemma SplitInts(parts: seq<seq<Piece>>)
    requires 2 <= |parts| <= 3 && forall k :: 0 <= k < |parts| ==> NoCommas(parts[k])
    ensures Split(EmitInts(parts), 3, [])
         == if |parts| == 3 then [Converted("int(", parts[0]), GAP + Converted("int(", GAP + parts[1]),
                                  GAP + Converted("int(", GAP + parts[2])]
            else [Converted("int2(", parts[0]), GAP + Converted("int(", GAP + parts[1])]
  {
    hide Split, NoCommas, Converted;
    ConversionNoComma(parts[0]);
    ConversionNoComma(parts[1]);
    var b := Converted("int(", GAP + parts[1]);
    if |parts| == 3 {
      ConversionNoComma(parts[2]);
      SeparatedThree(Converted("int(", parts[0]), b, Converted("int(", GAP + parts[2]));
      SplitThree(Converted("int(", parts[0]), GAP + b, GAP + Converted("int(", GAP + parts[2]));
    } else {
      SeparatedTwo(Converted("int2(", parts[0]), b);
      SplitTwo(Converted("int2(", parts[0]), GAP + b);
    }
  }

  lemma ConversionNoComma(part: seq<Piece>)
    requires NoCommas(part)
    ensures NoCommas(Converted("int(", part)) && NoCommas(Converted("int2(", part))
    ensures NoCommas(GAP + Converted("int(", GAP + part))
  {
  }

  lemma SeparatedTwo(a: seq<Piece>, b: seq<Piece>)
    ensures a + SEPARATOR + b == a + ([Text(",")] + (GAP + b))
  {
  }

  lemma SeparatedThree(a: seq<Piece>, b: seq<Piece>, c: seq<Piece>)
    ensures a + SEPARATOR + b + SEPARATOR + c == a + ([Text(",")] + (GAP + b + ([Text(",")] + (GAP + c))))
  {
    SeparatedTwo(b, c);
    SeparatedTwo(a, b + (SEPARATOR + c));
    assert a + SEPARATOR + b + SEPARATOR + c == a + SEPARATOR + (b + (SEPARATOR + c));
  }

  lemma {:induction false} TranspileSample(sh: Shader, data: Analysis, f: string, args: seq<Expr>, post: seq<Token>)
    requires |args| == (if f == "Sample" then 2 else if f == "SampleGrad" then 4 else 3)
    requires f in {"Sample", "SampleBias", "SampleGrad", "SampleLevel"} && SafeDelimiters(data)
    requires ProperPart(sh, data, args[0]) && ProperArgs(sh, data, args[1..])
    ensures TextureCall(sh, data, f, [OPEN] + Rest(args, post))
         == Ok(Chunk(EmitAccess(f, EmitEach(data, args)), CLOSE, post))
    decreases args, 4
  {
    hide Transpile, Emit, Rest, TextureCall, ProperExpr, SkipBlanks, EmitAccess;
    RestStep(args, post);
    RestStep(args[1..], post);
    var bs := [SPACE] + Rest(args[1..], post);
    NextPart(sh, data, args[0], OPEN, bs);
    EachPart(data, args);
    EachPart(data, args[1..]);
    assert args[1..][0] == args[1];
    var a, b := Emit(data, args[0]), GAP + Emit(data, args[1]);
    if f == "Sample" {
      LastPart(sh, data, args[1], SPACE, post);
      GapStep(sh, data, COMMA, Rest(args[1..], post), ")", Emit(data, args[1]), CLOSE, post);
      ShortStep(sh, data, Rest(args, post), bs, a, b, post);
      ShortAccess(EmitEach(data, args));
    } else {
      assert args[1..][1..] == args[2..];
      RestStep(args[2..], post);
      var cs := [SPACE] + Rest(args[2..], post);
      NextPart(sh, data, args[1], SPACE, cs);
      GapStep(sh, data, COMMA, Rest(args[1..], post), ",", Emit(data, args[1]), COMMA, cs);
      EachPart(data, args[2..]);
      TranspileLonger(sh, data, f, args, bs, cs, post);
    }
    hide EmitEach;
  }

  /** The methods with further arguments; the first two are known. */
  lemma {:induction false} TranspileLonger(sh: Shader, data: Analysis, f: string, args: seq<Expr>, bs: seq<Token>,
                                           cs: seq<Token>, post: seq<Token>)
    requires |args| == (if f == "SampleGrad" then 4 else 3)
    requires f in {"SampleBias", "SampleGrad", "SampleLevel"} && SafeDelimiters(data)
    requires ProperArgs(sh, data, args[1..])
    requires bs == [SPACE] + Rest(args[1..], post) && cs == [SPACE] + Rest(args[2..], post)
    requires SkipBlanks(bs) != [] && SkipBlanks(cs) != []
    requires Transpile(sh, data, OPEN, Rest(args, post), ",") == Ok(Chunk(Emit(data, args[0]), COMMA, bs))
    requires Transpile(sh, data, COMMA, bs, ",") == Ok(Chunk(GAP + Emit(data, args[1]), COMMA, cs))
    ensures TextureCall(sh, data, f, [OPEN] + Rest(args, post))
         == Ok(Chunk(EmitAccess(f, EmitEach(data, args)), CLOSE, post))
    decreases args, 3
  {
    hide Transpile, Emit, Rest, TextureCall, ProperExpr, SkipBlanks;
    assert args[2..][0] == args[2] && args[1..][1] == args[2];
    assert ProperExpr(sh, data, args[2]);
    RestStep(args[2..], post);
    PartsOf(data, args);
    var a, b, c := Emit(data, args[0]), GAP + Emit(data, args[1]), GAP + Emit(data, args[2]);
    if f == "SampleGrad" {
      var ds := [SPACE] + Rest(args[3..], post);
      assert args[2..][1..] == args[3..] && args[3..][0] == args[3] && args[1..][2] == args[3];
      assert ProperExpr(sh, data, args[3]);
      RestStep(args[3..], post);
      NextPart(sh, data, args[2], SPACE, ds);
      GapStep(sh, data, COMMA, Rest(args[2..], post), ",", Emit(data, args[2]), COMMA, ds);
      LastPart(sh, data, args[3], SPACE, post);
      GapStep(sh, data, COMMA, Rest(args[3..], post), ")", Emit(data, args[3]), CLOSE, post);
      GradStep(sh, data, Rest(args, post), bs, cs, ds, a, b, c, GAP + Emit(data, args[3]), post);
    } else {
      LastPart(sh, data, args[2], SPACE, post);
      GapStep(sh, data, COMMA, Rest(args[2..], post), ")", Emit(data, args[2]), CLOSE, post);
      OptionStep(sh, data, f, Rest(args, post), bs, cs, a, b, c, post);
    }
    hide EmitEach;
  }

  lemma {:induction false} PartsOf(data: Analysis, args: seq<Expr>)
    ensures forall k :: 0 <= k < |args| ==> EmitEach(data, args)[k] == Emit(data, args[k])
  {
    hide Emit;
    if args != [] {
      PartsOf(data, args[1..]);
      EachPart(data, args);
    }
  }

  lemma ShortAccess(parts: seq<seq<Piece>>)
    requires |parts| == 2
    ensures EmitAccess("Sample", parts) == [Text("sample(")] + parts[0] + SEPARATOR + (GAP + parts[1]) + [Text(")")]
  {
  }

  lemma ShortStep(sh: Shader, data: Analysis, ts: seq<Token>, bs: seq<Token>, a: seq<Piece>, b: seq<Piece>,
                  post: seq<Token>)
    requires Transpile(sh, data, OPEN, ts, ",") == Ok(Chunk(a, COMMA, bs)) && SkipBlanks(bs) != []
    requires Transpile(sh, data, COMMA, bs, ")") == Ok(Chunk(b, CLOSE, post))
    ensures TextureCall(sh, data, "Sample", [OPEN] + ts)
         == Ok(Chunk([Text("sample(")] + a + SEPARATOR + b + [Text(")")], CLOSE, post))
  {
    hide Transpile, SkipBlanks;
    assert ([OPEN] + ts)[1..] == ts;
  }

  lemma OptionStep(sh: Shader, data: Analysis, f: string, ts: seq<Token>, bs: seq<Token>, cs: seq<Token>,
                   a: seq<Piece>, b: seq<Piece>, c: seq<Piece>, post: seq<Token>)
    requires f == "SampleBias" || f == "SampleLevel"
    requires Transpile(sh, data, OPEN, ts, ",") == Ok(Chunk(a, COMMA, bs)) && SkipBlanks(bs) != []
    requires Transpile(sh, data, COMMA, bs, ",") == Ok(Chunk(b, COMMA, cs)) && SkipBlanks(cs) != []
    requires Transpile(sh, data, COMMA, cs, ")") == Ok(Chunk(c, CLOSE, post))
    ensures TextureCall(sh, data, f, [OPEN] + ts)
         == Ok(Chunk([Text("sample(")] + a + SEPARATOR + b + SEPARATOR
                     + [Text(if f == "SampleBias" then "bias(" else "level(")] + c + [Text("))")], CLOSE, post))
  {
    hide Transpile, SkipBlanks;
    assert ([OPEN] + ts)[1..] == ts;
  }

  lemma GradStep(sh: Shader, data: Analysis, ts: seq<Token>, bs: seq<Token>, cs: seq<Token>, ds: seq<Token>,
                 a: seq<Piece>, b: seq<Piece>, c: seq<Piece>, d: seq<Piece>, post: seq<Token>)
    requires Transpile(sh, data, OPEN, ts, ",") == Ok(Chunk(a, COMMA, bs)) && SkipBlanks(bs) != []
    requires Transpile(sh, data, COMMA, bs, ",") == Ok(Chunk(b, COMMA, cs)) && SkipBlanks(cs) != []
    requires Transpile(sh, data, COMMA, cs, ",") == Ok(Chunk(c, COMMA, ds)) && SkipBlanks(ds) != []
    requires Transpile(sh, data, COMMA, ds, ")") == Ok(Chunk(d, CLOSE, post))
    ensures TextureCall(sh, data, "SampleGrad", [OPEN] + ts)
         == Ok(Chunk([Text("sample(")] + a + SEPARATOR + b + SEPARATOR + [Text("gradient2d(")] + c + SEPARATOR + d
                     + [Text("))")], CLOSE, post))
  {
    hide Transpile, SkipBlanks;
    assert ([OPEN] + ts)[1..] == ts;
  }

  // ---------------------------------------------------------------------------------------------------------
  // Statements

  /** What follows a statement. */
  function LastToken(s: Stmt): Token {
    match s
    case Gap(b) => Blank(b)
    case If(_, _, _) => END
    case When(_, _) => END
    case While(_, _) => END
    case _ => SEMICOLON
  }

  /** An expression that ends with a semicolon. */
  lemma ValueStep(sh: Shader, data: Analysis, e: Expr, post: seq<Token>)
    requires ProperExpr(sh, data, e) && SafeDelimiters(data)
    ensures Transpile(sh, data, SPACE, Tokens(e) + ([SEMICOLON] + post), "}")
         == Prefixed(Emit(data, e) + [Text(";")], Transpile(sh, data, SEMICOLON, post, "}"))
  {
    hide Transpile, Tokens, Emit;
    TranspileExpr(sh, data, e, SPACE, [SEMICOLON] + post, "}");
    MarkStep(sh, data, SPACE, SEMICOLON, post, "}");
    PrefixedTwice(Emit(data, e), [Text(";")], Transpile(sh, data, SEMICOLON, post, "}"));
  }

  /** ` = ` and a value, or another assignment. */
  lemma EqualsStep(sh: Shader, data: Analysis, prev: Token, op: string, e: Expr, post: seq<Token>)
    requires ProperExpr(sh, data, e) && SafeDelimiters(data) && op in M.ASSIGNMENTS
    ensures Transpile(sh, data, prev, Spaced(op) + (Tokens(e) + ([SEMICOLON] + post)), "}")
         == Prefixed(EmitValue(data, op, e), Transpile(sh, data, SEMICOLON, post, "}"))
  {
    hide Transpile, Tokens, Emit, Spaced, SpacedPieces;
    var value := Tokens(e) + ([SEMICOLON] + post);
    SpacedFirst(op, value);
    PrevIrrelevant(sh, data, prev, SPACE, Spaced(op) + value, "}") by { StartsBlank(op, value); }
    SignStep(sh, data, op, value, "}");
    ValueStep(sh, data, e, post);
    PrefixedTwice(SpacedPieces(op), Emit(data, e) + [Text(";")], Transpile(sh, data, SEMICOLON, post, "}"));
  }

  lemma StartsBlank(op: string, ts: seq<Token>)
    ensures Spaced(op) + ts != [] && (Spaced(op) + ts)[0] == SPACE
  {
  }

  /** A keyword and the blank behind it. */
  lemma WordStep(sh: Shader, data: Analysis, prev: Token, n: string, ts: seq<Token>)
    requires PlainName(sh, n) && n !in UniformNames(sh)
    ensures Transpile(sh, data, prev, [Name(n), SPACE] + ts, "}")
         == Prefixed([Copied(n), Text(" ")], Transpile(sh, data, SPACE, ts, "}"))
  {
    hide Transpile, PlainName, UniformNames;
    assert [Name(n), SPACE] + ts == [Name(n)] + ([SPACE] + ts);
    PlainStep(sh, data, prev, n, [SPACE] + ts, "}");
    MarkStep(sh, data, Name(n), SPACE, ts, "}");
    PrefixedTwice([Copied(n)], [Text(" ")], Transpile(sh, data, SPACE, ts, "}"));
    assert [Copied(n)] + [Text(" ")] == [Copied(n), Text(" ")];
  }

  /** A condition in parentheses and the blank behind it. */
  lemma ConditionStep(sh: Shader, data: Analysis, c: Expr, ts: seq<Token>)
    requires ProperExpr(sh, data, c) && SafeDelimiters(data)
    ensures Transpile(sh, data, SPACE, [OPEN] + (Tokens(c) + ([CLOSE] + ([SPACE] + ts))), "}")
         == Prefixed(EmitCondition(data, c), Prefixed(GAP, Transpile(sh, data, SPACE, ts, "}")))
  {
    hide Transpile, Tokens, Emit, CallArguments;
    var post, out := [SPACE] + ts, Emit(data, c);
    LastPart(sh, data, c, OPEN, post);
    SafeCall(data, SPACE, out);
    ParenStep(sh, data, SPACE, Tokens(c), post, "}", out, out);
    MarkStep(sh, data, CLOSE, SPACE, ts, "}");
  }

  /** The type of a declaration and the blank behind it. */
  lemma TypeStep(sh: Shader, data: Analysis, prev: Token, t: string, ts: seq<Token>)
    requires TypeName(sh, data, t)
    ensures Transpile(sh, data, prev, [Name(t)] + ([SPACE] + ts), "}")
         == Prefixed([SpelledType(sh, t)] + GAP, Transpile(sh, data, SPACE, ts, "}"))
  {
    if StructName(sh, t) {
      FirstStep(sh, data, prev, Name(t), [SPACE] + ts, "}");
      assert ([Name(t)] + ([SPACE] + ts))[1..] == [SPACE] + ts;
    } else {
      OuterStep(sh, data, prev, t, [SPACE] + ts, "}");
    }
    hide Transpile, UniformNames, TextureNames, Spelled;
    MarkStep(sh, data, Name(t), SPACE, ts, "}");
    PrefixedTwice([SpelledType(sh, t)], GAP, Transpile(sh, data, SPACE, ts, "}"));
  }

  lemma {:induction false} FieldsStep(sh: Shader, data: Analysis, prev: Token, fields: seq<string>, post: seq<Token>)
    requires (forall f :: f in fields ==> PlainName(sh, f)) && post != [] && post[0] == SPACE
    ensures Transpile(sh, data, prev, FieldTokens(fields) + post, "}")
         == Prefixed(EmitFields(fields), Transpile(sh, data, SPACE, post, "}"))
    decreases fields
  {
    hide Transpile, PlainName;
    if fields == [] {
      assert FieldTokens(fields) + post == post;
      PrefixedNil(Transpile(sh, data, SPACE, post, "}"));
      PrevIrrelevant(sh, data, prev, SPACE, post, "}");
    } else {
      var more := FieldTokens(fields[1..]) + post;
      assert FieldTokens(fields) + post == [DOT] + ([Name(fields[0])] + more);
      assert more[0] == SPACE || more[0] == DOT;
      FieldStep(sh, data, prev, fields[0], more, "}");
      FieldsStep(sh, data, Name(fields[0]), fields[1..], post);
      PrefixedTwice([Text("."), Copied(fields[0])], EmitFields(fields[1..]), Transpile(sh, data, SPACE, post, "}"));
    }
  }

  lemma {:induction false} TranspileStmt(sh: Shader, data: Analysis, s: Stmt, prev: Token, post: seq<Token>)
    requires ProperStmt(sh, data, s) && SafeDelimiters(data)
    ensures Transpile(sh, data, prev, StmtTokens(s) + post, "}")
         == Prefixed(EmitStmt(sh, data, s), Transpile(sh, data, LastToken(s), post, "}"))
    decreases s, 2
  {
    hide Transpile, PlainName, OuterName, UniformNames, Tokens, Emit;
    match s {
      case Gap(b) =>
        NoDelimiter(b);
        MarkStep(sh, data, prev, Blank(b), post, "}");
      case Let(_, _) => TranspileLet(sh, data, s, prev, post);
      case Declare(_, _, _) => TranspileDeclare(sh, data, s, prev, post);
      case Assign(_, _, _, _) => TranspileAssign(sh, data, s, prev, post);
      case Return(_) => TranspileReturn(sh, data, s, prev, post);
      case If(_, _, _) => TranspileIf(sh, data, s, prev, post);
      case When(_, _) => TranspileWhen(sh, data, s, prev, post);
      case While(_, _) => TranspileWhile(sh, data, s, prev, post);
    }
  }

  lemma NoDelimiter(b: string)
    requires Whitespace(b)
    ensures b != "}"
  {
    assert b[0] in b;
  }

  lemma TranspileLet(sh: Shader, data: Analysis, s: Stmt, prev: Token, post: seq<Token>)
    requires s.Let? && ProperStmt(sh, data, s) && SafeDelimiters(data)
    ensures Transpile(sh, data, prev, StmtTokens(s) + post, "}")
         == Prefixed(EmitStmt(sh, data, s), Transpile(sh, data, SEMICOLON, post, "}"))
  {
    hide Transpile, PlainName, OuterName, UniformNames, SpelledType;
    var Let(t, x) := s;
    var rest := [Name(x)] + ([SEMICOLON] + post);
    assert StmtTokens(s) + post == [Name(t)] + ([SPACE] + rest);
    TypeStep(sh, data, prev, t, rest);
    PlainStep(sh, data, SPACE, x, [SEMICOLON] + post, "}");
    MarkStep(sh, data, Name(x), SEMICOLON, post, "}");
    var tail := Transpile(sh, data, SEMICOLON, post, "}");
    PrefixedTwice([Copied(x)], [Text(";")], tail);
    PrefixedTwice([SpelledType(sh, t)] + GAP, [Copied(x)] + [Text(";")], tail);
    assert [SpelledType(sh, t)] + GAP + ([Copied(x)] + [Text(";")]) == EmitStmt(sh, data, s);
  }

  lemma TranspileDeclare(sh: Shader, data: Analysis, s: Stmt, prev: Token, post: seq<Token>)
    requires s.Declare? && ProperStmt(sh, data, s) && SafeDelimiters(data)
    ensures Transpile(sh, data, prev, StmtTokens(s) + post, "}")
         == Prefixed(EmitStmt(sh, data, s), Transpile(sh, data, SEMICOLON, post, "}"))
  {
    hide Transpile, PlainName, OuterName, UniformNames, Tokens, Emit, EmitValue, SpelledType, Spaced;
    var Declare(t, x, e) := s;
    var value := Spaced("=") + (Tokens(e) + ([SEMICOLON] + post));
    StartsBlank("=", Tokens(e) + ([SEMICOLON] + post));
    DeclareTokens(s, post);
    assert StmtTokens(s) + post == [Name(t)] + ([SPACE] + ([Name(x)] + value));
    TypeStep(sh, data, prev, t, [Name(x)] + value);
    PlainStep(sh, data, SPACE, x, value, "}");
    EqualsStep(sh, data, Name(x), "=", e, post);
    var tail := Transpile(sh, data, SEMICOLON, post, "}");
    PrefixedTwice([Copied(x)], EmitValue(data, "=", e), tail);
    PrefixedTwice([SpelledType(sh, t)] + GAP, [Copied(x)] + EmitValue(data, "=", e), tail);
    assert [SpelledType(sh, t)] + GAP + ([Copied(x)] + EmitValue(data, "=", e)) == EmitStmt(sh, data, s);
  }

  lemma TranspileAssign(sh: Shader, data: Analysis, s: Stmt, prev: Token, post: seq<Token>)
    requires s.Assign? && ProperStmt(sh, data, s) && SafeDelimiters(data)
    ensures Transpile(sh, data, prev, StmtTokens(s) + post, "}")
         == Prefixed(EmitStmt(sh, data, s), Transpile(sh, data, SEMICOLON, post, "}"))
  {
    hide Transpile, PlainName, OuterName, UniformNames, Tokens, Emit, EmitValue, FieldTokens, EmitFields, Spaced;
    var Assign(x, fields, op, e) := s;
    var value := Spaced(op) + (Tokens(e) + ([SEMICOLON] + post));
    StartsBlank(op, Tokens(e) + ([SEMICOLON] + post));
    var left := FieldTokens(fields) + value;
    assert StmtTokens(s) + post == [Name(x)] + left;
    FieldsStart(fields, value);
    PlainStep(sh, data, prev, x, left, "}");
    FieldsStep(sh, data, Name(x), fields, value);
    EqualsStep(sh, data, SPACE, op, e, post);
    var tail := Transpile(sh, data, SEMICOLON, post, "}");
    PrefixedTwice(EmitFields(fields), EmitValue(data, op, e), tail);
    PrefixedTwice([Copied(x)], EmitFields(fields) + EmitValue(data, op, e), tail);
  }

  lemma FieldsStart(fields: seq<string>, post: seq<Token>)
    requires post != [] && post[0] == SPACE
    ensures NoComparison(FieldTokens(fields) + post)
  {
  }

  lemma TranspileReturn(sh: Shader, data: Analysis, s: Stmt, prev: Token, post: seq<Token>)
    requires s.Return? && ProperStmt(sh, data, s) && SafeDelimiters(data)
    ensures Transpile(sh, data, prev, StmtTokens(s) + post, "}")
         == Prefixed(EmitStmt(sh, data, s), Transpile(sh, data, SEMICOLON, post, "}"))
  {
    hide Transpile, PlainName, OuterName, UniformNames, Tokens, Emit;
    var e := s.value;
    var value := Tokens(e) + ([SEMICOLON] + post);
    assert StmtTokens(s) + post == [Name("return"), SPACE] + value;
    WordStep(sh, data, prev, "return", value);
    ValueStep(sh, data, e, post);
    PrefixedTwice([Copied("return"), Text(" ")], Emit(data, e) + [Text(";")],
                  Transpile(sh, data, SEMICOLON, post, "}"));
  }

  /** The tokens from an `else` on. */
  function ElseTokens(b: seq<Stmt>, post: seq<Token>): seq<Token> {
    [SPACE] + ([Name("else"), SPACE] + ([BEGIN] + (BodyTokens(b) + ([END] + post))))
  }

  /** The tokens from a condition on. */
  function TestTokens(c: Expr, block: seq<Token>): seq<Token> {
    [OPEN] + (Tokens(c) + ([CLOSE] + ([SPACE] + block)))
  }

  lemma TestMore(c: Expr, a: seq<Token>, more: seq<Token>, post: seq<Token>)
    ensures [OPEN] + (Tokens(c) + ([CLOSE, SPACE, BEGIN] + (a + more))) + post
         == TestTokens(c, [BEGIN] + (a + (more + post)))
  {
    hide Tokens;
    var block := [BEGIN] + (a + (more + post));
    assert [CLOSE, SPACE, BEGIN] + (a + more) + post == [CLOSE] + ([SPACE] + block);
    assert [OPEN] + (Tokens(c) + ([CLOSE, SPACE, BEGIN] + (a + more))) + post
        == [OPEN] + (Tokens(c) + ([CLOSE, SPACE, BEGIN] + (a + more) + post));
  }

  lemma ElseMore(b: seq<Stmt>, post: seq<Token>)
    ensures [END, SPACE, Name("else"), SPACE, BEGIN] + (BodyTokens(b) + [END]) + post == [END] + ElseTokens(b, post)
  {
    hide BodyTokens;
    var last := BodyTokens(b) + ([END] + post);
    assert BodyTokens(b) + [END] + post == last;
    assert [END, SPACE, Name("else"), SPACE, BEGIN] + last == [END] + ElseTokens(b, post);
  }

  lemma BranchTokens(s: Stmt, post: seq<Token>, a: seq<Stmt>, other: seq<Token>)
    requires s.If? || s.When? || s.While?
    requires a == (if s.While? then s.body else s.thn) && other == if s.If? then ElseTokens(s.els, post) else post
    ensures StmtTokens(s) + post
         == [Name(if s.While? then "while" else "if"), SPACE]
            + TestTokens(s.cond, [BEGIN] + (BodyTokens(a) + ([END] + other)))
  {
    var word := [Name(if s.While? then "while" else "if"), SPACE];
    var more := if s.If? then [END, SPACE, Name("else"), SPACE, BEGIN] + (BodyTokens(s.els) + [END]) else [END];
    var test := [OPEN] + (Tokens(s.cond) + ([CLOSE, SPACE, BEGIN] + (BodyTokens(a) + more)));
    hide Tokens, BodyTokens, StmtTokens, TestTokens, ElseTokens;
    StmtIs(s, word, test);
    TestMore(s.cond, BodyTokens(a), more, post);
    assert more + post == [END] + other by {
      if s.If? {
        ElseMore(s.els, post);
      }
    }
    Regroup(word, test, post);
  }

  lemma Regroup(a: seq<Token>, b: seq<Token>, c: seq<Token>)
    ensures a + b + c == a + (b + c)
  {
  }

  lemma StmtIs(s: Stmt, word: seq<Token>, test: seq<Token>)
    requires s.If? || s.When? || s.While?
    requires word == [Name(if s.While? then "while" else "if"), SPACE]
    requires test == [OPEN] + (Tokens(s.cond) + ([CLOSE, SPACE, BEGIN] + (BodyTokens(if s.While? then s.body else s.thn)
                     + (if s.If? then [END, SPACE, Name("else"), SPACE, BEGIN] + (BodyTokens(s.els) + [END])
                        else [END]))))
    ensures StmtTokens(s) == word + test
  {
    hide Tokens, BodyTokens;
  }

  /** The tokens of a block, and the text of one. */
  lemma {:induction false} TranspileBlock(sh: Shader, data: Analysis, ss: seq<Stmt>, post: seq<Token>)
    requires ProperBody(sh, data, ss) && SafeDelimiters(data)
    ensures Transpile(sh, data, SPACE, [BEGIN] + (BodyTokens(ss) + ([END] + post)), "}")
         == Prefixed(EmitBlock(sh, data, ss), Transpile(sh, data, END, post, "}"))
    decreases ss, 1
  {
    hide Transpile;
    TranspileBody(sh, data, ss, BEGIN, post);
    BlockStep(sh, data, SPACE, BodyTokens(ss), post, "}", EmitBody(sh, data, ss));
  }

  lemma {:induction false} TranspileWhile(sh: Shader, data: Analysis, s: Stmt, prev: Token, post: seq<Token>)
    requires s.While? && ProperStmt(sh, data, s) && SafeDelimiters(data)
    ensures Transpile(sh, data, prev, StmtTokens(s) + post, "}")
         == Prefixed(EmitStmt(sh, data, s), Transpile(sh, data, END, post, "}"))
    decreases s, 1
  {
    hide Transpile, PlainName, OuterName, UniformNames, Tokens, Emit, EmitBlock, EmitCondition;
    var c, b := s.cond, s.body;
    var block := [BEGIN] + (BodyTokens(b) + ([END] + post));
    var test := TestTokens(c, block);
    BranchTokens(s, post, b, post);
    WordStep(sh, data, prev, "while", test);
    ConditionStep(sh, data, c, block);
    TranspileBlock(sh, data, b, post);
    BranchPieces("while", EmitCondition(data, c), EmitBlock(sh, data, b), Transpile(sh, data, END, post, "}"));
  }

  lemma {:induction false} TranspileWhen(sh: Shader, data: Analysis, s: Stmt, prev: Token, post: seq<Token>)
    requires s.When? && ProperStmt(sh, data, s) && SafeDelimiters(data)
    ensures Transpile(sh, data, prev, StmtTokens(s) + post, "}")
         == Prefixed(EmitStmt(sh, data, s), Transpile(sh, data, END, post, "}"))
    decreases s, 1
  {
    hide Transpile, PlainName, OuterName, UniformNames, Tokens, Emit, EmitBlock, EmitCondition;
    var c, a := s.cond, s.thn;
    var block := [BEGIN] + (BodyTokens(a) + ([END] + post));
    var test := TestTokens(c, block);
    BranchTokens(s, post, a, post);
    WordStep(sh, data, prev, "if", test);
    ConditionStep(sh, data, c, block);
    TranspileBlock(sh, data, a, post);
    BranchPieces("if", EmitCondition(data, c), EmitBlock(sh, data, a), Transpile(sh, data, END, post, "}"));
  }

  lemma BranchPieces(word: string, cond: seq<Piece>, block: seq<Piece>, tail: Result<Chunk>)
    ensures Prefixed([Copied(word), Text(" ")], Prefixed(cond, Prefixed(GAP, Prefixed(block, tail))))
         == Prefixed([Copied(word), Text(" ")] + (cond + (GAP + block)), tail)
  {
    hide Prefixed;
    PrefixedTwice(GAP, block, tail);
    PrefixedTwice(cond, GAP + block, tail);
    PrefixedTwice([Copied(word), Text(" ")], cond + (GAP + block), tail);
  }

  lemma {:induction false} TranspileElse(sh: Shader, data: Analysis, b: seq<Stmt>, post: seq<Token>)
    requires ProperBody(sh, data, b) && Keywords(sh) && SafeDelimiters(data)
    ensures Transpile(sh, data, END, ElseTokens(b, post), "}")
         == Prefixed([Text(" "), Copied("else"), Text(" ")] + EmitBlock(sh, data, b),
                     Transpile(sh, data, END, post, "}"))
    decreases b, 2
  {
    hide Transpile, PlainName, OuterName, UniformNames, EmitBlock;
    var block := [BEGIN] + (BodyTokens(b) + ([END] + post));
    MarkStep(sh, data, END, SPACE, [Name("else"), SPACE] + block, "}");
    WordStep(sh, data, SPACE, "else", block);
    TranspileBlock(sh, data, b, post);
    var tail, body := Transpile(sh, data, END, post, "}"), EmitBlock(sh, data, b);
    PrefixedTwice([Copied("else"), Text(" ")], body, tail);
    PrefixedTwice([Text(" ")], [Copied("else"), Text(" ")] + body, tail);
    assert [Text(" ")] + ([Copied("else"), Text(" ")] + body) == [Text(" "), Copied("else"), Text(" ")] + body;
  }

  lemma {:induction false} TranspileIf(sh: Shader, data: Analysis, s: Stmt, prev: Token, post: seq<Token>)
    requires s.If? && ProperStmt(sh, data, s) && SafeDelimiters(data)
    ensures Transpile(sh, data, prev, StmtTokens(s) + post, "}")
         == Prefixed(EmitStmt(sh, data, s), Transpile(sh, data, END, post, "}"))
    decreases s, 1
  {
    hide Transpile, PlainName, OuterName, UniformNames, Tokens, Emit, EmitBlock, EmitCondition;
    var c, a, b := s.cond, s.thn, s.els;
    var other := ElseTokens(b, post);
    var block := [BEGIN] + (BodyTokens(a) + ([END] + other));
    var test := TestTokens(c, block);
    BranchTokens(s, post, a, other);
    WordStep(sh, data, prev, "if", test);
    ConditionStep(sh, data, c, block);
    TranspileBlock(sh, data, a, other);
    TranspileElse(sh, data, b, post);
    var tail := Transpile(sh, data, END, post, "}");
    var els := [Text(" "), Copied("else"), Text(" ")] + EmitBlock(sh, data, b);
    PrefixedTwice(EmitBlock(sh, data, a), els, tail);
    BranchPieces("if", EmitCondition(data, c), EmitBlock(sh, data, a) + els, tail);
  }

  /** The whole body: the translation stops at the closing brace and yields the text of the lifted body. */
  lemma {:induction false} TranspileBody(sh: Shader, data: Analysis, ss: seq<Stmt>, prev: Token, post: seq<Token>)
    requires ProperBody(sh, data, ss) && SafeDelimiters(data)
    ensures Transpile(sh, data, prev, BodyTokens(ss) + ([END] + post), "}")
         == Ok(Chunk(EmitBody(sh, data, ss), END, post))
    decreases ss, 0
  {
    hide Transpile, ProperStmt, StmtTokens, EmitStmt;
    if ss == [] {
      assert BodyTokens(ss) + ([END] + post) == [END] + post;
      StopStep(sh, data, prev, END, post);
    } else {
      var more := BodyTokens(ss[1..]) + ([END] + post);
      assert BodyTokens(ss) + ([END] + post) == StmtTokens(ss[0]) + more;
      TranspileStmt(sh, data, ss[0], prev, more);
      TranspileBody(sh, data, ss[1..], LastToken(ss[0]), post);
    }
  }

  // ---------------------------------------------------------------------------------------------------------
  // The analysis scans the same tokens

  lemma SkipMark(t: Token, ts: seq<Token>, end: string)
    requires t.text != end && t != BEGIN && t != OPEN
    ensures SkipTo([t] + ts, end) == SkipTo(ts, end)
  {
    assert ([t] + ts)[1..] == ts;
  }

  lemma SkipParen(inner: seq<Token>, post: seq<Token>, end: string)
    requires end != "(" && SkipTo(inner + ([CLOSE] + post), ")") == post
    ensures SkipTo([OPEN] + (inner + ([CLOSE] + post)), end) == SkipTo(post, end)
  {
    assert ([OPEN] + (inner + ([CLOSE] + post)))[1..] == inner + ([CLOSE] + post);
  }

  lemma SkipBlock(inner: seq<Token>, post: seq<Token>, end: string)
    requires end != "{" && SkipTo(inner + ([END] + post), "}") == post
    ensures SkipTo([BEGIN] + (inner + ([END] + post)), end) == SkipTo(post, end)
  {
    assert ([BEGIN] + (inner + ([END] + post)))[1..] == inner + ([END] + post);
  }

  lemma SkipClose(t: Token, ts: seq<Token>)
    ensures SkipTo([t] + ts, t.text) == ts
  {
    assert ([t] + ts)[1..] == ts;
  }

  ghost predicate Closing(end: string) {
    end == "}" || end == ")"
  }

  lemma {:induction false} SkipExpr(sh: Shader, data: Analysis, e: Expr, post: seq<Token>, end: string)
    requires ProperPart(sh, data, e) && Closing(end)
    ensures SkipTo(Tokens(e) + post, end) == SkipTo(post, end)
    decreases e, 1
  {
    hide SkipTo, UniformNames, TextureNames;
    match e {
      case Literal(n) => SkipMark(Number(n), post, end);
      case Local(x) => SkipMark(Name(x), post, end);
      case Handle(s) => SkipMark(Name(s), post, end);
      case Uniform(u) => SkipMark(Name(u), post, end);
      case Paren(x) =>
        assert Tokens(e) + post == [OPEN] + (Tokens(x) + ([CLOSE] + post));
        SkipExpr(sh, data, x, [CLOSE] + post, ")");
        SkipClose(CLOSE, post);
        SkipParen(Tokens(x), post, end);
      case Negate(x) =>
        assert Tokens(e) + post == [MINUS] + (Tokens(x) + post);
        SkipMark(MINUS, Tokens(x) + post, end);
        SkipExpr(sh, data, x, post, end);
      case Infix(_, _, _) => SkipInfix(sh, data, e, post, end);
      case Conditional(_, _, _) => SkipConditional(sh, data, e, post, end);
      case Member(o, f) =>
        var field := [Name(f)] + post;
        assert Tokens(e) + post == Tokens(o) + ([DOT] + field);
        SkipExpr(sh, data, o, [DOT] + field, end);
        SkipMark(DOT, field, end);
        SkipMark(Name(f), post, end);
      case Index(b, i) =>
        var inside := Tokens(i) + ([RIGHT] + post);
        assert Tokens(e) + post == Tokens(b) + ([LEFT] + inside);
        SkipExpr(sh, data, b, [LEFT] + inside, end);
        SkipMark(LEFT, inside, end);
        SkipExpr(sh, data, i, [RIGHT] + post, end);
        SkipMark(RIGHT, post, end);
      case _ => SkipCall(sh, data, e, post, end);
    }
  }

  lemma {:induction false} SkipInfix(sh: Shader, data: Analysis, e: Expr, post: seq<Token>, end: string)
    requires e.Infix? && ProperExpr(sh, data, e) && Closing(end)
    ensures SkipTo(Tokens(e) + post, end) == SkipTo(post, end)
    decreases e, 0
  {
    hide SkipTo, Spaced;
    var op, l, r := e.op, e.left, e.right;
    var right := Tokens(r) + post;
    assert Tokens(e) + post == Tokens(l) + (Spaced(op) + right);
    SkipExpr(sh, data, l, Spaced(op) + right, end);
    SkipSpaced(op, right, end);
    SkipExpr(sh, data, r, post, end);
  }

  lemma {:induction false} SkipConditional(sh: Shader, data: Analysis, e: Expr, post: seq<Token>, end: string)
    requires e.Conditional? && ProperExpr(sh, data, e) && Closing(end)
    ensures SkipTo(Tokens(e) + post, end) == SkipTo(post, end)
    decreases e, 0
  {
    hide SkipTo, Spaced;
    var c, a, b := e.test, e.yes, e.no;
    var no := Tokens(b) + post;
    var yes := Tokens(a) + (Spaced(":") + no);
    MarksAreSpaced();
    assert Tokens(e) + post == Tokens(c) + (Spaced("?") + yes);
    SkipExpr(sh, data, c, Spaced("?") + yes, end);
    SkipSpaced("?", yes, end);
    SkipExpr(sh, data, a, Spaced(":") + no, end);
    SkipSpaced(":", no, end);
    SkipExpr(sh, data, b, post, end);
  }

  lemma SkipCharacter(c: string, ts: seq<Token>, end: string)
    requires c in CHARACTERS && Closing(end)
    ensures SkipTo([Other(c)] + ts, end) == SkipTo(ts, end)
  {
    SkipMark(Other(c), ts, end);
    hide SkipTo;
  }

  lemma SkipSpaced(op: string, ts: seq<Token>, end: string)
    requires Sign(op) && Closing(end)
    ensures SkipTo(Spaced(op) + ts, end) == SkipTo(ts, end)
  {
    hide SkipTo, CHARACTERS, Sign;
    SignCharacters(op);
    if |op| == 2 {
      var a, b := Other(op[..1]), Other(op[1..]);
      assert Spaced(op) + ts == [SPACE] + ([a] + ([b] + ([SPACE] + ts)));
      SkipMark(SPACE, [a] + ([b] + ([SPACE] + ts)), end);
      SkipCharacter(op[..1], [b] + ([SPACE] + ts), end);
      SkipCharacter(op[1..], [SPACE] + ts, end);
    } else {
      assert Spaced(op) + ts == [SPACE] + ([Other(op)] + ([SPACE] + ts));
      SkipMark(SPACE, [Other(op)] + ([SPACE] + ts), end);
      SkipCharacter(op, [SPACE] + ts, end);
    }
    SkipMark(SPACE, ts, end);
  }

  lemma {:induction false} SkipCall(sh: Shader, data: Analysis, e: Expr, post: seq<Token>, end: string)
    requires (e.Call? || e.Access?) && ProperExpr(sh, data, e) && Closing(end)
    ensures SkipTo(Tokens(e) + post, end) == SkipTo(post, end)
    decreases e, 0
  {
    hide SkipTo, UniformNames, TextureNames, PlainName, OuterName, Tokens, ProperPart;
    var parens := [OPEN] + Rest(e.args, post);
    CallTokens(e, post);
    if e.Call? {
      CallNotClosing(sh, data, e.f, e.args);
      SkipMark(Name(e.f), parens, end);
      CallParts(sh, data, e);
    } else {
      assert [Name(e.texture)] + ([DOT, Name(e.f)] + parens) == [Name(e.texture)] + ([DOT] + ([Name(e.f)] + parens));
      SkipMark(Name(e.texture), [DOT] + ([Name(e.f)] + parens), end);
      SkipMark(DOT, [Name(e.f)] + parens, end);
      SkipMark(Name(e.f), parens, end);
      PartsAreProper(sh, data, e);
    }
    SkipArgs(sh, data, e.args, post);
    SkipParen(ArgTokens(e.args), post, end);
  }

  lemma CallParts(sh: Shader, data: Analysis, e: Expr)
    requires e.Call? && ProperExpr(sh, data, e)
    ensures forall a :: a in e.args ==> ProperPart(sh, data, a)
  {
  }

  lemma CallNotClosing(sh: Shader, data: Analysis, f: string, args: seq<Expr>)
    requires ProperCall(sh, data, f, args)
    ensures f != "}" && f != ")"
  {
  }

  lemma PartsAreProper(sh: Shader, data: Analysis, e: Expr)
    requires e.Access? && ProperExpr(sh, data, e)
    ensures forall a :: a in e.args ==> ProperPart(sh, data, a)
  {
    hide UniformNames, TextureNames, PlainName, OuterName;
    forall a | a in e.args ensures ProperPart(sh, data, a) {
      var k :| 0 <= k < |e.args| && e.args[k] == a;
      if e.f != "Load" && k > 0 {
        assert e.args[1..][k - 1] == a;
      }
    }
  }

  lemma {:induction false} SkipArgs(sh: Shader, data: Analysis, args: seq<Expr>, post: seq<Token>)
    requires forall a :: a in args ==> ProperPart(sh, data, a)
    ensures SkipTo(Rest(args, post), ")") == post
    decreases args, 2
  {
    hide SkipTo, Tokens, ProperPart;
    SkipClose(CLOSE, post);
    if args == [] {
      assert Rest(args, post) == [CLOSE] + post;
    } else {
      RestStep(args, post);
      hide Rest;
      if |args| == 1 {
        SkipExpr(sh, data, args[0], [CLOSE] + post, ")");
      } else {
        var more := Rest(args[1..], post);
        SkipExpr(sh, data, args[0], [COMMA] + ([SPACE] + more), ")");
        SkipMark(COMMA, [SPACE] + more, ")");
        SkipMark(SPACE, more, ")");
        SkipArgs(sh, data, args[1..], post);
      }
    }
  }

  lemma SkipValue(sh: Shader, data: Analysis, e: Expr, post: seq<Token>)
    requires ProperExpr(sh, data, e)
    ensures SkipTo(Tokens(e) + ([SEMICOLON] + post), "}") == SkipTo(post, "}")
  {
    hide SkipTo, Tokens;
    SkipExpr(sh, data, e, [SEMICOLON] + post, "}");
    SkipMark(SEMICOLON, post, "}");
  }

  /** ` = `, a value and a semicolon. */
  lemma SkipEquals(sh: Shader, data: Analysis, op: string, e: Expr, post: seq<Token>)
    requires ProperExpr(sh, data, e) && op in M.ASSIGNMENTS
    ensures SkipTo(Spaced(op) + (Tokens(e) + ([SEMICOLON] + post)), "}") == SkipTo(post, "}")
  {
    hide SkipTo, Tokens, Spaced;
    SkipSpaced(op, Tokens(e) + ([SEMICOLON] + post), "}");
    SkipValue(sh, data, e, post);
  }

  lemma SkipWord(n: string, post: seq<Token>)
    requires n != "}"
    ensures SkipTo([Name(n), SPACE] + post, "}") == SkipTo(post, "}")
  {
    hide SkipTo;
    assert [Name(n), SPACE] + post == [Name(n)] + ([SPACE] + post);
    SkipMark(Name(n), [SPACE] + post, "}");
    SkipMark(SPACE, post, "}");
  }

  lemma SkipCondition(sh: Shader, data: Analysis, c: Expr, post: seq<Token>)
    requires ProperExpr(sh, data, c)
    ensures SkipTo([OPEN] + (Tokens(c) + ([CLOSE] + ([SPACE] + post))), "}") == SkipTo(post, "}")
  {
    hide SkipTo, Tokens;
    SkipExpr(sh, data, c, [CLOSE] + ([SPACE] + post), ")");
    SkipClose(CLOSE, [SPACE] + post);
    SkipParen(Tokens(c), [SPACE] + post, "}");
    SkipMark(SPACE, post, "}");
  }

  lemma {:induction false} SkipFields(sh: Shader, fields: seq<string>, post: seq<Token>)
    requires forall f :: f in fields ==> PlainName(sh, f)
    ensures SkipTo(FieldTokens(fields) + post, "}") == SkipTo(post, "}")
  {
    hide SkipTo, UniformNames, TextureNames;
    if fields == [] {
      assert FieldTokens(fields) + post == post;
    } else {
      var more := FieldTokens(fields[1..]) + post;
      assert FieldTokens(fields) + post == [DOT] + ([Name(fields[0])] + more);
      assert PlainName(sh, fields[0]);
      SkipMark(DOT, [Name(fields[0])] + more, "}");
      SkipMark(Name(fields[0]), more, "}");
      SkipFields(sh, fields[1..], post);
    }
  }

  lemma {:induction false} SkipStmt(sh: Shader, data: Analysis, s: Stmt, post: seq<Token>)
    requires ProperStmt(sh, data, s)
    ensures SkipTo(StmtTokens(s) + post, "}") == SkipTo(post, "}")
    decreases s, 1
  {
    hide SkipTo, Tokens, UniformNames, ProperExpr;
    match s {
      case Gap(b) =>
        NoDelimiter(b);
        SkipMark(Blank(b), post, "}");
      case Let(_, _) => SkipLet(sh, data, s, post);
      case Declare(_, _, _) => SkipDeclare(sh, data, s, post);
      case Assign(_, _, _, _) => SkipAssign(sh, data, s, post);
      case Return(e) =>
        var value := Tokens(e) + ([SEMICOLON] + post);
        assert StmtTokens(s) + post == [Name("return"), SPACE] + value;
        SkipWord("return", value);
        SkipValue(sh, data, e, post);
      case _ => SkipBranch(sh, data, s, post);
    }
  }

  lemma SkipLet(sh: Shader, data: Analysis, s: Stmt, post: seq<Token>)
    requires s.Let? && ProperStmt(sh, data, s)
    ensures SkipTo(StmtTokens(s) + post, "}") == SkipTo(post, "}")
  {
    hide SkipTo, UniformNames, TextureNames;
    assert StmtTokens(s) + post == [Name(s.typeName), SPACE] + ([Name(s.x)] + ([SEMICOLON] + post));
    SkipWord(s.typeName, [Name(s.x)] + ([SEMICOLON] + post));
    SkipMark(Name(s.x), [SEMICOLON] + post, "}");
    SkipMark(SEMICOLON, post, "}");
  }

  lemma SkipDeclare(sh: Shader, data: Analysis, s: Stmt, post: seq<Token>)
    requires s.Declare? && ProperStmt(sh, data, s)
    ensures SkipTo(StmtTokens(s) + post, "}") == SkipTo(post, "}")
  {
    hide SkipTo, Tokens, UniformNames, TextureNames, ProperExpr, Spaced;
    var Declare(t, x, e) := s;
    var value := Spaced("=") + (Tokens(e) + ([SEMICOLON] + post));
    DeclareTokens(s, post);
    SkipWord(t, [Name(x)] + value);
    SkipMark(Name(x), value, "}");
    SkipEquals(sh, data, "=", e, post);
  }

  lemma DeclareTokens(s: Stmt, post: seq<Token>)
    requires s.Declare?
    ensures StmtTokens(s) + post
         == [Name(s.typeName), SPACE] + ([Name(s.x)] + (Spaced("=") + (Tokens(s.value) + ([SEMICOLON] + post))))
  {
    hide Tokens, Spaced;
    var value := Spaced("=") + (Tokens(s.value) + [SEMICOLON]);
    ValueMore("=", s.value, post);
    assert [Name(s.typeName), SPACE, Name(s.x)] + value + post
        == [Name(s.typeName), SPACE] + ([Name(s.x)] + (value + post));
  }

  lemma ValueMore(op: string, e: Expr, post: seq<Token>)
    ensures Spaced(op) + (Tokens(e) + [SEMICOLON]) + post == Spaced(op) + (Tokens(e) + ([SEMICOLON] + post))
  {
    hide Tokens, Spaced;
    assert Tokens(e) + [SEMICOLON] + post == Tokens(e) + ([SEMICOLON] + post);
  }

  lemma SkipAssign(sh: Shader, data: Analysis, s: Stmt, post: seq<Token>)
    requires s.Assign? && ProperStmt(sh, data, s)
    ensures SkipTo(StmtTokens(s) + post, "}") == SkipTo(post, "}")
  {
    hide SkipTo, Tokens, UniformNames, TextureNames, ProperExpr, FieldTokens, Spaced;
    var Assign(x, fields, op, e) := s;
    var value := Spaced(op) + (Tokens(e) + ([SEMICOLON] + post));
    ValueMore(op, e, post);
    AssignMore(Name(x), FieldTokens(fields), Spaced(op) + (Tokens(e) + [SEMICOLON]), post);
    SkipMark(Name(x), FieldTokens(fields) + value, "}");
    SkipFields(sh, fields, value);
    SkipEquals(sh, data, op, e, post);
  }

  lemma AssignMore(x: Token, fields: seq<Token>, value: seq<Token>, post: seq<Token>)
    ensures [x] + (fields + value) + post == [x] + (fields + (value + post))
  {
    Regroup([x], fields + value, post);
    Regroup(fields, value, post);
  }

  lemma {:induction false} SkipBranch(sh: Shader, data: Analysis, s: Stmt, post: seq<Token>)
    requires (s.If? || s.When? || s.While?) && ProperStmt(sh, data, s)
    ensures SkipTo(StmtTokens(s) + post, "}") == SkipTo(post, "}")
    decreases s, 0
  {
    hide SkipTo, Tokens, UniformNames, ProperExpr, BodyTokens;
    var a := if s.While? then s.body else s.thn;
    var other := if s.If? then ElseTokens(s.els, post) else post;
    var block := [BEGIN] + (BodyTokens(a) + ([END] + other));
    var test := TestTokens(s.cond, block);
    BranchTokens(s, post, a, other);
    SkipWord(if s.While? then "while" else "if", test);
    SkipCondition(sh, data, s.cond, block);
    SkipBody(sh, data, a, other);
    SkipBlock(BodyTokens(a), other, "}");
    if s.If? {
      SkipElse(sh, data, s.els, post);
    }
  }

  lemma {:induction false} SkipElse(sh: Shader, data: Analysis, b: seq<Stmt>, post: seq<Token>)
    requires ProperBody(sh, data, b)
    ensures SkipTo(ElseTokens(b, post), "}") == SkipTo(post, "}")
    decreases b, 1
  {
    hide SkipTo, BodyTokens;
    var last := [BEGIN] + (BodyTokens(b) + ([END] + post));
    SkipMark(SPACE, [Name("else"), SPACE] + last, "}");
    SkipWord("else", last);
    SkipBody(sh, data, b, post);
    SkipBlock(BodyTokens(b), post, "}");
  }

  lemma {:induction false} SkipBody(sh: Shader, data: Analysis, ss: seq<Stmt>, post: seq<Token>)
    requires ProperBody(sh, data, ss)
    ensures SkipTo(BodyTokens(ss) + ([END] + post), "}") == post
    decreases ss, 0
  {
    hide SkipTo, ProperStmt, StmtTokens;
    if ss == [] {
      assert BodyTokens(ss) + ([END] + post) == [END] + post;
      SkipClose(END, post);
    } else {
      var more := BodyTokens(ss[1..]) + ([END] + post);
      assert BodyTokens(ss) + ([END] + post) == StmtTokens(ss[0]) + more;
      SkipStmt(sh, data, ss[0], more);
      SkipBody(sh, data, ss[1..], post);
    }
  }
}
