/** An `int3` with one argument: its translation has the argument in brackets and quotation marks, which Metal cannot
    read, on its own or in a `Load`. */
module MetalLoneInteger {
  import opened ShaderTokens
  import opened MetalTranspiler
  import opened MetalSyntax
  import opened MetalRendering
  import opened MetalLexemes
  import M = MetalText

  const INT3 := Name("int3")

  /** Nothing of the shader's is called `int3`. */
  ghost predicate IntegersAreFree(sh: Shader, data: Analysis) {
    PlainName(sh, "int3") && "int3" !in UniformNames(sh) && DataOf(data, "int3") == NO_NEEDS
  }

  function Quoted(part: seq<Piece>): seq<Piece> {
    [Text("[\"")] + part + [Text("\"]")]
  }

  function Lone(part: seq<Piece>): seq<Piece> {
    [Copied("int3")] + ([Text("(")] + Quoted(part) + [Text(")")])
  }

  function LoneRead(part: seq<Piece>): seq<Piece> {
    [Text("read(uint2(")] + Quoted(part) + [Text(".xy)")] + SEPARATOR + [Text("0)")]
  }

  lemma QuotedIs(data: Analysis, part: seq<Piece>)
    requires NoCommas(part) && DataOf(data, "int3") == NO_NEEDS
    ensures CallArguments(data, "int3", part) == Ok(Quoted(part))
    ensures ReadCall(Lone(part)) == Ok(LoneRead(part))
  {
    SplitLast(part, 3);
    assert NoCommas(Quoted(part));
    SplitLast(Quoted(part), 3);
    LoneInside(part);
    hide Split;
  }

  lemma LoneInside(part: seq<Piece>)
    ensures |Lone(part)| >= 3 && Lone(part)[0] == Copied("int3") && Lone(part)[1] == Text("(")
    ensures Lone(part)[2..|Lone(part)| - 1] == Quoted(part)
  {
    var inner := Quoted(part);
    hide Quoted;
    assert Lone(part) == [Copied("int3"), Text("(")] + inner + [Text(")")];
  }

  /** What is emitted for it, wherever it stands. */
  lemma LoneIsQuoted(sh: Shader, data: Analysis, e: Expr, prev: Token, post: seq<Token>, end: string)
    requires ProperExpr(sh, data, e) && Commaless(data, e) && IntegersAreFree(sh, data) && SafeDelimiters(data)
    requires SafeAfter(post) && Stop(end)
    ensures Transpile(sh, data, prev, [INT3] + ([OPEN] + (Tokens(e) + ([CLOSE] + post))), end)
         == Prefixed(Lone(Emit(data, e)), Transpile(sh, data, SPACE, post, end))
  {
    hide *;
    var part, ts := Emit(data, e), [OPEN] + (Tokens(e) + ([CLOSE] + post));
    Free(sh, data, post, ts);
    LoneParts(part);
    EmitsNoComma(sh, data, e);
    QuotedIs(data, part);
    PlainStep(sh, data, prev, "int3", ts, end);
    LastPart(sh, data, e, OPEN, post);
    ParenStep(sh, data, INT3, Tokens(e), post, end, part, Quoted(part));
    PrevIrrelevant(sh, data, CLOSE, SPACE, post, end);
    PrefixedTwice([Copied("int3")], [Text("(")] + Quoted(part) + [Text(")")], Transpile(sh, data, SPACE, post, end));
  }

  lemma Free(sh: Shader, data: Analysis, post: seq<Token>, ts: seq<Token>)
    requires IntegersAreFree(sh, data) && SafeDelimiters(data) && ts != [] && ts[0] == OPEN && SafeAfter(post)
    ensures PlainName(sh, "int3") && "int3" !in UniformNames(sh) && DataOf(data, "int3") == NO_NEEDS
    ensures INT3 == Name("int3") && INT3.text == "int3" && CLOSE.text == ")" && !INT3.Blank? && OPEN.text == "("
    ensures NoComparison(ts) && SafeBefore(data, OPEN) && post != [] && !post[0].Name? && post[0] != OPEN
  {
    hide PlainName, UniformNames;
  }

  /** What is emitted for a texel that is loaded from there. */
  lemma LoadIsQuoted(sh: Shader, data: Analysis, t: string, e: Expr, prev: Token, post: seq<Token>, end: string)
    requires ProperExpr(sh, data, e) && Commaless(data, e) && IntegersAreFree(sh, data) && SafeDelimiters(data)
    requires TextureName(sh, t) && SafeAfter(post) && Stop(end) && t != end
    ensures var arg := [INT3] + ([OPEN] + (Tokens(e) + ([CLOSE] + ([CLOSE] + post))));
      Transpile(sh, data, prev, [Name(t)] + ([DOT, Name("Load")] + ([OPEN] + arg)), end)
      == Prefixed([TextureRef(t), Text(".")] + LoneRead(Emit(data, e)), Transpile(sh, data, SPACE, post, end))
  {
    hide *;
    var part, arg := Emit(data, e), [INT3] + ([OPEN] + (Tokens(e) + ([CLOSE] + ([CLOSE] + post))));
    Free(sh, data, post, [OPEN] + arg);
    EmitsNoComma(sh, data, e);
    LoneIsQuoted(sh, data, e, OPEN, [CLOSE] + post, ")") by { ClosesSafely(post); }
    StopStep(sh, data, SPACE, CLOSE, post);
    PrefixedOk(Lone(part), post);
    Loaded(sh, data, part, arg, post);
    AccessStep(sh, data, prev, t, "Load", [OPEN] + arg, LoneRead(part), post);
    CallStep(sh, data, prev, Name(t), [DOT, Name("Load")] + ([OPEN] + arg), end,
             [TextureRef(t), Text(".")] + LoneRead(part), post);
  }

  lemma LoneParts(part: seq<Piece>)
    ensures Lone(part) == [Copied("int3")] + ([Text("(")] + Quoted(part) + [Text(")")])
  {
  }

  lemma PrefixedOk(out: seq<Piece>, post: seq<Token>)
    ensures Prefixed(out, Ok(Chunk([], CLOSE, post))) == Ok(Chunk(out, CLOSE, post))
  {
    assert out + [] == out;
  }

  lemma ClosesSafely(post: seq<Token>)
    ensures SafeAfter([CLOSE] + post) && Stop(")") && CLOSE.text == ")"
  {
  }

  lemma Loaded(sh: Shader, data: Analysis, part: seq<Piece>, arg: seq<Token>, post: seq<Token>)
    requires Transpile(sh, data, OPEN, arg, ")") == Ok(Chunk(Lone(part), CLOSE, post))
    requires NoCommas(part) && DataOf(data, "int3") == NO_NEEDS
    ensures TextureCall(sh, data, "Load", [OPEN] + arg) == Ok(Chunk(LoneRead(part), CLOSE, post))
  {
    QuotedIs(data, part);
    assert ([OPEN] + arg)[1..] == arg;
    hide Transpile, ReadCall, Lone, LoneRead;
  }

  // ---------------------------------------------------------------------------------------------------------
  // It is not read

  lemma {:induction false} NothingRead(t: M.Text, k: nat)
    requires t != [] && t[0] != "-" && M.ParsePostfix(t).None?
    ensures M.ParseInfix(t, k).None?
    decreases M.PREFIX - k
  {
    if k < M.PREFIX {
      NothingRead(t, k + 1);
    }
  }

  lemma NoArguments(f: string, t: M.Text)
    requires t != [] && t[0] != "-" && t[0] != ")" && M.ParsePostfix(t).None?
    ensures M.ParseArgs(t).None?
    ensures M.Word(f) ==> M.ParsePostfix([f, "("] + t).None?
  {
    NothingRead(t, 1);
    assert ([f, "("] + t)[2..] == t;
    hide M.ParseInfix;
  }

  lemma NoMethod(b: string, f: string, t: M.Text)
    requires M.Word(b) && M.Word(f) && M.ParseArgs(t).None?
    ensures M.ParsePostfix([b, ".", f, "("] + t).None?
  {
    var call := [b, ".", f, "("] + t;
    assert call[1..][3..] == t;
    assert M.ParsePrimary(call).Some? && M.ParsePrimary(call).value == (M.Name(b), call[1..]);
    hide M.ParseArgs, M.ParsePrimary;
  }

  const QUOTE := Text("[\"")

  lemma LoneMarks()
    ensures PieceLexemes(QUOTE) == ["[", "\""] && PieceLexemes(Copied("int3")) == ["int3"]
    ensures forall t :: PieceLexemes(TextureRef(t)) == [t]
    ensures PieceLexemes(Text("read(uint2(")) == ["read", "(", "uint2", "("]
  {
  }

  lemma LoneLexemes(rest: seq<Piece>)
    ensures Lexemes([Copied("int3")] + ([Text("(")] + ([QUOTE] + rest))) == ["int3", "(", "[", "\""] + Lexemes(rest)
  {
    hide *;
    LoneMarks();
    FixedLexemes();
    LexemesFirst(Copied("int3"), [Text("(")] + ([QUOTE] + rest));
    LexemesFirst(Text("("), [QUOTE] + rest);
    LexemesFirst(QUOTE, rest);
  }

  lemma LoneReadLexemes(t: string, rest: seq<Piece>)
    ensures Lexemes([TextureRef(t)] + ([Text(".")] + ([Text("read(uint2(")] + ([QUOTE] + rest))))
         == [t, ".", "read", "(", "uint2", "(", "[", "\""] + Lexemes(rest)
  {
    hide *;
    LoneMarks();
    FixedLexemes();
    LexemesFirst(TextureRef(t), [Text(".")] + ([Text("read(uint2(")] + ([QUOTE] + rest)));
    LexemesFirst(Text("."), [Text("read(uint2(")] + ([QUOTE] + rest));
    LexemesFirst(Text("read(uint2("), [QUOTE] + rest);
    LexemesFirst(QUOTE, rest);
  }

  lemma LexemesBegin(t: string, part: seq<Piece>)
    ensures ["int3", "(", "[", "\""] <= Lexemes(Lone(part))
    ensures [t, ".", "read", "(", "uint2", "(", "[", "\""] <= Lexemes([TextureRef(t), Text(".")] + LoneRead(part))
  {
    hide Lexemes;
    var rest := part + [Text("\"]")];
    var more := rest + [Text(".xy)")] + SEPARATOR + [Text("0)")];
    assert Lone(part) == [Copied("int3")] + ([Text("(")] + ([QUOTE] + (rest + [Text(")")])));
    assert [TextureRef(t), Text(".")] + LoneRead(part)
        == [TextureRef(t)] + ([Text(".")] + ([Text("read(uint2(")] + ([QUOTE] + more)));
    LoneLexemes(rest + [Text(")")]);
    LoneReadLexemes(t, more);
  }

  /** Neither one is an expression of Metal, whatever the argument and whatever stands behind. */
  lemma LoneIsUnreadable(t: string, part: seq<Piece>, more: M.Text, k: nat)
    requires M.Word(t)
    ensures M.ParseInfix(Lexemes(Lone(part)) + more, k).None?
    ensures M.ParseInfix(Lexemes([TextureRef(t), Text(".")] + LoneRead(part)) + more, k).None?
  {
    var a, b := Lexemes(Lone(part)) + more, Lexemes([TextureRef(t), Text(".")] + LoneRead(part)) + more;
    LexemesBegin(t, part);
    hide Lexemes, Lone, LoneRead;
    Unreadable("int3", a[2..], k);
    assert a == ["int3", "("] + a[2..];
    Unreadable("uint2", b[6..], k);
    var arg := ["uint2", "("] + b[6..];
    NoArguments("read", arg);
    NoMethod(t, "read", arg);
    assert b == [t, ".", "read", "("] + arg;
    NothingRead(b, k);
  }

  lemma Unreadable(f: string, t: M.Text, k: nat)
    requires M.Word(f) && t != [] && t[0] == "["
    ensures M.ParsePostfix([f, "("] + t).None? && M.ParseInfix([f, "("] + t, k).None?
  {
    NoArguments(f, t);
    NothingRead([f, "("] + t, k);
  }
}
