/** What is written for calls whose last operand begins with a parenthesis: `mad`, `sincos`, and the coordinates of a
    texture. `mul` is in `GlslOperands`. */
module GlslTails {
  import opened ShaderTokens
  import opened GlslWriter
  import opened GlslPieces
  import opened GlslExactness

  /** The tail is written behind the call, and the call's own parenthesis behind the tail. */
  lemma TailWritten(env: Env, st: State, tail: seq<Piece>, k: seq<Token>, end: string)
    requires ProperList(env, tail, end != ",") && Stop(end)
    ensures Loop(env, st, SrcList(tail, [CLOSE] + k), end)
         == Overrun(env, Text(ImageList(env, tail, st)) + [CLOSE], LeftList(env, tail, st), k, end)
  {
    LoopOver(env, st, tail, [CLOSE] + k, end);
    OwnParenthesis(env, LeftList(env, tail, st), Text(ImageList(env, tail, st)), k, end);
    hide Loop, Text, ImageList, SrcList, LeftList, Overrun;
  }

  /** A call that leaves its tail unread. */
  lemma CallAndTail(env: Env, st: State, ts: seq<Token>, call: Chunk, tail: seq<Piece>, k: seq<Token>, end: string)
    requires ProperList(env, tail, end != ",") && Stop(end)
    requires ts != [] && ts[0].Name? && TypeName(ts[0].text) == "" && ts[0].text != end
    requires WriteIntrinsic(env, st, ts) == Written(call) && call.rest == SrcList(tail, [CLOSE] + k)
    ensures Loop(env, st, ts, end)
         == Overrun(env, call.text + (Text(ImageList(env, tail, call.state)) + [CLOSE]),
                    LeftList(env, tail, call.state), k, end)
  {
    hide *;
    Rewritten(env, st, ts);
    LoopStep(env, st, ts, end);
    TailWritten(env, call.state, tail, k, end);
    OverrunBehind(env, call.text, Text(ImageList(env, tail, call.state)) + [CLOSE], LeftList(env, tail, call.state), k,
                  end);
  }

  /** Where the cursor gets to between three operands, if the last one begins with a parenthesis. */
  lemma ThreeCursors(env: Env, p: Piece, c: seq<Piece>, tail: seq<Piece>, k: seq<Token>)
    requires (p.Mad? || p.Sincos?) && p.c == [Group(OPEN, c)] + tail && MiddleOperand(env, p.b)
    requires Blanks(p.gap) && Blanks(p.gapB) && Blanks(p.gapC)
    ensures var cs := [OPEN] + SrcList(c, [CLOSE] + SrcList(tail, [CLOSE] + k));
      var second := [COMMA] + (p.gapC + cs);
      var bs := SrcList(p.b, second);
      var first := [COMMA] + (p.gapB + bs);
      && Src(p, k) != [] && Src(p, k)[0] == Name(if p.Mad? then "mad" else "sincos")
      && Next(Src(p, k)) == [OPEN] + SrcList(p.a, first) && Is(Next(Src(p, k)), "(")
      && Next(first) == bs && bs != [] && Next(second) == cs
  {
    var rest := SrcList(tail, [CLOSE] + k);
    var cs := [OPEN] + SrcList(c, [CLOSE] + rest);
    var bs := SrcList(p.b, [COMMA] + (p.gapC + cs));
    assert p.c[1..] == tail;
    assert SrcList(p.c, [CLOSE] + k) == Src(Group(OPEN, c), rest) == cs;
    Starts(env, p.b, false, [COMMA] + (p.gapC + cs));
    NextOverGap(Src(p, k)[0], p.gap, [OPEN] + SrcList(p.a, [COMMA] + (p.gapB + bs)));
    NextOverGap(COMMA, p.gapB, bs);
    NextOverGap(COMMA, p.gapC, cs);
    hide SrcList, ProperList, Next, Blanks, StartsBlank, MiddleOperand;
  }

  /** The operands of `mad` and `sincos` up to the tail. */
  ghost predicate TailOperands(env: Env, p: Piece, c: seq<Piece>, tail: seq<Piece>, end: string) {
    && (p.Mad? || p.Sincos?) && p.c == [Group(OPEN, c)] + tail
    && Blanks(p.gap) && Blanks(p.gapB) && Blanks(p.gapC)
    && ProperList(env, p.a, false) && MiddleOperand(env, p.b) && ProperList(env, c, true)
    && Stop(end) && ProperList(env, tail, end != ",")
  }

  // ---------------------------------------------------------------------------------------------------------
  // `mad`

  /** The pieces of `mad(a, b, (c) tail)` as it is written: the tail behind the sum instead of inside it. */
  function EscapedMad(a: seq<Piece>, b: seq<Piece>, c: seq<Piece>, tail: seq<Piece>): seq<Piece> {
    [Group(OPEN, [Group(OPEN, a)] + STAR + [Group(OPEN, b)] + CROSS + [Group(OPEN, [Group(OPEN, c)])] + tail)]
  }

  lemma MadTailEscapes(env: Env, st: State, p: Piece, c: seq<Piece>, tail: seq<Piece>, k: seq<Token>, end: string)
    requires p.Mad? && TailOperands(env, p, c, tail, end)
    ensures var s1 := LeftList(env, p.a, st);
      var s2 := LeftList(env, p.b, s1);
      var s3 := LeftList(env, c, s2);
      var text := Text(EscapedMad(ImageList(env, p.a, st), ImageList(env, p.b, s1), ImageList(env, c, s2),
                                  ImageList(env, tail, s3)));
      text != [] && Loop(env, st, Src(p, k), end) == Overrun(env, text, LeftList(env, tail, s3), k, end)
  {
    var s1 := LeftList(env, p.a, st);
    var s2 := LeftList(env, p.b, s1);
    var s3 := LeftList(env, c, s2);
    var a, b, ci, t := ImageList(env, p.a, st), ImageList(env, p.b, s1), ImageList(env, c, s2), ImageList(env, tail,
         s3);
    var inside := [CLOSE] + SrcList(tail, [CLOSE] + k);
    var second := [COMMA] + (p.gapC + ([OPEN] + SrcList(c, inside)));
    var first := [COMMA] + (p.gapB + SrcList(p.b, second));
    assert Tail(inside) == SrcList(tail, [CLOSE] + k);
    assert EndsAt(first, ",") && EndsAt(second, ",") && EndsAt(inside, ")") && TypeName("mad") == "";
    assert ProperList(env, p.b, false) && ProperList(env, tail, end != ",") && "mad" != end;
    ThreeCursors(env, p, c, tail, k);
    hide *;
    Dispatch(env, st, Src(p, k));
    FirstOperand(env, st, OPEN, p.a, first, ",");
    LaterOperand(env, s1, p.b, second, ",");
    FirstOperand(env, s2, OPEN, c, inside, ")");
    MadSteps(env, st, Src(p, k), Chunk([OPEN] + Text(a), s1, first), Chunk(Text(b), s2, second),
             Chunk([OPEN] + Text(ci), s3, inside));
    CallAndTail(env, st, Src(p, k), WriteMad(env, st, Src(p, k)).chunk, tail, k, end);
    ImageListIsPlain(env, p.a, false, st);
    ImageListIsPlain(env, p.b, false, s1);
    ImageListIsPlain(env, c, true, s2);
    ImageListIsPlain(env, tail, end != ",", s3);
    EscapedMadText(a, b, ci, t);
  }

  lemma EscapedMadText(a: seq<Piece>, b: seq<Piece>, c: seq<Piece>, tail: seq<Piece>)
    requires Plain(a) && Plain(b) && Plain(c) && Plain(tail)
    ensures Text(EscapedMad(a, b, c, tail))
         == [OPEN] + ([OPEN] + Text(a)) + TIMES + Text(b) + PLUS + ([OPEN] + Text(c)) + [CLOSE, CLOSE]
            + (Text(tail) + [CLOSE])
  {
    var q := [Group(OPEN, a)] + STAR + [Group(OPEN, b)];
    var r := q + CROSS + [Group(OPEN, [Group(OPEN, c)])];
    assert EscapedMad(a, b, c, tail) == [Group(OPEN, r + tail)];
    assert Closing(OPEN) == CLOSE;
    hide *;
    SumFrontText(a, b, c);
    TextAppend(r, tail);
    GroupText(OPEN, r + tail);
    EscapedSumTokens(Text(a), Text(b), Text(c), Text(tail));
  }

  lemma SumFrontText(a: seq<Piece>, b: seq<Piece>, c: seq<Piece>)
    requires Plain(a) && Plain(b) && Plain(c)
    ensures var r := [Group(OPEN, a)] + STAR + [Group(OPEN, b)] + CROSS + [Group(OPEN, [Group(OPEN, c)])];
      && Plain(r)
      && Text(r) == ([OPEN] + Text(a) + [CLOSE]) + [SPACE, Other("*"), SPACE] + ([OPEN] + Text(b) + [CLOSE])
                    + [SPACE, Other("+"), SPACE] + ([OPEN] + ([OPEN] + Text(c) + [CLOSE]) + [CLOSE])
  {
    ConstantText();
    assert Closing(OPEN) == CLOSE;
    hide *;
    GroupText(OPEN, a);
    GroupText(OPEN, c);
    TextAppend([Group(OPEN, a)], STAR);
    Bracketed([Group(OPEN, a)] + STAR, b);
    TextAppend([Group(OPEN, a)] + STAR + [Group(OPEN, b)], CROSS);
    Bracketed([Group(OPEN, a)] + STAR + [Group(OPEN, b)] + CROSS, [Group(OPEN, c)]);
  }

  lemma EscapedSumTokens(a: seq<Token>, b: seq<Token>, c: seq<Token>, tail: seq<Token>)
    ensures [OPEN] + (([OPEN] + a + [CLOSE]) + [SPACE, Other("*"), SPACE] + ([OPEN] + b + [CLOSE])
                      + [SPACE, Other("+"), SPACE] + ([OPEN] + ([OPEN] + c + [CLOSE]) + [CLOSE]) + tail) + [CLOSE]
         == [OPEN] + ([OPEN] + a) + TIMES + b + PLUS + ([OPEN] + c) + [CLOSE, CLOSE] + (tail + [CLOSE])
  {
    assert [CLOSE] + [SPACE, Other("*"), SPACE] + [OPEN] == TIMES;
    assert [CLOSE] + [SPACE, Other("+"), SPACE] + [OPEN] == PLUS;
    assert [CLOSE] + [CLOSE] == [CLOSE, CLOSE];
    SumTokens(a, b, c, tail, [SPACE, Other("*"), SPACE], [SPACE, Other("+"), SPACE]);
  }

  lemma SumTokens(a: seq<Token>, b: seq<Token>, c: seq<Token>, tail: seq<Token>, star: seq<Token>, cross: seq<Token>)
    ensures [OPEN] + (([OPEN] + a + [CLOSE]) + star + ([OPEN] + b + [CLOSE])
                      + cross + ([OPEN] + ([OPEN] + c + [CLOSE]) + [CLOSE]) + tail) + [CLOSE]
         == [OPEN] + ([OPEN] + a) + ([CLOSE] + star + [OPEN]) + b + ([CLOSE] + cross + [OPEN]) + ([OPEN] + c)
            + ([CLOSE] + [CLOSE]) + (tail + [CLOSE])
  {
  }

  // ---------------------------------------------------------------------------------------------------------
  // `sincos`

  /** The last of the three statements: the cosine is assigned inside the parenthesis of the target, and what followed
      that parenthesis follows the cosine. */
  function EscapedCosine(v: Token, c: seq<Piece>, tail: seq<Piece>): seq<Piece> {
    [Group(OPEN, c + Leaves(ASSIGN + [Name("cos")]) + [Group(OPEN, [Leaf(v)])] + tail)]
  }

  /** The first two. */
  function SineOnly(v: Token, a: seq<Piece>, b: seq<Piece>): seq<Piece> {
    Leaves(Declares(v)) + [Group(OPEN, a)] + Leaves([SEMICOLON, SPACE])
    + b + Leaves(ASSIGN + [Name("sin")]) + [Group(OPEN, [Leaf(v)])] + Leaves([SEMICOLON, SPACE])
  }

  lemma SincosTailEscapes(env: Env, st: State, p: Piece, c: seq<Piece>, tail: seq<Piece>, k: seq<Token>, end: string)
    requires p.Sincos? && TailOperands(env, p, c, tail, end)
    ensures var v := SincosName(st.sincos);
      var s0 := st.(sincos := st.sincos + 1);
      var s1 := LeftList(env, p.a, s0);
      var s2 := LeftList(env, p.b, s1);
      var s3 := LeftList(env, c, s2);
      var text := Text(SineOnly(v, ImageList(env, p.a, s0), ImageList(env, p.b, s1))
                       + EscapedCosine(v, ImageList(env, c, s2), ImageList(env, tail, s3)));
      text != [] && Loop(env, st, Src(p, k), end) == Overrun(env, text, LeftList(env, tail, s3), k, end)
  {
    var v := SincosName(st.sincos);
    var s0 := st.(sincos := st.sincos + 1);
    var s1 := LeftList(env, p.a, s0);
    var s2 := LeftList(env, p.b, s1);
    var s3 := LeftList(env, c, s2);
    var a, b, ci, t := ImageList(env, p.a, s0), ImageList(env, p.b, s1), ImageList(env, c, s2), ImageList(env, tail,
         s3);
    var inside := [CLOSE] + SrcList(tail, [CLOSE] + k);
    var second := [COMMA] + (p.gapC + ([OPEN] + SrcList(c, inside)));
    var first := [COMMA] + (p.gapB + SrcList(p.b, second));
    assert Tail(inside) == SrcList(tail, [CLOSE] + k);
    assert EndsAt(first, ",") && EndsAt(second, ",") && EndsAt(inside, ")") && TypeName("sincos") == "";
    assert ProperList(env, p.b, false) && ProperList(env, tail, end != ",") && "sincos" != end;
    ThreeCursors(env, p, c, tail, k);
    hide *;
    Dispatch(env, st, Src(p, k));
    FirstOperand(env, s0, OPEN, p.a, first, ",");
    LaterOperand(env, s1, p.b, second, ",");
    FirstOperand(env, s2, OPEN, c, inside, ")");
    SincosSteps(env, st, Src(p, k), Chunk([OPEN] + Text(a), s1, first), Chunk(Text(b), s2, second),
                Chunk([OPEN] + Text(ci), s3, inside));
    CallAndTail(env, st, Src(p, k), WriteSincos(env, st, Src(p, k)).chunk, tail, k, end);
    ImageListIsPlain(env, p.a, false, s0);
    ImageListIsPlain(env, p.b, false, s1);
    ImageListIsPlain(env, c, true, s2);
    ImageListIsPlain(env, tail, end != ",", s3);
    EscapedSincosText(v, a, b, ci, t);
  }

  lemma EscapedSincosText(v: Token, a: seq<Piece>, b: seq<Piece>, c: seq<Piece>, tail: seq<Piece>)
    requires v.Name? && Plain(a) && Plain(b) && Plain(c) && Plain(tail)
    ensures Text(SineOnly(v, a, b) + EscapedCosine(v, c, tail))
         == Declares(v) + ([OPEN] + Text(a)) + NEXT + Text(b) + SineOf(v) + ([OPEN] + Text(c)) + CosineOf(v)
            + (Text(tail) + [CLOSE])
  {
    var q1 := Leaves(Declares(v)) + [Group(OPEN, a)] + Leaves([SEMICOLON, SPACE]);
    var f := ASSIGN + [Name("cos")];
    var r := c + Leaves(f) + [Group(OPEN, [Leaf(v)])];
    assert SineOnly(v, a, b) == q1 + b + Leaves(ASSIGN + [Name("sin")]) + [Group(OPEN, [Leaf(v)])]
                                + Leaves([SEMICOLON, SPACE]);
    assert EscapedCosine(v, c, tail) == [Group(OPEN, r + tail)];
    assert f + [OPEN, v, CLOSE] == CosineOf(v);
    assert forall t :: t in f ==> !IsBracket(t);
    hide *;
    DeclarationText(v, a);
    TextAppend(q1, b);
    SineText(q1 + b, v);
    AssignmentText(c, f, v);
    TextAppend(r, tail);
    GroupText(OPEN, r + tail);
    TextAppend(SineOnly(v, a, b), EscapedCosine(v, c, tail));
    CosineTokens(Text(SineOnly(v, a, b)), Text(c), f, [OPEN, v, CLOSE], Text(tail));
  }

  lemma CosineTokens(q: seq<Token>, c: seq<Token>, f: seq<Token>, v: seq<Token>, tail: seq<Token>)
    ensures q + ([OPEN] + (c + f + v + tail) + [CLOSE]) == q + ([OPEN] + c) + (f + v) + (tail + [CLOSE])
  {
  }

  // ---------------------------------------------------------------------------------------------------------
  // Texture coordinates

  /** Coordinates that begin with a parenthesis: what is written is the call it should be, whatever the tail. */
  lemma CoordinatesAreRight(env: Env, st: State, p: Piece, c: seq<Piece>, tail: seq<Piece>, k: seq<Token>, end: string)
    requires p.Texture? && p.coords == [Group(OPEN, c)] + tail
    requires !Bracket(Name(p.name)) && p.name != "," && TypeName(p.name) == "" && Renamed(p.name) == ""
    requires !TakenApart(p.name) && IsTexture(env, p.name) && ProperLead(env, p.name, p.lead)
    requires ProperList(env, c, true) && ProperList(env, tail, end != ",") && Stop(end)
    ensures Text(Image(env, p, st)) != []
    ensures Loop(env, st, Src(p, k), end) == Overrun(env, Text(Image(env, p, st)), Left(env, p, st), k, end)
  {
    var call := CallOf(env, p.name, p.lead);
    var head := [Name(call), OPEN, Name(p.name), COMMA, SPACE];
    var s := st.(bound := BoundBy(env, p.name, p.lead, st.bound));
    var s1 := LeftList(env, c, s);
    var ci, t := ImageList(env, c, s), ImageList(env, tail, s1);
    var inside := [CLOSE] + SrcList(tail, [CLOSE] + k);
    var cs := [OPEN] + SrcList(c, inside);
    assert Tail(inside) == SrcList(tail, [CLOSE] + k) && EndsAt(inside, ")");
    TextureCursor(env, st, p, c, tail, k);
    CoordinatesImage(env, st, p, c, tail);
    var w := WriteTextureCall(env, st, p.name, Next(Next(Src(p, k)))).chunk;
    hide *;
    Dispatch(env, st, Src(p, k));
    FirstOperand(env, s, OPEN, c, inside, ")");
    TextureSteps(env, st, Src(p, k), w, Chunk([OPEN] + Text(ci), s1, inside));
    CallAndTail(env, st, Src(p, k), WriteTexture(env, st, Src(p, k)).chunk, tail, k, end);
    ImageListIsPlain(env, c, true, s);
    ImageListIsPlain(env, tail, end != ",", s1);
    GroupText(OPEN, ci);
    TextAppend([Group(OPEN, ci)], t);
    SamplingText(call, p.name, [Group(OPEN, ci)] + t);
    CoordinateTokens(head, Text(ci), Text(t));
  }

  lemma CoordinateTokens(head: seq<Token>, c: seq<Token>, tail: seq<Token>)
    ensures head + (([OPEN] + c + [CLOSE]) + tail) + [CLOSE] == head + ([OPEN] + c) + [CLOSE] + (tail + [CLOSE])
  {
  }

  lemma CoordinatesImage(env: Env, st: State, p: Piece, c: seq<Piece>, tail: seq<Piece>)
    requires p.Texture? && p.coords == [Group(OPEN, c)] + tail
    ensures var s := st.(bound := BoundBy(env, p.name, p.lead, st.bound));
      var s1 := LeftList(env, c, s);
      && Image(env, p, st) == Sampling(CallOf(env, p.name, p.lead), p.name,
                                       [Group(OPEN, ImageList(env, c, s))] + ImageList(env, tail, s1))
      && Left(env, p, st) == LeftList(env, tail, s1)
  {
    var s := st.(bound := BoundBy(env, p.name, p.lead, st.bound));
    assert p.coords[1..] == tail;
    assert Image(env, Group(OPEN, c), s) == [Group(OPEN, ImageList(env, c, s))];
    hide BoundBy, CallOf, Sampling;
  }

  lemma TextureCursor(env: Env, st: State, p: Piece, c: seq<Piece>, tail: seq<Piece>, k: seq<Token>)
    requires p.Texture? && p.coords == [Group(OPEN, c)] + tail && ProperLead(env, p.name, p.lead)
    ensures var ts := Src(p, k);
      && ts != [] && ts[0] == Name(p.name) && Is(Next(ts), ".") && Next(Next(ts)) != []
      && var w := WriteTextureCall(env, st, p.name, Next(Next(ts)));
      && w.Written? && w.chunk.text == [Name(CallOf(env, p.name, p.lead)), OPEN, Name(p.name), COMMA, SPACE]
      && w.chunk.state == st.(bound := BoundBy(env, p.name, p.lead, st.bound))
      && Next(w.chunk.rest) == [OPEN] + SrcList(c, [CLOSE] + SrcList(tail, [CLOSE] + k))
  {
    var cs := [OPEN] + SrcList(c, [CLOSE] + SrcList(tail, [CLOSE] + k));
    assert p.coords[1..] == tail;
    assert SrcList(p.coords, [CLOSE] + k) == Src(Group(OPEN, c), SrcList(tail, [CLOSE] + k)) == cs;
    LeadOver(env, st, p.name, p.lead, cs);
    assert Src(p, k) == [Name(p.name)] + (p.lead + cs);
    hide Next, SrcList, WriteTextureCall, CallOf, BoundBy, ProperLead;
  }
}
