/** A call that leaves part of its last operand unread, inside other parentheses. Each of these then ends one
    parenthesis too early, and what is left over is written outside of it; but the tokens that are written are those of
    a call in its place, with the rest of its operand behind it. */
module GlslParentheses {
  import opened ShaderTokens
  import opened GlslWriter
  import opened GlslPieces
  import opened GlslExactness
  import opened GlslOperands
  import opened GlslTails

  /** What stands between a pair of parentheses in front of a piece and behind it. */
  datatype Level = Level(pre: seq<Piece>, post: seq<Piece>)

  /** The piece inside these parentheses, the outermost ones first. */
  function Around(levels: seq<Level>, p: Piece): Piece {
    if levels == [] then p
    else Group(OPEN, levels[0].pre + [Around(levels[1..], p)] + levels[0].post)
  }

  /** The state in which the innermost piece is written. */
  function StateInside(env: Env, levels: seq<Level>, st: State): State {
    if levels == [] then st else StateInside(env, levels[1..], LeftList(env, levels[0].pre, st))
  }

  /** The state behind all parentheses, if the piece leaves `s`. */
  function StateBehind(env: Env, levels: seq<Level>, s: State): State {
    if levels == [] then s else LeftList(env, levels[0].post, StateBehind(env, levels[1..], s))
  }

  /** What is written for all of it, if `out` is written for the piece. */
  function ImageAround(env: Env, levels: seq<Level>, st: State, out: seq<Piece>, s: State): seq<Piece> {
    if levels == [] then out
    else
      [Group(OPEN, ImageList(env, levels[0].pre, st)
                   + ImageAround(env, levels[1..], LeftList(env, levels[0].pre, st), out, s)
                   + ImageList(env, levels[0].post, StateBehind(env, levels[1..], s)))]
  }

  /** A list in front of something that begins with the token `first`. */
  predicate Leads(env: Env, ps: seq<Piece>, first: Token) {
    ps == [] || (
      && Proper(env, ps[0])
      && (ps[0].Leaf? ==> Bare(env, ps[0].tok, SrcList(ps[1..], [first])))
      && Leads(env, ps[1..], first))
  }

  predicate ProperLevels(env: Env, levels: seq<Level>, first: Token) {
    levels == [] || (
      && Leads(env, levels[0].pre, if |levels| == 1 then first else OPEN)
      && ProperList(env, levels[0].post, true)
      && ProperLevels(env, levels[1..], first))
  }

  /** Where the loop does not stop at commas, it writes the text for the piece; its last token is a parenthesis that
      belongs to what encloses the piece. */
  ghost predicate Runs(env: Env, st: State, p: Piece, text: seq<Token>, s: State) {
    && text != [] && text[|text| - 1] == CLOSE
    && forall k, end :: end == ")" || end == "}" ==> Loop(env, st, Src(p, k), end) == Overrun(env, text, s, k, end)
  }

  ghost predicate StartsWith(p: Piece, first: Token) {
    forall k :: Src(p, k) != [] && Src(p, k)[0] == first
  }

  // ---------------------------------------------------------------------------------------------------------
  // Lists in front of such a piece

  lemma SameFirst(env: Env, ps: seq<Piece>, first: Token, k: seq<Token>, text: string)
    requires Leads(env, ps, first) && !first.Blank? && k != [] && k[0] == first
    ensures Is(SkipBlanks(SrcList(ps, [first])), text) == Is(SkipBlanks(SrcList(ps, k)), text)
  {
    if ps != [] {
      var p := ps[0];
      FirstIsSame(env, p, SrcList(ps[1..], [first]), SrcList(ps[1..], k));
      if p.Leaf? && p.tok.Blank? {
        assert SrcList(ps, [first])[1..] == SrcList(ps[1..], [first]) && SrcList(ps, k)[1..] == SrcList(ps[1..], k);
        SameFirst(env, ps[1..], first, k, text);
      }
    }
  }

  lemma FirstIsSame(env: Env, p: Piece, j: seq<Token>, k: seq<Token>)
    requires Proper(env, p)
    ensures Src(p, j) != [] && Src(p, k) != [] && Src(p, j)[0] == Src(p, k)[0]
    ensures Src(p, j)[0].Blank? <==> p.Leaf? && p.tok.Blank?
  {
    hide ProperList, SrcList;
  }

  lemma BareInFront(env: Env, t: Token, ps: seq<Piece>, first: Token, k: seq<Token>)
    requires Leads(env, ps, first) && Bare(env, t, SrcList(ps, [first])) && !first.Blank? && k != [] && k[0] == first
    ensures Bare(env, t, SrcList(ps, k))
  {
    SameFirst(env, ps, first, k, "(");
    SameFirst(env, ps, first, k, ".");
    hide IsTexture, Leads, TypeName, Renamed;
  }

  lemma {:induction false} LeadIsPlain(env: Env, ps: seq<Piece>, first: Token, st: State)
    requires Leads(env, ps, first)
    ensures Plain(ImageList(env, ps, st))
  {
    if ps != [] {
      ImageIsPlain(env, ps[0], st);
      LeadIsPlain(env, ps[1..], first, Left(env, ps[0], st));
      PlainAppend(Image(env, ps[0], st), ImageList(env, ps[1..], Left(env, ps[0], st)));
      hide Image, Proper, Bare;
    }
  }

  /** The loop writes such a list and goes on behind it. */
  lemma {:induction false} LoopInto(env: Env, st: State, ps: seq<Piece>, first: Token, k: seq<Token>, end: string)
    requires Leads(env, ps, first) && !first.Blank? && k != [] && k[0] == first && (end == ")" || end == "}")
    ensures Loop(env, st, SrcList(ps, k), end)
         == Prefixed(Text(ImageList(env, ps, st)), Loop(env, LeftList(env, ps, st), k, end))
    decreases ps
  {
    if ps == [] {
      assert Text([]) == [];
      Nothing(Loop(env, st, k, end));
    } else {
      var rest := SrcList(ps[1..], k);
      var s := Left(env, ps[0], st);
      var a, b := Text(Image(env, ps[0], st)), Text(ImageList(env, ps[1..], s));
      if ps[0].Leaf? {
        BareInFront(env, ps[0].tok, ps[1..], first, k);
      }
      ItemOver(env, st, ps[0], rest);
      FirstToken(env, ps[0], rest, end);
      LoopStep(env, st, Src(ps[0], rest), end);
      LoopInto(env, s, ps[1..], first, k, end);
      ImageIsPlain(env, ps[0], st);
      LeadIsPlain(env, ps[1..], first, s);
      hide Item, Proper, Bare, Image, Left, Src, Text, Plain, Loop;
      TextAppend(Image(env, ps[0], st), ImageList(env, ps[1..], s));
      PrefixedTwice(a, b, Loop(env, LeftList(env, ps[1..], s), k, end));
    }
  }

  // ---------------------------------------------------------------------------------------------------------
  // One pair of parentheses

  lemma GroupTokens(pre: seq<Piece>, q: Piece, post: seq<Piece>, k: seq<Token>)
    ensures Src(Group(OPEN, pre + [q] + post), k) == [OPEN] + SrcList(pre, Src(q, SrcList(post, [CLOSE] + k)))
  {
    SrcListAppend(pre + [q], post, [CLOSE] + k);
    SrcListAppend(pre, [q], SrcList(post, [CLOSE] + k));
    assert [q][1..] == [];
    assert Closing(OPEN) == CLOSE;
  }

  /** The group ends where the piece's own parenthesis stands, and the rest of it is written behind. */
  lemma GroupRuns(env: Env, st: State, pre: seq<Piece>, q: Piece, post: seq<Piece>, first: Token, text: seq<Token>,
                  s: State, k: seq<Token>, end: string)
    requires Leads(env, pre, first) && !first.Blank? && StartsWith(q, first) && ProperList(env, post, true)
    requires Runs(env, LeftList(env, pre, st), q, text, s) && (end == ")" || end == "}")
    ensures var all := [OPEN] + Text(ImageList(env, pre, st)) + text + (Text(ImageList(env, post, s)) + [CLOSE]);
      Loop(env, st, Src(Group(OPEN, pre + [q] + post), k), end) == Overrun(env, all, LeftList(env, post, s), k, end)
  {
    var behind := SrcList(post, [CLOSE] + k);
    var inside := SrcList(pre, Src(q, behind));
    var a, b := Text(ImageList(env, pre, st)), Text(ImageList(env, post, s));
    Marks();
    hide *;
    GroupTokens(pre, q, post, k);
    StartIs(q, first, behind);
    LoopInto(env, st, pre, first, Src(q, behind), ")");
    RunsHere(env, LeftList(env, pre, st), q, text, s, behind);
    RawStart(env, st, OPEN, inside, ")");
    OpenedItem(env, st, inside, a, text, s, behind);
    LoopStep(env, st, [OPEN] + inside, end);
    TailWritten(env, s, post, k, end);
    OverrunBehind(env, [OPEN] + a + text, b + [CLOSE], LeftList(env, post, s), k, end);
  }

  lemma Marks()
    ensures OPEN.text == "(" && !OPEN.Name? && !OPEN.Blank? && Stop(")") && Stop("}") && !Opens(OPEN, '{')
    ensures Opens(OPEN, '(') && forall p: seq<Token>, q: seq<Token> :: p + q != [] <==> p != [] || q != []
  {
  }

  lemma StartIs(q: Piece, first: Token, k: seq<Token>)
    requires StartsWith(q, first)
    ensures Src(q, k) != [] && Src(q, k)[0] == first
  {
    hide Src;
  }

  lemma RunsHere(env: Env, st: State, q: Piece, text: seq<Token>, s: State, k: seq<Token>)
    requires Runs(env, st, q, text, s)
    ensures text != [] && text[|text| - 1] == CLOSE
    ensures Loop(env, st, Src(q, k), ")") == Chunk(text[..|text| - 1], s, [CLOSE] + k)
  {
    hide Loop, Src;
    assert Loop(env, st, Src(q, k), ")") == Overrun(env, text, s, k, ")");
  }

  lemma OpenedItem(env: Env, st: State, inside: seq<Token>, a: seq<Token>, text: seq<Token>, s: State, k: seq<Token>)
    requires text != [] && text[|text| - 1] == CLOSE
    requires Contents(env, st, [OPEN] + inside, ")")
          == Prefixed([OPEN], Prefixed(a, Chunk(text[..|text| - 1], s, [CLOSE] + k)))
    ensures Item(env, st, [OPEN] + inside) == Chunk([OPEN] + a + text, s, k)
  {
    hide Contents, WriteName;
    var c := Contents(env, st, [OPEN] + inside, ")");
    assert c.rest == [CLOSE] + k && c.rest[1..] == k;
    assert text == text[..|text| - 1] + [CLOSE];
    assert [OPEN] + (a + text[..|text| - 1]) + [CLOSE] == [OPEN] + a + text;
  }

  // ---------------------------------------------------------------------------------------------------------
  // Any number of them

  lemma FirstOfAround(levels: seq<Level>, p: Piece, first: Token)
    requires StartsWith(p, first)
    ensures StartsWith(Around(levels, p), if levels == [] then first else OPEN)
  {
    hide SrcList;
  }

  /** A call whose own parenthesis is left over writes, inside any parentheses, what it writes by itself. */
  lemma {:induction false} RunsAround(env: Env, st: State, levels: seq<Level>, p: Piece, first: Token, out: seq<Piece>,
                                      s: State)
    requires ProperLevels(env, levels, first) && !first.Blank? && StartsWith(p, first) && Plain(out)
    requires Runs(env, StateInside(env, levels, st), p, Text(out), s)
    ensures var image := ImageAround(env, levels, st, out, s);
      Plain(image) && Runs(env, st, Around(levels, p), Text(image), StateBehind(env, levels, s))
    decreases |levels|
  {
    if levels == [] {
      return;
    }
    var pre, post := levels[0].pre, levels[0].post;
    var inner, before := levels[1..], LeftList(env, pre, st);
    var q, image, t := Around(inner, p), ImageAround(env, inner, before, out, s), StateBehind(env, inner, s);
    var head := if inner == [] then first else OPEN;
    assert !head.Blank?;
    FirstOfAround(inner, p, first);
    RunsAround(env, before, inner, p, first, out, s);
    assert ImageAround(env, levels, st, out, s)
        == [Group(OPEN, ImageList(env, pre, st) + image + ImageList(env, post, t))];
    AroundText(env, st, pre, image, post, head, t);
    var text := [OPEN] + Text(ImageList(env, pre, st)) + Text(image) + (Text(ImageList(env, post, t)) + [CLOSE]);
    hide Loop, Src, Text, Plain, ImageList, Overrun, Leads, ProperList;
    forall k, end | end == ")" || end == "}"
      ensures Loop(env, st, Src(Around(levels, p), k), end) == Overrun(env, text, LeftList(env, post, t), k, end)
    {
      GroupRuns(env, st, pre, q, post, head, Text(image), t, k, end);
    }
  }

  lemma AroundText(env: Env, st: State, pre: seq<Piece>, image: seq<Piece>, post: seq<Piece>, first: Token, s: State)
    requires Leads(env, pre, first) && Plain(image) && ProperList(env, post, true)
    ensures var all := [Group(OPEN, ImageList(env, pre, st) + image + ImageList(env, post, s))];
      Plain(all) && Text(all) == [OPEN] + Text(ImageList(env, pre, st)) + Text(image)
                                 + (Text(ImageList(env, post, s)) + [CLOSE])
  {
    hide *;
    var a, b := ImageList(env, pre, st), ImageList(env, post, s);
    LeadIsPlain(env, pre, first, st);
    ImageListIsPlain(env, post, true, s);
    TextAppend(a, image);
    TextAppend(a + image, b);
    GroupText(OPEN, a + image + b);
    assert Closing(OPEN) == CLOSE by { CloseOf(); }
    Regrouped3([OPEN], Text(a), Text(image), Text(b));
  }

  lemma CloseOf()
    ensures Closing(OPEN) == CLOSE && OPEN != BEGIN
  {
  }

  lemma Regrouped3(o: seq<Token>, a: seq<Token>, b: seq<Token>, c: seq<Token>)
    ensures o + (a + b + c) + [CLOSE] == o + a + b + (c + [CLOSE])
  {
  }

  // ---------------------------------------------------------------------------------------------------------
  // The calls

  /** `mul(a, (b) tail)` inside parentheses. */
  lemma MulAround(env: Env, st: State, levels: seq<Level>, p: Piece, b: seq<Piece>, tail: seq<Piece>, k: seq<Token>)
    requires p.Mul? && p.b == [Group(OPEN, b)] + tail && Blanks(p.gap) && Blanks(p.gapB)
    requires ProperList(env, p.a, false) && ProperList(env, b, true) && ProperList(env, tail, true)
    requires ProperLevels(env, levels, Name("mul"))
    ensures var s0 := StateInside(env, levels, st);
      var s1 := LeftList(env, p.a, s0);
      var s2 := LeftList(env, b, s1);
      var s3 := LeftList(env, tail, s2);
      var out := Escaped(ImageList(env, p.a, s0), ImageList(env, b, s1), ImageList(env, tail, s2));
      Loop(env, st, Src(Around(levels, p), k), "}")
      == Prefixed(Text(ImageAround(env, levels, st, out, s3)), Loop(env, StateBehind(env, levels, s3), k, "}"))
  {
    var s0 := StateInside(env, levels, st);
    var s1 := LeftList(env, p.a, s0);
    var s2 := LeftList(env, b, s1);
    var s3 := LeftList(env, tail, s2);
    var out := Escaped(ImageList(env, p.a, s0), ImageList(env, b, s1), ImageList(env, tail, s2));
    ImageListIsPlain(env, p.a, false, s0);
    ImageListIsPlain(env, b, true, s1);
    ImageListIsPlain(env, tail, true, s2);
    EscapedIsPlain(ImageList(env, p.a, s0), ImageList(env, b, s1), ImageList(env, tail, s2));
    assert StartsWith(p, Name("mul"));
    assert !Name("mul").Blank?;
    hide *;
    forall j, end | end == ")" || end == "}"
      ensures Loop(env, s0, Src(p, j), end) == Overrun(env, Text(out), s3, j, end)
    {
      OperandTailEscapes(env, s0, p, b, tail, j, end) by { Marks(); }
    }
    RunsIf(env, s0, p, Text(out), s3);
    RunsAround(env, st, levels, p, Name("mul"), out, s3);
    InBody(env, st, Around(levels, p), Text(ImageAround(env, levels, st, out, s3)), StateBehind(env, levels, s3), k);
  }

  lemma InBody(env: Env, st: State, p: Piece, text: seq<Token>, s: State, k: seq<Token>)
    requires Runs(env, st, p, text, s)
    ensures Loop(env, st, Src(p, k), "}") == Prefixed(text, Loop(env, s, k, "}"))
  {
    hide Loop, Src;
    assert Loop(env, st, Src(p, k), "}") == Overrun(env, text, s, k, "}");
  }

  lemma EscapedIsPlain(a: seq<Piece>, b: seq<Piece>, tail: seq<Piece>)
    requires Plain(a) && Plain(b) && Plain(tail)
    ensures var out := Escaped(a, b, tail);
      Plain(out) && Text(out) != [] && Text(out)[|Text(out)| - 1] == CLOSE
  {
    EscapedText(a, b, tail);
    ConstantText();
    hide Plain, Text;
    GroupText(OPEN, a);
    GroupText(OPEN, b);
    TextAppend([Group(OPEN, a)], STAR);
    Bracketed([Group(OPEN, a)] + STAR, [Group(OPEN, b)]);
    TextAppend([Group(OPEN, a)] + STAR + [Group(OPEN, [Group(OPEN, b)])], tail);
    GroupText(OPEN, [Group(OPEN, a)] + STAR + [Group(OPEN, [Group(OPEN, b)])] + tail);
  }

  /** `mad(a, b, (c) tail)` inside parentheses. */
  lemma MadAround(env: Env, st: State, levels: seq<Level>, p: Piece, c: seq<Piece>, tail: seq<Piece>, k: seq<Token>)
    requires p.Mad? && TailOperands(env, p, c, tail, "}") && ProperLevels(env, levels, Name("mad"))
    ensures var s0 := StateInside(env, levels, st);
      var s1 := LeftList(env, p.a, s0);
      var s2 := LeftList(env, p.b, s1);
      var s3 := LeftList(env, c, s2);
      var s4 := LeftList(env, tail, s3);
      var out := EscapedMad(ImageList(env, p.a, s0), ImageList(env, p.b, s1), ImageList(env, c, s2),
                            ImageList(env, tail, s3));
      Loop(env, st, Src(Around(levels, p), k), "}")
      == Prefixed(Text(ImageAround(env, levels, st, out, s4)), Loop(env, StateBehind(env, levels, s4), k, "}"))
  {
    hide *;
    var s0 := StateInside(env, levels, st);
    var s1 := LeftList(env, p.a, s0);
    var s2 := LeftList(env, p.b, s1);
    var s3 := LeftList(env, c, s2);
    var s4 := LeftList(env, tail, s3);
    var out := EscapedMad(ImageList(env, p.a, s0), ImageList(env, p.b, s1), ImageList(env, c, s2),
                          ImageList(env, tail, s3));
    MadStarts(env, p, c, tail);
    MadRuns(env, s0, p, c, tail);
    RunsAround(env, st, levels, p, Name("mad"), out, s4);
    InBody(env, st, Around(levels, p), Text(ImageAround(env, levels, st, out, s4)), StateBehind(env, levels, s4), k);
  }

  lemma MadRuns(env: Env, st: State, p: Piece, c: seq<Piece>, tail: seq<Piece>)
    requires p.Mad? && TailOperands(env, p, c, tail, "}") && TailOperands(env, p, c, tail, ")")
    ensures var s1 := LeftList(env, p.a, st);
      var s2 := LeftList(env, p.b, s1);
      var s3 := LeftList(env, c, s2);
      var out := EscapedMad(ImageList(env, p.a, st), ImageList(env, p.b, s1), ImageList(env, c, s2),
                            ImageList(env, tail, s3));
      Plain(out) && Runs(env, st, p, Text(out), LeftList(env, tail, s3))
  {
    hide *;
    var s1 := LeftList(env, p.a, st);
    var s2 := LeftList(env, p.b, s1);
    var s3 := LeftList(env, c, s2);
    var a, b, ci, t := ImageList(env, p.a, st), ImageList(env, p.b, s1), ImageList(env, c, s2),
                       ImageList(env, tail, s3);
    OperandsArePlain(env, p, c, tail, st, s1, s2, s3);
    EscapedMadIsPlain(a, b, ci, t);
    var text := Text(EscapedMad(a, b, ci, t));
    forall k, end | end == ")" || end == "}"
      ensures Loop(env, st, Src(p, k), end) == Overrun(env, text, LeftList(env, tail, s3), k, end)
    {
      MadTailEscapes(env, st, p, c, tail, k, end);
    }
    RunsIf(env, st, p, text, LeftList(env, tail, s3));
  }

  lemma MadStarts(env: Env, p: Piece, c: seq<Piece>, tail: seq<Piece>)
    requires p.Mad? && TailOperands(env, p, c, tail, "}")
    ensures StartsWith(p, Name("mad")) && !Name("mad").Blank? && TailOperands(env, p, c, tail, ")")
  {
    hide ProperList, MiddleOperand, SrcList;
  }

  lemma RunsIf(env: Env, st: State, p: Piece, text: seq<Token>, s: State)
    requires text != [] && text[|text| - 1] == CLOSE
    requires forall k, end :: end == ")" || end == "}" ==>
      Loop(env, st, Src(p, k), end) == Overrun(env, text, s, k, end)
    ensures Runs(env, st, p, text, s)
  {
    hide Loop, Src, Overrun;
  }

  lemma OperandsArePlain(env: Env, p: Piece, c: seq<Piece>, tail: seq<Piece>, s0: State, s1: State, s2: State,
                         s3: State)
    requires (p.Mad? || p.Sincos?) && TailOperands(env, p, c, tail, "}")
    ensures Plain(ImageList(env, p.a, s0)) && Plain(ImageList(env, p.b, s1)) && Plain(ImageList(env, c, s2))
    ensures Plain(ImageList(env, tail, s3)) && ProperList(env, p.b, false)
  {
    assert ProperList(env, p.b, false) && ProperList(env, tail, true);
    hide Plain, ImageList, ProperList;
    ImageListIsPlain(env, p.a, false, s0);
    ImageListIsPlain(env, p.b, false, s1);
    ImageListIsPlain(env, c, true, s2);
    ImageListIsPlain(env, tail, true, s3);
  }

  lemma EscapedMadIsPlain(a: seq<Piece>, b: seq<Piece>, c: seq<Piece>, tail: seq<Piece>)
    requires Plain(a) && Plain(b) && Plain(c) && Plain(tail)
    ensures var out := EscapedMad(a, b, c, tail);
      Plain(out) && Text(out) != [] && Text(out)[|Text(out)| - 1] == CLOSE
  {
    var r := [Group(OPEN, a)] + STAR + [Group(OPEN, b)] + CROSS + [Group(OPEN, [Group(OPEN, c)])];
    assert EscapedMad(a, b, c, tail) == [Group(OPEN, r + tail)];
    hide *;
    SumFrontText(a, b, c);
    TextAppend(r, tail);
    GroupText(OPEN, r + tail);
    CloseOf();
  }

  /** A sampling call with coordinates that begin with a parenthesis, inside others: what is written is what should be
      written. */
  lemma CoordinatesAround(env: Env, st: State, levels: seq<Level>, p: Piece, c: seq<Piece>, tail: seq<Piece>,
                          k: seq<Token>)
    requires p.Texture? && p.coords == [Group(OPEN, c)] + tail
    requires !Bracket(Name(p.name)) && p.name != "," && TypeName(p.name) == "" && Renamed(p.name) == ""
    requires !TakenApart(p.name) && IsTexture(env, p.name) && ProperLead(env, p.name, p.lead)
    requires ProperList(env, c, true) && ProperList(env, tail, true) && ProperLevels(env, levels, Name(p.name))
    ensures var s0 := StateInside(env, levels, st);
      var s := Left(env, p, s0);
      Loop(env, st, Src(Around(levels, p), k), "}")
      == Prefixed(Text(ImageAround(env, levels, st, Image(env, p, s0), s)),
                  Loop(env, StateBehind(env, levels, s), k, "}"))
  {
    var s0 := StateInside(env, levels, st);
    var s, out := Left(env, p, s0), Image(env, p, s0);
    CoordinatesArePlain(env, p, c, tail, s0);
    assert StartsWith(p, Name(p.name)) && !Name(p.name).Blank?;
    hide Loop, Text, Plain, ImageList, Image, Left, Overrun, ProperList, ProperLevels, Src, SrcList, ProperLead,
         Bracket, IsTexture;
    forall j, end | end == ")" || end == "}"
      ensures Loop(env, s0, Src(p, j), end) == Overrun(env, Text(out), s, j, end)
    {
      CoordinatesAreRight(env, s0, p, c, tail, j, end);
    }
    hide *;
    RunsIf(env, s0, p, Text(out), s);
    RunsAround(env, st, levels, p, Name(p.name), out, s);
    InBody(env, st, Around(levels, p), Text(ImageAround(env, levels, st, out, s)), StateBehind(env, levels, s), k);
  }

  lemma CoordinatesArePlain(env: Env, p: Piece, c: seq<Piece>, tail: seq<Piece>, st: State)
    requires p.Texture? && p.coords == [Group(OPEN, c)] + tail
    requires ProperList(env, c, true) && ProperList(env, tail, true)
    ensures Plain(Image(env, p, st)) && Text(Image(env, p, st)) != []
    ensures Text(Image(env, p, st))[|Text(Image(env, p, st))| - 1] == CLOSE
  {
    var s := st.(bound := BoundBy(env, p.name, p.lead, st.bound));
    var s1 := LeftList(env, c, s);
    CoordinatesImage(env, st, p, c, tail);
    var ci, t := ImageList(env, c, s), ImageList(env, tail, s1);
    ImageListIsPlain(env, c, true, s);
    ImageListIsPlain(env, tail, true, s1);
    hide *;
    GroupText(OPEN, ci);
    TextAppend([Group(OPEN, ci)], t);
    SamplingText(CallOf(env, p.name, p.lead), p.name, [Group(OPEN, ci)] + t);
  }
}
