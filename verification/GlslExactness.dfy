/** The writer on the tokens of a body: it consumes exactly the body and writes the tokens of the body's image. */
module GlslExactness {
  import opened ShaderTokens
  import opened GlslWriter
  import opened GlslPieces

  /** What can follow a list of pieces. */
  ghost predicate Follows(k: seq<Token>) {
    k != [] && (k[0] == COMMA || k[0] == CLOSE || k[0] == END)
  }

  ghost predicate Stop(end: string) {
    end == "," || end == ")" || end == "}"
  }

  /** Where a list of pieces ends for a routine that looks for `end`. */
  ghost predicate EndsAt(k: seq<Token>, end: string) {
    Follows(k) && k[0].text == end
  }

  // ---------------------------------------------------------------------------------------------------------
  // Blanks

  lemma SkipGap(gap: seq<Token>, k: seq<Token>)
    requires Blanks(gap) && k != [] && !k[0].Blank?
    ensures SkipBlanks(gap + k) == k
  {
    if gap == [] {
      assert gap + k == k;
    } else {
      assert (gap + k)[1..] == gap[1..] + k;
      SkipGap(gap[1..], k);
    }
  }

  lemma NextOverGap(t: Token, gap: seq<Token>, k: seq<Token>)
    requires Blanks(gap) && k != [] && !k[0].Blank?
    ensures Next([t] + (gap + k)) == k
  {
    assert ([t] + (gap + k))[1..] == gap + k;
    SkipGap(gap, k);
  }

  /** What is left of `ts` behind its first token that is not blank. */
  ghost function Behind(ts: seq<Token>): (r: seq<Token>)
    requires Squeezed(ts) != []
    ensures |r| < |ts| && Squeezed(r) == Squeezed(ts)[1..]
  {
    if ts[0].Blank? then Behind(ts[1..]) else ts[1..]
  }

  lemma {:induction false} SkipLead(lead: seq<Token>, k: seq<Token>)
    requires Squeezed(lead) != []
    ensures SkipBlanks(lead + k) == [Squeezed(lead)[0]] + (Behind(lead) + k)
  {
    if lead[0].Blank? {
      assert (lead + k)[1..] == lead[1..] + k;
      assert SkipBlanks(lead + k) == SkipBlanks(lead[1..] + k);
      SkipLead(lead[1..], k);
    } else {
      assert (lead + k)[0] == lead[0] == Squeezed(lead)[0];
      assert SkipBlanks(lead + k) == lead + k == [lead[0]] + (lead[1..] + k);
    }
  }

  lemma NextOverLead(t: Token, lead: seq<Token>, k: seq<Token>)
    requires Squeezed(lead) != []
    ensures Next([t] + (lead + k)) == [Squeezed(lead)[0]] + (Behind(lead) + k)
  {
    assert ([t] + (lead + k))[1..] == lead + k;
    SkipLead(lead, k);
  }

  /** Whether a name is bare does not depend on what follows the list it is in. */
  lemma SameNext(env: Env, ps: seq<Piece>, commas: bool, j: seq<Token>, k: seq<Token>, text: string)
    requires ProperList(env, ps, commas) && Follows(j) && Follows(k) && (text == "(" || text == ".")
    ensures Is(SkipBlanks(SrcList(ps, j)), text) == Is(SkipBlanks(SrcList(ps, k)), text)
  {
    if ps != [] {
      var p := ps[0];
      assert Src(p, SrcList(ps[1..], j))[0] == Src(p, SrcList(ps[1..], k))[0];
      if p.Leaf? && p.tok.Blank? {
        assert SrcList(ps, j)[1..] == SrcList(ps[1..], j) && SrcList(ps, k)[1..] == SrcList(ps[1..], k);
        SameNext(env, ps[1..], commas, j, k, text);
      }
    }
  }

  lemma BareInContext(env: Env, t: Token, ps: seq<Piece>, commas: bool, k: seq<Token>)
    requires ProperList(env, ps, commas) && Bare(env, t, SrcList(ps, [CLOSE])) && Follows(k)
    ensures Bare(env, t, SrcList(ps, k))
  {
    SameNext(env, ps, commas, [CLOSE], k, "(");
    SameNext(env, ps, commas, [CLOSE], k, ".");
    hide IsTexture, ProperList, TypeName, Renamed;
  }

  // ---------------------------------------------------------------------------------------------------------
  // The text of lists

  lemma SrcListAppend(a: seq<Piece>, b: seq<Piece>, k: seq<Token>)
    ensures SrcList(a + b, k) == SrcList(a, SrcList(b, k))
  {
    if a == [] {
      assert a + b == b;
    } else {
      hide Src;
      assert (a + b)[1..] == a[1..] + b;
      SrcListAppend(a[1..], b, k);
    }
  }

  predicate IsBracket(t: Token) {
    t == OPEN || t == CLOSE || t == BEGIN || t == END
  }

  /** Written pieces: single tokens and matched brackets. */
  predicate Plain(ps: seq<Piece>) {
    ps == [] || (
      && !TakesApart(ps[0])
      && (ps[0].Leaf? ==> !IsBracket(ps[0].tok))
      && (ps[0].Group? ==> (ps[0].open == OPEN || ps[0].open == BEGIN) && Plain(ps[0].body))
      && Plain(ps[1..]))
  }

  predicate TakesApart(p: Piece) {
    !p.Leaf? && !p.Group?
  }

  lemma PlainText(ps: seq<Piece>, k: seq<Token>)
    requires Plain(ps)
    ensures SrcList(ps, k) == Text(ps) + k
    decreases ps, 0
  {
    if ps != [] {
      var rest := Text(ps[1..]);
      PlainText(ps[1..], k);
      assert SrcList(ps, k) == Src(ps[0], rest + k);
      assert Text(ps) == Src(ps[0], rest);
      if ps[0].Group? {
        PlainGroup(ps[0].open, ps[0].body, rest, k);
      }
    }
  }

  lemma PlainGroup(o: Token, body: seq<Piece>, rest: seq<Token>, k: seq<Token>)
    requires Plain(body)
    ensures Src(Group(o, body), rest + k) == Src(Group(o, body), rest) + k
    ensures Src(Group(o, body), rest) == [o] + (Text(body) + ([Closing(o)] + rest))
    decreases body, 1
  {
    var c := [Closing(o)];
    PlainText(body, c + (rest + k));
    PlainText(body, c + rest);
    hide SrcList;
    assert [o] + (Text(body) + (c + (rest + k))) == ([o] + (Text(body) + (c + rest))) + k;
  }

  lemma TextAppend(a: seq<Piece>, b: seq<Piece>)
    requires Plain(a) && Plain(b)
    ensures Text(a + b) == Text(a) + Text(b) && Plain(a + b)
  {
    SrcListAppend(a, b, []);
    PlainText(a, Text(b));
    PlainAppend(a, b);
  }

  lemma PlainAppend(a: seq<Piece>, b: seq<Piece>)
    requires Plain(a) && Plain(b)
    ensures Plain(a + b)
  {
    if a == [] {
      assert a + b == b;
    } else {
      assert (a + b)[1..] == a[1..] + b;
      PlainAppend(a[1..], b);
    }
  }

  lemma LeavesText(ts: seq<Token>)
    requires forall t :: t in ts ==> !IsBracket(t)
    ensures Plain(Leaves(ts)) && Text(Leaves(ts)) == ts
  {
    if ts != [] {
      LeavesText(ts[1..]);
      assert Leaves(ts)[1..] == Leaves(ts[1..]);
      assert Text(Leaves(ts)) == Src(Leaf(ts[0]), Text(Leaves(ts[1..])));
    }
  }

  lemma GroupText(o: Token, body: seq<Piece>)
    requires Plain(body) && (o == OPEN || o == BEGIN)
    ensures Plain([Group(o, body)]) && Text([Group(o, body)]) == [o] + Text(body) + [Closing(o)]
  {
    PlainGroup(o, body, [], []);
    assert [Group(o, body)][1..] == [];
    assert Text([Group(o, body)]) == Src(Group(o, body), Text([]));
    assert [o] + (Text(body) + ([Closing(o)] + [])) == [o] + Text(body) + [Closing(o)];
  }

  lemma ConstantText()
    ensures Plain(STAR) && Text(STAR) == [SPACE, Other("*"), SPACE]
    ensures Plain(CROSS) && Text(CROSS) == [SPACE, Other("+"), SPACE]
    ensures Plain(BOUNDS) && Text(BOUNDS) + [CLOSE] == CLAMPED
  {
    ThreeText(SPACE, Other("*"), SPACE);
    ThreeText(SPACE, Other("+"), SPACE);
    ThreeText(COMMA, SPACE, Number("0.0"));
    ThreeText(COMMA, SPACE, Number("1.0"));
    var a := [Leaf(COMMA), Leaf(SPACE), Leaf(Number("0.0"))];
    var b := [Leaf(COMMA), Leaf(SPACE), Leaf(Number("1.0"))];
    TextAppend(a, b);
    assert BOUNDS == a + b;
    hide Text, Plain;
  }

  lemma ThreeText(a: Token, b: Token, c: Token)
    requires !IsBracket(a) && !IsBracket(b) && !IsBracket(c)
    ensures Plain([Leaf(a), Leaf(b), Leaf(c)]) && Text([Leaf(a), Leaf(b), Leaf(c)]) == [a, b, c]
  {
    LeavesText([a, b, c]);
    assert Leaves([a, b, c]) == [Leaf(a), Leaf(b), Leaf(c)];
  }

  lemma LeafText(t: Token)
    requires !IsBracket(t)
    ensures Plain([Leaf(t)]) && Text([Leaf(t)]) == [t]
  {
    LeavesText([t]);
    assert Leaves([t]) == [Leaf(t)];
  }

  /** Bracketed lists with leaves between them. */
  lemma Bracketed(q: seq<Piece>, a: seq<Piece>)
    requires Plain(q) && Plain(a)
    ensures Plain(q + [Group(OPEN, a)]) && Text(q + [Group(OPEN, a)]) == Text(q) + ([OPEN] + Text(a) + [CLOSE])
  {
    GroupText(OPEN, a);
    TextAppend(q, [Group(OPEN, a)]);
  }

  lemma ProductText(a: seq<Piece>, b: seq<Piece>)
    requires Plain(a) && Plain(b)
    ensures Plain(Product(a, b))
    ensures Text(Product(a, b)) == [OPEN] + ([OPEN] + Text(a)) + TIMES + Text(b) + [CLOSE, CLOSE]
  {
    var q := [Group(OPEN, a)] + STAR + [Group(OPEN, b)];
    ConstantText();
    hide Plain, Text;
    GroupText(OPEN, a);
    TextAppend([Group(OPEN, a)], STAR);
    Bracketed([Group(OPEN, a)] + STAR, b);
    GroupText(OPEN, q);
    assert [OPEN] + (([OPEN] + Text(a) + [CLOSE]) + [SPACE, Other("*"), SPACE] + ([OPEN] + Text(b) + [CLOSE])) + [CLOSE]
        == [OPEN] + ([OPEN] + Text(a)) + TIMES + Text(b) + [CLOSE, CLOSE];
  }

  lemma ProductSumText(a: seq<Piece>, b: seq<Piece>, c: seq<Piece>)
    requires Plain(a) && Plain(b) && Plain(c)
    ensures Plain(ProductSum(a, b, c))
    ensures Text(ProductSum(a, b, c))
         == [OPEN] + ([OPEN] + Text(a)) + TIMES + Text(b) + PLUS + Text(c) + [CLOSE, CLOSE]
  {
    var star := [SPACE, Other("*"), SPACE];
    var cross := [SPACE, Other("+"), SPACE];
    var q := [Group(OPEN, a)] + STAR + [Group(OPEN, b)];
    ConstantText();
    hide Plain, Text;
    GroupText(OPEN, a);
    TextAppend([Group(OPEN, a)], STAR);
    Bracketed([Group(OPEN, a)] + STAR, b);
    TextAppend(q, CROSS);
    Bracketed(q + CROSS, c);
    GroupText(OPEN, q + CROSS + [Group(OPEN, c)]);
    var t := ([OPEN] + Text(a) + [CLOSE]) + star + ([OPEN] + Text(b) + [CLOSE]);
    assert Text(q) == t;
    assert [OPEN] + t == [OPEN] + ([OPEN] + Text(a)) + TIMES + Text(b) + [CLOSE];
    hide *;
    assert [CLOSE] + cross + [OPEN] == PLUS && [CLOSE] + [CLOSE] == [CLOSE, CLOSE];
    SumText([OPEN] + t, [OPEN] + ([OPEN] + Text(a)) + TIMES + Text(b), Text(c), cross);
    assert [OPEN] + (t + cross + ([OPEN] + Text(c) + [CLOSE])) + [CLOSE]
        == ([OPEN] + t) + cross + ([OPEN] + Text(c) + [CLOSE]) + [CLOSE];
  }

  lemma SumText(q: seq<Token>, p: seq<Token>, c: seq<Token>, cross: seq<Token>)
    requires q == p + [CLOSE]
    ensures q + cross + ([OPEN] + c + [CLOSE]) + [CLOSE] == p + ([CLOSE] + cross + [OPEN]) + c + ([CLOSE] + [CLOSE])
  {
  }

  lemma Regroup(a: seq<Token>, b: seq<Token>, c: seq<Token>, d: seq<Token>, e: seq<Token>)
    ensures a + (b + (c + d) + e) == a + (b + c) + (d + e)
    ensures a + (b + (c + d) + e) == (a + b + c) + d + e
  {
  }

  lemma ClampText(a: seq<Piece>)
    requires Plain(a)
    ensures Plain(Clamp(a)) && Text(Clamp(a)) == [Name("clamp")] + ([OPEN] + Text(a)) + CLAMPED
  {
    ConstantText();
    LeafText(Name("clamp"));
    hide Plain, Text;
    TextAppend(a, BOUNDS);
    Bracketed([Leaf(Name("clamp"))], a + BOUNDS);
    assert Clamp(a) == [Leaf(Name("clamp"))] + [Group(OPEN, a + BOUNDS)];
    hide *;
    Regroup([Name("clamp")], [OPEN], Text(a), Text(BOUNDS), [CLOSE]);
  }

  lemma SamplingText(call: string, texture: string, coords: seq<Piece>)
    requires Plain(coords)
    ensures Plain(Sampling(call, texture, coords))
    ensures Text(Sampling(call, texture, coords))
         == [Name(call), OPEN, Name(texture), COMMA, SPACE] + Text(coords) + [CLOSE]
  {
    var first := [Name(texture), COMMA, SPACE];
    LeavesText(first);
    LeafText(Name(call));
    hide Plain, Text;
    TextAppend(Leaves(first), coords);
    Bracketed([Leaf(Name(call))], Leaves(first) + coords);
    assert Sampling(call, texture, coords) == [Leaf(Name(call))] + [Group(OPEN, Leaves(first) + coords)];
    assert [Name(call)] + [OPEN] + first == [Name(call), OPEN, Name(texture), COMMA, SPACE];
    hide *;
    Regroup([Name(call)], [OPEN], first, Text(coords), [CLOSE]);
  }

  /** A list, an assignment of a function of `v`, and the rest of that statement. */
  lemma AssignmentText(q: seq<Piece>, f: seq<Token>, v: Token)
    requires Plain(q) && v.Name? && forall t :: t in f ==> !IsBracket(t)
    ensures var r := q + Leaves(f) + [Group(OPEN, [Leaf(v)])];
      Plain(r) && Text(r) == Text(q) + f + [OPEN, v, CLOSE]
  {
    LeavesText(f);
    LeafText(v);
    hide Plain, Text;
    TextAppend(q, Leaves(f));
    Bracketed(q + Leaves(f), [Leaf(v)]);
    assert [OPEN] + [v] + [CLOSE] == [OPEN, v, CLOSE];
  }

  lemma SineAndCosineText(v: Token, a: seq<Piece>, b: seq<Piece>, c: seq<Piece>)
    requires v.Name? && Plain(a) && Plain(b) && Plain(c)
    ensures Plain(SineAndCosine(v, a, b, c))
    ensures Text(SineAndCosine(v, a, b, c))
         == Declares(v) + ([OPEN] + Text(a)) + NEXT + Text(b) + SineOf(v) + Text(c) + CosineOf(v)
  {
    var q1 := Leaves(Declares(v)) + [Group(OPEN, a)] + Leaves([SEMICOLON, SPACE]);
    var q3 := q1 + b + Leaves(ASSIGN + [Name("sin")]) + [Group(OPEN, [Leaf(v)])] + Leaves([SEMICOLON, SPACE]);
    assert SineAndCosine(v, a, b, c) == q3 + c + Leaves(ASSIGN + [Name("cos")]) + [Group(OPEN, [Leaf(v)])];
    assert ASSIGN + [Name("cos")] + [OPEN, v, CLOSE] == CosineOf(v);
    assert forall t :: t in ASSIGN + [Name("cos")] ==> !IsBracket(t);
    hide *;
    DeclarationText(v, a);
    TextAppend(q1, b);
    SineText(q1 + b, v);
    TextAppend(q3, c);
    AssignmentText(q3 + c, ASSIGN + [Name("cos")], v);
    Regrouped(Text(q3 + c), ASSIGN + [Name("cos")], [OPEN, v, CLOSE]);
  }

  lemma Regrouped(q: seq<Token>, a: seq<Token>, b: seq<Token>)
    ensures q + a + b == q + (a + b)
  {
  }

  lemma DeclarationText(v: Token, a: seq<Piece>)
    requires v.Name? && Plain(a)
    ensures var q := Leaves(Declares(v)) + [Group(OPEN, a)] + Leaves([SEMICOLON, SPACE]);
      Plain(q) && Text(q) == Declares(v) + ([OPEN] + Text(a)) + NEXT
  {
    var end := [SEMICOLON, SPACE];
    LeavesText(Declares(v));
    LeavesText(end);
    assert [CLOSE] + end == NEXT;
    hide *;
    Bracketed(Leaves(Declares(v)), a);
    TextAppend(Leaves(Declares(v)) + [Group(OPEN, a)], Leaves(end));
    Regrouped(Declares(v), [OPEN] + Text(a), [CLOSE]);
    Regrouped(Declares(v) + ([OPEN] + Text(a)), [CLOSE], end);
  }

  lemma SineText(q: seq<Piece>, v: Token)
    requires v.Name? && Plain(q)
    ensures var r := q + Leaves(ASSIGN + [Name("sin")]) + [Group(OPEN, [Leaf(v)])] + Leaves([SEMICOLON, SPACE]);
      Plain(r) && Text(r) == Text(q) + SineOf(v)
  {
    var f, end := ASSIGN + [Name("sin")], [SEMICOLON, SPACE];
    LeavesText(end);
    assert f + [OPEN, v, CLOSE] + end == SineOf(v);
    assert forall t :: t in f ==> !IsBracket(t);
    hide *;
    AssignmentText(q, f, v);
    TextAppend(q + Leaves(f) + [Group(OPEN, [Leaf(v)])], Leaves(end));
    Regrouped(Text(q), f, [OPEN, v, CLOSE]);
    Regrouped(Text(q), f + [OPEN, v, CLOSE], end);
  }

  /** Whatever a body is turned into consists of single tokens and brackets. */
  lemma {:induction false} ImageIsPlain(env: Env, p: Piece, st: State)
    requires Proper(env, p)
    ensures Plain(Image(env, p, st))
    decreases p
  {
    hide Left, LeftList, SincosName, CallOf, BoundBy, Product, ProductSum, Clamp, Sampling, SineAndCosine;
    match p
    case Leaf(_) =>
    case Group(_, body) => ImageListIsPlain(env, body, true, st);
    case Mul(_, a, _, b) =>
      ImageListIsPlain(env, a, false, st);
      ImageListIsPlain(env, b, true, LeftList(env, a, st));
      ProductText(ImageList(env, a, st), ImageList(env, b, LeftList(env, a, st)));
    case Mad(_, a, _, b, _, c) =>
      var s1 := LeftList(env, a, st);
      ImageListIsPlain(env, a, false, st);
      ImageListIsPlain(env, b, false, s1);
      ImageListIsPlain(env, c, true, LeftList(env, b, s1));
      ProductSumText(ImageList(env, a, st), ImageList(env, b, s1), ImageList(env, c, LeftList(env, b, s1)));
    case Saturate(_, a) =>
      ImageListIsPlain(env, a, true, st);
      ClampText(ImageList(env, a, st));
    case Sincos(_, a, _, b, _, c) =>
      var s0 := st.(sincos := st.sincos + 1);
      var s1 := LeftList(env, a, s0);
      ImageListIsPlain(env, a, false, s0);
      ImageListIsPlain(env, b, false, s1);
      ImageListIsPlain(env, c, true, LeftList(env, b, s1));
      SineAndCosineText(SincosName(st.sincos), ImageList(env, a, s0), ImageList(env, b, s1),
                        ImageList(env, c, LeftList(env, b, s1)));
    case Texture(n, lead, coords) =>
      var s := st.(bound := BoundBy(env, n, lead, st.bound));
      ImageListIsPlain(env, coords, true, s);
      SamplingText(CallOf(env, n, lead), n, ImageList(env, coords, s));
  }

  lemma {:induction false} ImageListIsPlain(env: Env, ps: seq<Piece>, commas: bool, st: State)
    requires ProperList(env, ps, commas)
    ensures Plain(ImageList(env, ps, st))
    decreases ps
  {
    if ps != [] {
      hide Image;
      ImageIsPlain(env, ps[0], st);
      ImageListIsPlain(env, ps[1..], commas, Left(env, ps[0], st));
      PlainAppend(Image(env, ps[0], st), ImageList(env, ps[1..], Left(env, ps[0], st)));
    }
  }

  // ---------------------------------------------------------------------------------------------------------
  // Lists and operands

  /** The loop writes a list of pieces and goes on behind it. */
  lemma {:induction false} LoopOver(env: Env, st: State, ps: seq<Piece>, k: seq<Token>, end: string)
    requires ProperList(env, ps, end != ",") && Follows(k) && Stop(end)
    ensures Loop(env, st, SrcList(ps, k), end)
         == Prefixed(Text(ImageList(env, ps, st)), Loop(env, LeftList(env, ps, st), k, end))
    decreases ps, 0
  {
    if ps == [] {
      assert Text([]) == [];
      Nothing(Loop(env, st, k, end));
    } else {
      var rest := SrcList(ps[1..], k);
      var s := Left(env, ps[0], st);
      var a, b := Text(Image(env, ps[0], st)), Text(ImageList(env, ps[1..], s));
      if ps[0].Leaf? {
        BareInContext(env, ps[0].tok, ps[1..], end != ",", k);
      }
      ItemOver(env, st, ps[0], rest);
      FirstToken(env, ps[0], rest, end);
      LoopStep(env, st, Src(ps[0], rest), end);
      LoopOver(env, s, ps[1..], k, end);
      ImageText(env, ps, end != ",", st);
      PrefixedTwice(a, b, Loop(env, LeftList(env, ps[1..], s), k, end));
      hide Item, Proper, Bare, Image, Left, Src, Text, Plain, Loop;
    }
  }

  lemma LoopStep(env: Env, st: State, ts: seq<Token>, end: string)
    requires ts != [] && ts[0].text != end
    ensures Loop(env, st, ts, end)
         == Prefixed(Item(env, st, ts).text, Loop(env, Item(env, st, ts).state, Item(env, st, ts).rest, end))
  {
  }

  lemma Nothing(c: Chunk)
    ensures Prefixed([], c) == c
  {
  }

  lemma PrefixedTwice(a: seq<Token>, b: seq<Token>, c: Chunk)
    ensures Prefixed(a, Prefixed(b, c)) == Prefixed(a + b, c)
  {
  }

  lemma ImageText(env: Env, ps: seq<Piece>, commas: bool, st: State)
    requires ps != [] && ProperList(env, ps, commas)
    ensures Text(ImageList(env, ps, st))
         == Text(Image(env, ps[0], st)) + Text(ImageList(env, ps[1..], Left(env, ps[0], st)))
  {
    ImageIsPlain(env, ps[0], st);
    ImageListIsPlain(env, ps[1..], commas, Left(env, ps[0], st));
    TextAppend(Image(env, ps[0], st), ImageList(env, ps[1..], Left(env, ps[0], st)));
    hide Image, Text, Plain, Left;
  }

  lemma FirstToken(env: Env, p: Piece, k: seq<Token>, end: string)
    requires Proper(env, p) && Stop(end) && (p.Leaf? ==> end == "," ==> p.tok.text != ",")
    ensures Src(p, k) != [] && Src(p, k)[0].text != end
  {
    hide ProperList;
  }

  /** What a bracket encloses, or the operand that the opening parenthesis belongs to. */
  lemma {:induction false} FirstOperand(env: Env, st: State, o: Token, ps: seq<Piece>, k: seq<Token>, end: string)
    requires !o.Name? && ProperList(env, ps, end != ",") && EndsAt(k, end) && Stop(end)
    ensures Contents(env, st, [o] + SrcList(ps, k), end)
         == Chunk([o] + Text(ImageList(env, ps, st)), LeftList(env, ps, st), k)
    decreases ps, 1
  {
    LoopOver(env, st, ps, k, end);
    LoopStops(env, LeftList(env, ps, st), k, end);
    RawStart(env, st, o, SrcList(ps, k), end);
    hide SrcList, ImageList, LeftList, Text, ProperList, Loop, Contents;
  }

  /** The operands behind a comma. */
  lemma {:induction false} LaterOperand(env: Env, st: State, ps: seq<Piece>, k: seq<Token>, end: string)
    requires EndsAt(k, end)
    requires (end == ")" && LastOperand(env, ps)) || (end == "," && MiddleOperand(env, ps))
    ensures Contents(env, st, SrcList(ps, k), end)
         == Chunk(Text(ImageList(env, ps, st)), LeftList(env, ps, st), k)
    decreases ps, 1
  {
    LoopOver(env, st, ps, k, end);
    if ps[0].Group? {
      ParenthesisFirst(env, st, ps, k);
    } else {
      FirstToken(env, ps[0], SrcList(ps[1..], k), end);
      NoBracketFirst(env, ps[0], SrcList(ps[1..], k));
      ContentsIsLoop(env, st, SrcList(ps, k), end);
      hide SrcList, ImageList, LeftList, Text, ProperList, Contents;
    }
  }

  lemma NoBracketFirst(env: Env, p: Piece, k: seq<Token>)
    requires Proper(env, p) && !p.Group?
    ensures !Opens(Src(p, k)[0], '(') && !Opens(Src(p, k)[0], '{')
  {
    hide ProperList;
  }

  /** The first token is special only if it opens a bracket or is the one looked for. */
  lemma ContentsIsLoop(env: Env, st: State, ts: seq<Token>, end: string)
    requires ts != [] && ts[0].text != end && !Opens(ts[0], '(') && !Opens(ts[0], '{')
    ensures Contents(env, st, ts, end) == Loop(env, st, ts, end)
  {
    hide WriteName;
  }

  /** The loop does not match up the parentheses of an operand that begins with one, but it need not. */
  lemma {:induction false} ParenthesisFirst(env: Env, st: State, ps: seq<Piece>, k: seq<Token>)
    requires MiddleOperand(env, ps) && ps[0].Group? && EndsAt(k, ",")
    ensures Contents(env, st, SrcList(ps, k), ",")
         == Chunk(Text(ImageList(env, ps, st)), LeftList(env, ps, st), k)
    decreases ps, 0
  {
    var body := ps[0].body;
    var rest := SrcList(ps[1..], k);
    var close := [CLOSE] + rest;
    var s := LeftList(env, body, st);
    var inside := ImageList(env, body, st);
    var outside := ImageList(env, ps[1..], s);
    assert Image(env, ps[0], st) == [Group(OPEN, inside)] && Left(env, ps[0], st) == s;
    assert SrcList(ps, k) == [OPEN] + SrcList(body, close);
    ImageListIsPlain(env, body, false, st);
    GroupText(OPEN, inside);
    ImageText(env, ps, false, st);
    assert LeftList(env, ps, st) == LeftList(env, ps[1..], s);
    LoopOver(env, st, body, close, ",");
    LoopOver(env, s, ps[1..], k, ",");
    hide Plain, Text, ProperList, SrcList, Left, Image, Item, ImageList, Loop, Contents, LeftList;
    RawStart(env, st, OPEN, SrcList(body, close), ",");
    RawToken(env, s, CLOSE, rest, ",");
    LoopStops(env, LeftList(env, ps[1..], s), k, ",");
    FourParts(Text(inside), Text(outside), Loop(env, LeftList(env, ps[1..], s), k, ","));
  }

  lemma FourParts(a: seq<Token>, b: seq<Token>, c: Chunk)
    requires c.text == []
    ensures Prefixed([OPEN], Prefixed(a, Prefixed([CLOSE], Prefixed(b, c))))
         == Chunk([OPEN] + a + [CLOSE] + b, c.state, c.rest)
  {
  }

  lemma RawStart(env: Env, st: State, t: Token, k: seq<Token>, end: string)
    requires !t.Name?
    ensures Contents(env, st, [t] + k, end) == Prefixed([t], Loop(env, st, k, end))
  {
    assert ([t] + k)[1..] == k;
  }

  lemma LoopStops(env: Env, st: State, k: seq<Token>, end: string)
    requires EndsAt(k, end)
    ensures Loop(env, st, k, end) == Chunk([], st, k)
  {
  }

  /** A token the loop copies. */
  lemma RawToken(env: Env, st: State, t: Token, k: seq<Token>, end: string)
    requires t.text != end && !t.Name? && !Opens(t, '(') && !Opens(t, '{')
    ensures Loop(env, st, [t] + k, end) == Prefixed([t], Loop(env, st, k, end))
  {
    assert ([t] + k)[1..] == k;
  }

  /** What a loop makes of a text that ends with a parenthesis which nothing inside the loop opened: if it looks for
      one, it stops there. */
  function Overrun(env: Env, text: seq<Token>, st: State, k: seq<Token>, end: string): Chunk
    requires text != []
  {
    if end == ")" then Chunk(text[..|text| - 1], st, [CLOSE] + k) else Prefixed(text, Loop(env, st, k, end))
  }

  lemma OwnParenthesis(env: Env, st: State, text: seq<Token>, k: seq<Token>, end: string)
    requires Stop(end)
    ensures Prefixed(text, Loop(env, st, [CLOSE] + k, end)) == Overrun(env, text + [CLOSE], st, k, end)
  {
    if end == ")" {
      assert EndsAt([CLOSE] + k, ")");
      LoopStops(env, st, [CLOSE] + k, end);
      assert text + [] == text && (text + [CLOSE])[..|text|] == text;
    } else {
      RawToken(env, st, CLOSE, k, end);
      PrefixedTwice(text, [CLOSE], Loop(env, st, k, end));
    }
    hide Loop;
  }

  lemma OverrunBehind(env: Env, a: seq<Token>, text: seq<Token>, st: State, k: seq<Token>, end: string)
    requires text != []
    ensures Prefixed(a, Overrun(env, text, st, k, end)) == Overrun(env, a + text, st, k, end)
  {
    if end == ")" {
      assert a + text[..|text| - 1] == (a + text)[..|a + text| - 1];
    } else {
      PrefixedTwice(a, text, Loop(env, st, k, end));
    }
    hide Loop;
  }

  // ---------------------------------------------------------------------------------------------------------
  // Single pieces

  lemma {:induction false} ItemOver(env: Env, st: State, p: Piece, k: seq<Token>)
    requires Proper(env, p) && (p.Leaf? ==> Bare(env, p.tok, k))
    ensures Item(env, st, Src(p, k)) == Chunk(Text(Image(env, p, st)), Left(env, p, st), k)
    decreases p, 3
  {
    if p.Leaf? {
      LeafOver(env, st, p.tok, k);
    } else if p.Group? {
      GroupOver(env, st, p, k);
    } else {
      StartsWithName(env, p, k);
      hide *;
      CallOver(env, st, p, k);
      Rewritten(env, st, Src(p, k));
    }
  }

  lemma {:induction false} CallOver(env: Env, st: State, p: Piece, k: seq<Token>)
    requires Proper(env, p) && TakesApart(p)
    ensures WriteIntrinsic(env, st, Src(p, k)) == Written(Chunk(Text(Image(env, p, st)), Left(env, p, st), k))
    decreases p, 2
  {
    hide Image, Left, Text, WriteIntrinsic, Src, Proper;
    match p
    case Mul(_, _, _, _) => MulOver(env, st, p, k);
    case Mad(_, _, _, _, _, _) => MadOver(env, st, p, k);
    case Saturate(_, _) => SaturateOver(env, st, p, k);
    case Sincos(_, _, _, _, _, _) => SincosOver(env, st, p, k);
    case Texture(_, _, _) => TextureOver(env, st, p, k);
  }

  lemma StartsWithName(env: Env, p: Piece, k: seq<Token>)
    requires Proper(env, p) && TakesApart(p)
    ensures Src(p, k) != [] && Src(p, k)[0].Name? && TypeName(Src(p, k)[0].text) == ""
  {
    hide ProperList, SrcList, IsTexture, Renamed, ProperLead;
  }

  lemma Rewritten(env: Env, st: State, ts: seq<Token>)
    requires ts != [] && ts[0].Name? && TypeName(ts[0].text) == "" && WriteIntrinsic(env, st, ts).Written?
    ensures Item(env, st, ts) == WriteIntrinsic(env, st, ts).chunk
  {
    hide WriteIntrinsic, TypeName;
  }

  /** An operand starts with a token that is not blank. */
  lemma Starts(env: Env, ps: seq<Piece>, commas: bool, k: seq<Token>)
    requires ps != [] && !StartsBlank(ps) && ProperList(env, ps, commas)
    ensures SrcList(ps, k) != [] && !SrcList(ps, k)[0].Blank?
  {
    FirstToken(env, ps[0], SrcList(ps[1..], k), "}");
  }

  lemma {:induction false} GroupOver(env: Env, st: State, p: Piece, k: seq<Token>)
    requires p.Group? && Proper(env, p)
    ensures Item(env, st, Src(p, k)) == Chunk(Text(Image(env, p, st)), Left(env, p, st), k)
    decreases p, 1
  {
    var close := [Closing(p.open)] + k;
    FirstOperand(env, st, p.open, p.body, close, Closing(p.open).text);
    ImageListIsPlain(env, p.body, true, st);
    GroupText(p.open, ImageList(env, p.body, st));
    var c := Contents(env, st, Src(p, k), Closing(p.open).text);
    assert Item(env, st, Src(p, k)) == Through(c);
    assert close[1..] == k;
    hide Contents, ImageList, SrcList, Text, ProperList, Item;
  }

  lemma Dispatch(env: Env, st: State, ts: seq<Token>)
    requires ts != []
    ensures ts[0].text == "mul" ==> WriteIntrinsic(env, st, ts) == WriteMul(env, st, ts)
    ensures ts[0].text == "mad" ==> WriteIntrinsic(env, st, ts) == WriteMad(env, st, ts)
    ensures ts[0].text == "saturate" ==> WriteIntrinsic(env, st, ts) == WriteSaturate(env, st, ts)
    ensures ts[0].text == "sincos" ==> WriteIntrinsic(env, st, ts) == WriteSincos(env, st, ts)
    ensures Renamed(ts[0].text) == "" && !TakenApart(ts[0].text) && IsTexture(env, ts[0].text)
        ==> WriteIntrinsic(env, st, ts) == WriteTexture(env, st, ts)
  {
    hide WriteMul, WriteMad, WriteSaturate, WriteSincos, WriteTexture, IsTexture;
  }

  lemma MulSteps(env: Env, st: State, ts: seq<Token>, a: Chunk, b: Chunk)
    requires ts != [] && Is(Next(ts), "(")
    requires Contents(env, st, Next(ts), ",") == a && Contents(env, a.state, Next(a.rest), ")") == b
    ensures WriteMul(env, st, ts)
         == Written(Chunk([OPEN] + a.text + TIMES + b.text + [CLOSE, CLOSE], b.state, Tail(b.rest)))
  {
    hide Contents;
  }

  /** Where the cursor gets to between the operands of a product. */
  lemma MulTokens(env: Env, p: Piece, k: seq<Token>)
    requires p.Mul? && Proper(env, p)
    ensures var bs := SrcList(p.b, [CLOSE] + k);
      var comma := [COMMA] + (p.gapB + bs);
      Next(Src(p, k)) == [OPEN] + SrcList(p.a, comma) && Next(comma) == bs
  {
    var bs := SrcList(p.b, [CLOSE] + k);
    Starts(env, p.b, true, [CLOSE] + k);
    NextOverGap(Name("mul"), p.gap, [OPEN] + SrcList(p.a, [COMMA] + (p.gapB + bs)));
    NextOverGap(COMMA, p.gapB, bs);
    hide SrcList, ProperList, Next, Blanks, StartsBlank;
  }

  lemma {:induction false} MulOver(env: Env, st: State, p: Piece, k: seq<Token>)
    requires p.Mul? && Proper(env, p)
    ensures WriteIntrinsic(env, st, Src(p, k)) == Written(Chunk(Text(Image(env, p, st)), Left(env, p, st), k))
    decreases p, 1
  {
    var close := [CLOSE] + k;
    var comma := [COMMA] + (p.gapB + SrcList(p.b, close));
    var s := LeftList(env, p.a, st);
    var a, b := ImageList(env, p.a, st), ImageList(env, p.b, s);
    assert Src(p, k)[0].text == "mul" && Tail(close) == k;
    assert Image(env, p, st) == Product(a, b) && Left(env, p, st) == LeftList(env, p.b, s);
    assert EndsAt(comma, ",") && EndsAt(close, ")");
    MulTokens(env, p, k);
    hide *;
    Dispatch(env, st, Src(p, k));
    FirstOperand(env, st, OPEN, p.a, comma, ",");
    LaterOperand(env, s, p.b, close, ")");
    ImageListIsPlain(env, p.a, false, st);
    ImageListIsPlain(env, p.b, true, s);
    ProductText(a, b);
    MulSteps(env, st, Src(p, k), Chunk([OPEN] + Text(a), s, comma), Chunk(Text(b), LeftList(env, p.b, s), close));
  }

  lemma MadSteps(env: Env, st: State, ts: seq<Token>, a: Chunk, b: Chunk, c: Chunk)
    requires ts != [] && Is(Next(ts), "(")
    requires Contents(env, st, Next(ts), ",") == a && Contents(env, a.state, Next(a.rest), ",") == b
    requires Contents(env, b.state, Next(b.rest), ")") == c
    ensures WriteMad(env, st, ts)
         == Written(Chunk([OPEN] + a.text + TIMES + b.text + PLUS + c.text + [CLOSE, CLOSE], c.state, Tail(c.rest)))
  {
    hide Contents;
  }

  /** Where the cursor gets to between three operands. */
  lemma ThreeTokens(env: Env, p: Piece, k: seq<Token>)
    requires (p.Mad? || p.Sincos?) && Proper(env, p)
    ensures var cs := SrcList(p.c, [CLOSE] + k);
      var second := [COMMA] + (p.gapC + cs);
      var bs := SrcList(p.b, second);
      var first := [COMMA] + (p.gapB + bs);
      && Next(Src(p, k)) == [OPEN] + SrcList(p.a, first) && Next(first) == bs && bs != []
      && Next(second) == cs && cs != []
  {
    var cs := SrcList(p.c, [CLOSE] + k);
    var bs := SrcList(p.b, [COMMA] + (p.gapC + cs));
    Starts(env, p.c, true, [CLOSE] + k);
    Starts(env, p.b, false, [COMMA] + (p.gapC + cs));
    NextOverGap(Src(p, k)[0], p.gap, [OPEN] + SrcList(p.a, [COMMA] + (p.gapB + bs)));
    NextOverGap(COMMA, p.gapB, bs);
    NextOverGap(COMMA, p.gapC, cs);
    hide SrcList, ProperList, Next, Blanks, StartsBlank;
  }

  lemma {:induction false} MadOver(env: Env, st: State, p: Piece, k: seq<Token>)
    requires p.Mad? && Proper(env, p)
    ensures WriteIntrinsic(env, st, Src(p, k)) == Written(Chunk(Text(Image(env, p, st)), Left(env, p, st), k))
    decreases p, 1
  {
    var close := [CLOSE] + k;
    var second := [COMMA] + (p.gapC + SrcList(p.c, close));
    var first := [COMMA] + (p.gapB + SrcList(p.b, second));
    var s1 := LeftList(env, p.a, st);
    var s2 := LeftList(env, p.b, s1);
    var a, b, c := ImageList(env, p.a, st), ImageList(env, p.b, s1), ImageList(env, p.c, s2);
    assert Src(p, k)[0].text == "mad" && Tail(close) == k;
    assert Image(env, p, st) == ProductSum(a, b, c) && Left(env, p, st) == LeftList(env, p.c, s2);
    assert EndsAt(first, ",") && EndsAt(second, ",") && EndsAt(close, ")");
    ThreeTokens(env, p, k);
    hide *;
    Dispatch(env, st, Src(p, k));
    FirstOperand(env, st, OPEN, p.a, first, ",");
    LaterOperand(env, s1, p.b, second, ",");
    LaterOperand(env, s2, p.c, close, ")");
    ImageListIsPlain(env, p.a, false, st);
    ImageListIsPlain(env, p.b, false, s1);
    ImageListIsPlain(env, p.c, true, s2);
    ProductSumText(a, b, c);
    MadSteps(env, st, Src(p, k), Chunk([OPEN] + Text(a), s1, first), Chunk(Text(b), s2, second),
             Chunk(Text(c), LeftList(env, p.c, s2), close));
  }

  lemma {:induction false} SaturateOver(env: Env, st: State, p: Piece, k: seq<Token>)
    requires p.Saturate? && Proper(env, p)
    ensures WriteIntrinsic(env, st, Src(p, k)) == Written(Chunk(Text(Image(env, p, st)), Left(env, p, st), k))
    decreases p, 1
  {
    var close := [CLOSE] + k;
    var a := ImageList(env, p.a, st);
    var ts := Src(p, k);
    assert ts[0].text == "saturate" && Tail(close) == k && EndsAt(close, ")");
    NextOverGap(Name("saturate"), p.gap, [OPEN] + SrcList(p.a, close));
    assert Image(env, p, st) == Clamp(a) && Left(env, p, st) == LeftList(env, p.a, st);
    hide Src, SrcList, Image, Left, Contents, Clamp, LeftList, ImageList, Text, Plain, WriteIntrinsic, Next;
    Dispatch(env, st, ts);
    FirstOperand(env, st, OPEN, p.a, close, ")");
    ImageListIsPlain(env, p.a, true, st);
    ClampText(a);
  }

  lemma SincosSteps(env: Env, st: State, ts: seq<Token>, a: Chunk, b: Chunk, c: Chunk)
    requires ts != [] && Is(Next(ts), "(") && Next(a.rest) != [] && Next(b.rest) != []
    requires Contents(env, st.(sincos := st.sincos + 1), Next(ts), ",") == a
    requires Contents(env, a.state, Next(a.rest), ",") == b && Contents(env, b.state, Next(b.rest), ")") == c
    ensures var v := SincosName(st.sincos);
      WriteSincos(env, st, ts)
      == Written(Chunk(Declares(v) + a.text + NEXT + b.text + SineOf(v) + c.text + CosineOf(v), c.state, Tail(c.rest)))
  {
    hide Contents, SincosName, Declares, SineOf, CosineOf, Next;
  }

  lemma {:induction false} SincosOver(env: Env, st: State, p: Piece, k: seq<Token>)
    requires p.Sincos? && Proper(env, p)
    ensures WriteIntrinsic(env, st, Src(p, k)) == Written(Chunk(Text(Image(env, p, st)), Left(env, p, st), k))
    decreases p, 1
  {
    var close := [CLOSE] + k;
    var second := [COMMA] + (p.gapC + SrcList(p.c, close));
    var first := [COMMA] + (p.gapB + SrcList(p.b, second));
    var v := SincosName(st.sincos);
    var s0 := st.(sincos := st.sincos + 1);
    var s1 := LeftList(env, p.a, s0);
    var s2 := LeftList(env, p.b, s1);
    var a, b, c := ImageList(env, p.a, s0), ImageList(env, p.b, s1), ImageList(env, p.c, s2);
    assert Src(p, k)[0].text == "sincos" && Tail(close) == k;
    assert Image(env, p, st) == SineAndCosine(v, a, b, c) && Left(env, p, st) == LeftList(env, p.c, s2) by {
      hide SincosName, SineAndCosine;
    }
    assert EndsAt(first, ",") && EndsAt(second, ",") && EndsAt(close, ")");
    ThreeTokens(env, p, k);
    hide *;
    Dispatch(env, st, Src(p, k));
    FirstOperand(env, s0, OPEN, p.a, first, ",");
    LaterOperand(env, s1, p.b, second, ",");
    LaterOperand(env, s2, p.c, close, ")");
    ImageListIsPlain(env, p.a, false, s0);
    ImageListIsPlain(env, p.b, false, s1);
    ImageListIsPlain(env, p.c, true, s2);
    SineAndCosineText(v, a, b, c);
    SincosSteps(env, st, Src(p, k), Chunk([OPEN] + Text(a), s1, first), Chunk(Text(b), s2, second),
                Chunk(Text(c), LeftList(env, p.c, s2), close));
  }

  /** From the name of the method to the token in front of the coordinates. */
  lemma CallHeadOver(env: Env, st: State, n: string, q: seq<Token>, rest: seq<Token>, k: seq<Token>)
    requires |q| == 3 || |q| == 5
    requires q[2].text == "(" && Squeezed(rest) == q[2..] && k != [] && !k[0].Blank?
    requires var f := FunctionOf(TypeOf(env.params, n), q[1].text);
      f != NoFunction && f.sampled == (|q| == 5)
    requires |q| == 5 ==> SamplerId(env.samplers, q[3].text) < |env.samplers| && q[4].text == ","
    ensures var w := WriteTextureCall(env, st, n, [q[1]] + (rest + k));
      && w.Written? && Next(w.chunk.rest) == k
      && w.chunk.text == [Name(FunctionOf(TypeOf(env.params, n), q[1].text).call), OPEN, Name(n), COMMA, SPACE]
      && w.chunk.state == if |q| == 5 then st.(bound := st.bound[n := SamplerId(env.samplers, q[3].text)]) else st
  {
    var ts := [q[1]] + (rest + k);
    var l3 := Behind(rest);
    NextOverLead(q[1], rest, k);
    hide Next, Squeezed, FunctionOf, TypeOf, SamplerId, WriteTextureCall;
    if |q| == 5 {
      NextOverLead(q[2], l3, k);
      var l4 := Behind(l3);
      NextOverLead(q[3], l4, k);
      NextOverGap(q[4], Behind(l4), k);
      SampledHead(env, st, n, ts);
    } else {
      NextOverGap(q[2], l3, k);
      LoadHead(env, st, n, ts);
    }
  }

  lemma SampledHead(env: Env, st: State, n: string, ts: seq<Token>)
    requires ts != [] && Is(Next(ts), "(") && Next(Next(ts)) != [] && Is(Next(Next(Next(ts))), ",")
    requires var f := FunctionOf(TypeOf(env.params, n), ts[0].text);
      f != NoFunction && f.sampled
    requires SamplerId(env.samplers, Next(Next(ts))[0].text) < |env.samplers|
    ensures var call := FunctionOf(TypeOf(env.params, n), ts[0].text).call;
      WriteTextureCall(env, st, n, ts)
      == Written(Chunk([Name(call), OPEN, Name(n), COMMA, SPACE],
                       st.(bound := st.bound[n := SamplerId(env.samplers, Next(Next(ts))[0].text)]),
                       Next(Next(Next(ts)))))
  {
    hide Next, FunctionOf, TypeOf, SamplerId;
  }

  lemma LoadHead(env: Env, st: State, n: string, ts: seq<Token>)
    requires ts != [] && Is(Next(ts), "(")
    requires var f := FunctionOf(TypeOf(env.params, n), ts[0].text);
      f != NoFunction && !f.sampled
    ensures var call := FunctionOf(TypeOf(env.params, n), ts[0].text).call;
      WriteTextureCall(env, st, n, ts) == Written(Chunk([Name(call), OPEN, Name(n), COMMA, SPACE], st, Next(ts)))
  {
    hide Next, FunctionOf, TypeOf, SamplerId;
  }

  /** From the texture's name to its coordinates. */
  lemma LeadOver(env: Env, st: State, n: string, lead: seq<Token>, k: seq<Token>)
    requires ProperLead(env, n, lead) && k != [] && !k[0].Blank?
    ensures var ts := [Name(n)] + (lead + k);
      && Is(Next(ts), ".") && Next(Next(ts)) != []
      && var w := WriteTextureCall(env, st, n, Next(Next(ts)));
      && w.Written? && w.chunk.text == [Name(CallOf(env, n, lead)), OPEN, Name(n), COMMA, SPACE]
      && w.chunk.state == st.(bound := BoundBy(env, n, lead, st.bound)) && Next(w.chunk.rest) == k
  {
    var q := Squeezed(lead);
    var l1 := Behind(lead);
    NextOverLead(Name(n), lead, k);
    NextOverLead(q[0], l1, k);
    hide Next, Squeezed, FunctionOf, TypeOf, SamplerId, WriteTextureCall;
    CallHeadOver(env, st, n, q, Behind(l1), k);
  }

  lemma TextureSteps(env: Env, st: State, ts: seq<Token>, call: Chunk, c: Chunk)
    requires ts != [] && Is(Next(ts), ".") && Next(Next(ts)) != []
    requires WriteTextureCall(env, st, ts[0].text, Next(Next(ts))) == Written(call) && Next(call.rest) != []
    requires Contents(env, call.state, Next(call.rest), ")") == c
    ensures WriteTexture(env, st, ts) == Written(Chunk(call.text + c.text + [CLOSE], c.state, Tail(c.rest)))
  {
    hide Contents, WriteTextureCall, Next;
  }

  lemma {:induction false} TextureOver(env: Env, st: State, p: Piece, k: seq<Token>)
    requires p.Texture? && Proper(env, p)
    ensures WriteIntrinsic(env, st, Src(p, k)) == Written(Chunk(Text(Image(env, p, st)), Left(env, p, st), k))
    decreases p, 1
  {
    var close := [CLOSE] + k;
    var cs := SrcList(p.coords, close);
    var s := st.(bound := BoundBy(env, p.name, p.lead, st.bound));
    var c := ImageList(env, p.coords, s);
    var call := CallOf(env, p.name, p.lead);
    assert Src(p, k) == [Name(p.name)] + (p.lead + cs) && Tail(close) == k && EndsAt(close, ")");
    assert Image(env, p, st) == Sampling(call, p.name, c) && Left(env, p, st) == LeftList(env, p.coords, s);
    Starts(env, p.coords, true, close);
    LeadOver(env, st, p.name, p.lead, cs);
    Dispatch(env, st, Src(p, k));
    hide *;
    LaterOperand(env, s, p.coords, close, ")");
    ImageListIsPlain(env, p.coords, true, s);
    SamplingText(call, p.name, c);
    TextureSteps(env, st, Src(p, k), WriteTextureCall(env, st, p.name, Next(Next(Src(p, k)))).chunk,
                 Chunk(Text(c), LeftList(env, p.coords, s), close));
  }

  lemma LeafOver(env: Env, st: State, t: Token, k: seq<Token>)
    requires Proper(env, Leaf(t)) && Bare(env, t, k)
    ensures Item(env, st, Src(Leaf(t), k)) == Chunk(Text(Image(env, Leaf(t), st)), st, k)
  {
    var image := if t.Name? then Name(Spelled(t.text)) else t;
    var ts := [t] + k;
    assert ts[1..] == k;
    LeavesText([image]);
    assert Leaves([image]) == [Leaf(image)];
    if t.Name? {
      NameOver(env, st, t, k);
      assert Item(env, st, ts) == WriteName(env, st, ts);
    }
    hide Text, WriteName;
  }

  lemma NameOver(env: Env, st: State, t: Token, k: seq<Token>)
    requires t.Name? && Bare(env, t, k)
    ensures WriteName(env, st, [t] + k) == Chunk([Name(Spelled(t.text))], st, k)
  {
    var ts := [t] + k;
    assert ts[1..] == k && Next(ts) == SkipBlanks(k);
    hide TypeName, Renamed;
    if TypeName(t.text) == "" && Renamed(t.text) == "" {
      BareIsUnwritten(env, st, t, k);
      hide WriteIntrinsic;
    } else if TypeName(t.text) == "" {
      assert WriteIntrinsic(env, st, ts) == Written(Chunk([Name(Renamed(t.text))], st, k));
    }
  }

  lemma BareIsUnwritten(env: Env, st: State, t: Token, k: seq<Token>)
    requires t.Name? && Bare(env, t, k) && TypeName(t.text) == "" && Renamed(t.text) == ""
    ensures WriteIntrinsic(env, st, [t] + k) == Unwritten([], st)
  {
    var ts := [t] + k;
    assert ts[1..] == k && Next(ts) == SkipBlanks(k);
    hide TypeName, Renamed, IsTexture, Contents, WriteTextureCall, Next;
  }

  // ---------------------------------------------------------------------------------------------------------
  // Bodies

  /** Between the braces of a body, whatever follows them, the writer reads exactly the body's tokens. It writes the
      image of the body, numbers the variables of `sincos` in order, and binds the textures. */
  lemma BodyIsExact(env: Env, st: State, body: seq<Piece>, k: seq<Token>)
    requires ProperList(env, body, true)
    ensures Contents(env, st, [BEGIN] + SrcList(body, [END] + k), "}")
         == Chunk([BEGIN] + Text(ImageList(env, body, st)), LeftList(env, body, st), [END] + k)
  {
    FirstOperand(env, st, BEGIN, body, [END] + k, "}");
  }

  /** A reader of text that knows nothing but brackets. It fails on brackets that do not match. */
  function Read(ts: seq<Token>): (r: Result<(seq<Piece>, seq<Token>)>)
    ensures r.Ok? ==> |r.value.1| <= |ts|
    decreases |ts|
  {
    if ts == [] || ts[0] == CLOSE || ts[0] == END then Ok(([], ts))
    else if ts[0] == OPEN || ts[0] == BEGIN then
      var (inner, rest) :- Read(ts[1..]);
      if rest == [] || rest[0] != Closing(ts[0]) then Thrown
      else
        var (more, end) :- Read(rest[1..]);
        Ok(([Group(ts[0], inner)] + more, end))
    else
      var (more, end) :- Read(ts[1..]);
      Ok(([Leaf(ts[0])] + more, end))
  }

  lemma {:induction false} ReadText(ps: seq<Piece>, k: seq<Token>)
    requires Plain(ps) && (k == [] || k[0] == CLOSE || k[0] == END)
    ensures Read(SrcList(ps, k)) == Ok((ps, k))
  {
    if ps != [] {
      var rest := SrcList(ps[1..], k);
      ReadText(ps[1..], k);
      assert ps == [ps[0]] + ps[1..];
      assert SrcList(ps, k) == Src(ps[0], rest);
      match ps[0]
      case Leaf(t) => assert Src(ps[0], rest)[1..] == rest;
      case Group(o, body) =>
        ReadText(body, [Closing(o)] + rest);
        ReadGroup(o, body, ps[1..], rest, k);
    }
  }

  lemma ReadGroup(o: Token, body: seq<Piece>, more: seq<Piece>, rest: seq<Token>, k: seq<Token>)
    requires o == OPEN || o == BEGIN
    requires Read(SrcList(body, [Closing(o)] + rest)) == Ok((body, [Closing(o)] + rest)) && Read(rest) == Ok((more, k))
    ensures Read(Src(Group(o, body), rest)) == Ok(([Group(o, body)] + more, k))
  {
    var close := [Closing(o)] + rest;
    var ts := Src(Group(o, body), rest);
    assert close[1..] == rest && ts[1..] == SrcList(body, close);
    hide SrcList;
  }

  /** The written text is balanced, and its brackets are those of the image. */
  lemma OutputIsBalanced(env: Env, st: State, body: seq<Piece>, k: seq<Token>)
    requires ProperList(env, body, true)
    ensures var c := Contents(env, st, [BEGIN] + SrcList(body, [END] + k), "}");
      Read(c.text[1..]) == Ok((ImageList(env, body, st), []))
  {
    BodyIsExact(env, st, body, k);
    ImageListIsPlain(env, body, true, st);
    ReadText(ImageList(env, body, st), []);
    hide ImageList, Read, SrcList, Contents, LeftList;
  }
}
