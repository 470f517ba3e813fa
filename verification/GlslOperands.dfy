/** Exactly which operands the writer gets to the end of, and the variables it makes up. */
module GlslOperands {
  import opened Decimals
  import opened ShaderTokens
  import opened GlslWriter
  import opened GlslPieces
  import opened GlslExactness

  // ---------------------------------------------------------------------------------------------------------
  // Where an operand behind a comma ends

  lemma Longer(ps: seq<Piece>, k: seq<Token>)
    ensures |SrcList(ps, k)| >= |k| + |ps|
  {
    if ps != [] {
      Longer(ps[1..], k);
      LongerPiece(ps[0], SrcList(ps[1..], k));
    }
  }

  lemma LongerPiece(p: Piece, k: seq<Token>)
    ensures |Src(p, k)| > |k|
    decreases p, 0
  {
    var close := [CLOSE] + k;
    match p
    case Leaf(_) =>
    case Group(o, body) => Longer(body, [Closing(o)] + k);
    case Mul(_, a, gb, b) =>
      Longer(b, close);
      Longer(a, [COMMA] + (gb + SrcList(b, close)));
    case Mad(_, a, gb, b, gc, c) =>
      var second := [COMMA] + (gc + SrcList(c, close));
      Longer(c, close);
      Longer(b, second);
      Longer(a, [COMMA] + (gb + SrcList(b, second)));
    case Saturate(_, a) => Longer(a, close);
    case Sincos(_, a, gb, b, gc, c) =>
      var second := [COMMA] + (gc + SrcList(c, close));
      Longer(c, close);
      Longer(b, second);
      Longer(a, [COMMA] + (gb + SrcList(b, second)));
    case Texture(_, _, coords) => Longer(coords, close);
  }

  /** The last operand of `mul`, `mad` or `sincos`, and the coordinates of a texture: the writer reaches the call's
      closing parenthesis if and only if they do not begin with a parenthesis. If they do, it takes the parenthesis
      that closes that one for the end of the call. */
  lemma LastOperandIsExact(env: Env, st: State, ps: seq<Piece>, k: seq<Token>)
    requires ps != [] && !StartsBlank(ps) && ProperList(env, ps, true) && EndsAt(k, ")")
    requires ps[0].Group? ==> ps[0].open == OPEN
    ensures Contents(env, st, SrcList(ps, k), ")").rest == k <==> !ps[0].Group?
    ensures ps[0].Group? ==>
      Contents(env, st, SrcList(ps, k), ")") == Chunk([OPEN] + Text(ImageList(env, ps[0].body, st)),
                                                      LeftList(env, ps[0].body, st), [CLOSE] + SrcList(ps[1..], k))
  {
    if ps[0].Group? {
      var close := [CLOSE] + SrcList(ps[1..], k);
      assert SrcList(ps, k) == [OPEN] + SrcList(ps[0].body, close);
      Longer(ps[1..], k);
      FirstOperand(env, st, OPEN, ps[0].body, close, ")");
    } else {
      LaterOperand(env, st, ps, k, ")");
    }
  }

  /** The second operand of `mad` or `sincos`: the writer reaches the comma behind it if and only if it does not begin
      with a parenthesis that holds a comma of its own. */
  lemma MiddleOperandIsExact(env: Env, st: State, ps: seq<Piece>, k: seq<Token>)
    requires ps != [] && !StartsBlank(ps) && ProperList(env, ps, false) && EndsAt(k, ",")
    requires ps[0].Group? ==> ps[0].open == OPEN
    ensures Contents(env, st, SrcList(ps, k), ",").rest == k
        <==> (ps[0].Group? ==> ProperList(env, ps[0].body, false))
  {
    if ps[0].Group? && !ProperList(env, ps[0].body, false) {
      var close := [CLOSE] + SrcList(ps[1..], k);
      assert SrcList(ps, k) == [OPEN] + SrcList(ps[0].body, close);
      Longer(ps[1..], k);
      RawStart(env, st, OPEN, SrcList(ps[0].body, close), ",");
      StopsAtComma(env, st, ps[0].body, close);
    } else {
      LaterOperand(env, st, ps, k, ",");
    }
  }

  lemma {:induction false} StopsAtComma(env: Env, st: State, ps: seq<Piece>, k: seq<Token>)
    requires ProperList(env, ps, true) && !ProperList(env, ps, false) && Follows(k)
    ensures |Loop(env, st, SrcList(ps, k), ",").rest| > |k|
    decreases ps
  {
    var p := ps[0];
    var rest := SrcList(ps[1..], k);
    Longer(ps, k);
    if p.Leaf? && p.tok.text == "," {
      assert SrcList(ps, k) == [p.tok] + rest;
    } else {
      if p.Leaf? {
        BareInContext(env, p.tok, ps[1..], true, k);
      }
      ItemOver(env, st, p, rest);
      FirstToken(env, p, rest, ",");
      LoopStep(env, st, Src(p, rest), ",");
      StopsAtComma(env, Left(env, p, st), ps[1..], k);
      hide Item, Loop, Src, Proper, Bare, Left, Image;
    }
  }

  /** The pieces of `mul(a, (b) tail)` as it is written: the tail behind the product instead of inside it. */
  function Escaped(a: seq<Piece>, b: seq<Piece>, tail: seq<Piece>): seq<Piece> {
    [Group(OPEN, [Group(OPEN, a)] + STAR + [Group(OPEN, [Group(OPEN, b)])] + tail)]
  }

  /** What `mul` with a last operand that begins with a parenthesis becomes. The call's own parenthesis closes the
      bracket of the product; inside other parentheses it ends what those enclose. */
  lemma OperandTailEscapes(env: Env, st: State, p: Piece, b: seq<Piece>, tail: seq<Piece>, k: seq<Token>, end: string)
    requires p.Mul? && p.b == [Group(OPEN, b)] + tail && Blanks(p.gap) && Blanks(p.gapB)
    requires ProperList(env, p.a, false) && ProperList(env, b, true) && ProperList(env, tail, end != ",") && Stop(end)
    ensures var s1 := LeftList(env, p.a, st);
      var s2 := LeftList(env, b, s1);
      var text := Text(Escaped(ImageList(env, p.a, st), ImageList(env, b, s1), ImageList(env, tail, s2)));
      text != [] && Loop(env, st, Src(p, k), end) == Overrun(env, text, LeftList(env, tail, s2), k, end)
  {
    var s1 := LeftList(env, p.a, st);
    var s2 := LeftList(env, b, s1);
    var s3 := LeftList(env, tail, s2);
    var ai, bi, ti := ImageList(env, p.a, st), ImageList(env, b, s1), ImageList(env, tail, s2);
    var close := [CLOSE] + k;
    EscapedItem(env, st, p, b, tail, k);
    LoopOver(env, s2, tail, close, end);
    LoopStep(env, st, Src(p, k), end);
    ImageListIsPlain(env, p.a, false, st);
    ImageListIsPlain(env, b, true, s1);
    ImageListIsPlain(env, tail, end != ",", s2);
    EscapedText(ai, bi, ti);
    hide *;
    OwnParenthesis(env, s3, Text(ti), k, end);
    OverrunBehind(env, ProductStart(Text(ai), Text(bi)), Text(ti) + [CLOSE], s3, k, end);
  }

  function ProductStart(a: seq<Token>, b: seq<Token>): seq<Token> {
    [OPEN] + ([OPEN] + a) + TIMES + ([OPEN] + b) + [CLOSE, CLOSE]
  }

  lemma EscapedItem(env: Env, st: State, p: Piece, b: seq<Piece>, tail: seq<Piece>, k: seq<Token>)
    requires p.Mul? && p.b == [Group(OPEN, b)] + tail && Blanks(p.gap) && Blanks(p.gapB)
    requires ProperList(env, p.a, false) && ProperList(env, b, true)
    ensures var s1 := LeftList(env, p.a, st);
      && Src(p, k) != [] && Src(p, k)[0] == Name("mul")
      && Item(env, st, Src(p, k))
         == Chunk(ProductStart(Text(ImageList(env, p.a, st)), Text(ImageList(env, b, s1))), LeftList(env, b, s1),
                  SrcList(tail, [CLOSE] + k))
  {
    var s1 := LeftList(env, p.a, st);
    var inside := [CLOSE] + SrcList(tail, [CLOSE] + k);
    var comma := [COMMA] + (p.gapB + ([OPEN] + SrcList(b, inside)));
    assert Tail(inside) == SrcList(tail, [CLOSE] + k);
    assert EndsAt(inside, ")") && EndsAt(comma, ",") && TypeName("mul") == "";
    EscapedCursor(p, b, tail, k);
    hide *;
    FirstOperand(env, st, OPEN, p.a, comma, ",");
    FirstOperand(env, s1, OPEN, b, inside, ")");
    Dispatch(env, st, Src(p, k));
    MulSteps(env, st, Src(p, k), Chunk([OPEN] + Text(ImageList(env, p.a, st)), s1, comma),
             Chunk([OPEN] + Text(ImageList(env, b, s1)), LeftList(env, b, s1), inside));
    Rewritten(env, st, Src(p, k));
    ProductStartIs(Text(ImageList(env, p.a, st)), Text(ImageList(env, b, s1)));
  }

  lemma ProductStartIs(a: seq<Token>, b: seq<Token>)
    ensures ProductStart(a, b) == [OPEN] + ([OPEN] + a) + TIMES + ([OPEN] + b) + [CLOSE, CLOSE]
  {
  }

  lemma EscapedCursor(p: Piece, b: seq<Piece>, tail: seq<Piece>, k: seq<Token>)
    requires p.Mul? && p.b == [Group(OPEN, b)] + tail && Blanks(p.gap) && Blanks(p.gapB)
    ensures var bs := [OPEN] + SrcList(b, [CLOSE] + SrcList(tail, [CLOSE] + k));
      var comma := [COMMA] + (p.gapB + bs);
      && Src(p, k) != [] && Src(p, k)[0] == Name("mul")
      && Next(Src(p, k)) == [OPEN] + SrcList(p.a, comma) && Next(comma) == bs && Is(Next(Src(p, k)), "(")
  {
    var rest := SrcList(tail, [CLOSE] + k);
    var bs := [OPEN] + SrcList(b, [CLOSE] + rest);
    assert p.b[1..] == tail;
    assert SrcList(p.b, [CLOSE] + k) == Src(Group(OPEN, b), rest) == bs;
    NextOverGap(Name("mul"), p.gap, [OPEN] + SrcList(p.a, [COMMA] + (p.gapB + bs)));
    NextOverGap(COMMA, p.gapB, bs);
    hide SrcList, Next, Blanks;
  }

  lemma EscapedText(a: seq<Piece>, b: seq<Piece>, tail: seq<Piece>)
    requires Plain(a) && Plain(b) && Plain(tail)
    ensures Text(Escaped(a, b, tail)) == ProductStart(Text(a), Text(b)) + (Text(tail) + [CLOSE])
  {
    var q := [Group(OPEN, a)] + STAR + [Group(OPEN, [Group(OPEN, b)])];
    var star := [SPACE, Other("*"), SPACE];
    ConstantText();
    hide Plain, Text;
    GroupText(OPEN, a);
    GroupText(OPEN, b);
    TextAppend([Group(OPEN, a)], STAR);
    Bracketed([Group(OPEN, a)] + STAR, [Group(OPEN, b)]);
    TextAppend(q, tail);
    GroupText(OPEN, q + tail);
    EscapedTokens(Text(a), Text(b), Text(tail));
  }

  lemma EscapedTokens(a: seq<Token>, b: seq<Token>, tail: seq<Token>)
    ensures [OPEN] + (([OPEN] + a + [CLOSE]) + [SPACE, Other("*"), SPACE] + ([OPEN] + ([OPEN] + b + [CLOSE]) + [CLOSE])
                      + tail) + [CLOSE]
         == ProductStart(a, b) + (tail + [CLOSE])
  {
    var star := [SPACE, Other("*"), SPACE];
    assert [CLOSE] + star + [OPEN] == TIMES;
    assert [OPEN] + (([OPEN] + a + [CLOSE]) + star + ([OPEN] + ([OPEN] + b + [CLOSE]) + [CLOSE]))
        == ProductStart(a, b);
  }

  // ---------------------------------------------------------------------------------------------------------
  // The variables of `sincos`

  lemma {:induction false} DigitsInjective(m: nat, n: nat)
    requires Digits(m) == Digits(n)
    ensures m == n
  {
    DigitsNonempty(m);
    DigitsNonempty(n);
    if m >= 10 && n >= 10 {
      var a, b := Digits(m), Digits(n);
      assert a[..|a| - 1] == Digits(m / 10) && b[..|b| - 1] == Digits(n / 10);
      assert a[|a| - 1] == b[|b| - 1];
      DigitsInjective(m / 10, n / 10);
    } else if m >= 10 {
      DigitsNonempty(m / 10);
    } else if n >= 10 {
      DigitsNonempty(n / 10);
    }
  }

  lemma DigitsNonempty(n: nat)
    ensures |Digits(n)| > 0
  {
  }

  lemma NamesDiffer(m: nat, n: nat)
    ensures SincosName(m) == SincosName(n) <==> m == n
  {
    if SincosName(m) == SincosName(n) {
      var prefix := "sincos_var_internal_";
      assert SincosName(m).text[|prefix|..] == Digits(m) && SincosName(n).text[|prefix|..] == Digits(n);
      DigitsInjective(m, n);
    }
  }

  /** The source does not use the names reserved for these variables. */
  predicate Reserved(t: Token) {
    t.Name? && "sincos_var_internal_" <= t.text
  }

  predicate Unreserved(p: Piece) {
    match p
    case Leaf(t) => !Reserved(t)
    case Group(_, body) => UnreservedList(body)
    case Mul(_, a, _, b) => UnreservedList(a) && UnreservedList(b)
    case Mad(_, a, _, b, _, c) => UnreservedList(a) && UnreservedList(b) && UnreservedList(c)
    case Saturate(_, a) => UnreservedList(a)
    case Sincos(_, a, _, b, _, c) => UnreservedList(a) && UnreservedList(b) && UnreservedList(c)
    case Texture(n, _, coords) => !Reserved(Name(n)) && UnreservedList(coords)
  }

  predicate UnreservedList(ps: seq<Piece>) {
    ps == [] || (Unreserved(ps[0]) && UnreservedList(ps[1..]))
  }

  /** How often a token occurs in written pieces. */
  ghost function Occurs(ps: seq<Piece>, v: Token): nat {
    if ps == [] then 0 else OccursIn(ps[0], v) + Occurs(ps[1..], v)
  }

  ghost function OccursIn(p: Piece, v: Token): nat {
    match p
    case Leaf(t) => if t == v then 1 else 0
    case Group(_, body) => Occurs(body, v)
    case _ => 0
  }

  lemma OccursInText(ps: seq<Piece>, v: Token)
    requires Plain(ps) && !IsBracket(v)
    ensures multiset(Text(ps))[v] == Occurs(ps, v)
  {
    if ps != [] {
      OccursInText(ps[1..], v);
      if ps[0].Group? {
        OccursInText(ps[0].body, v);
        GroupText(ps[0].open, ps[0].body);
      } else {
        LeafText(ps[0].tok);
      }
      assert ps == [ps[0]] + ps[1..];
      TextAppend([ps[0]], ps[1..]);
      hide Text;
    }
  }

  lemma OccursAppend(a: seq<Piece>, b: seq<Piece>, v: Token)
    ensures Occurs(a + b, v) == Occurs(a, v) + Occurs(b, v)
  {
    if a == [] {
      assert a + b == b;
    } else {
      assert (a + b)[1..] == a[1..] + b;
      OccursAppend(a[1..], b, v);
    }
  }

  lemma OccursOnce(p: Piece, v: Token)
    ensures Occurs([p], v) == OccursIn(p, v)
  {
    assert [p][1..] == [];
  }

  lemma OccursInBracket(o: Token, body: seq<Piece>, v: Token)
    ensures Occurs([Group(o, body)], v) == Occurs(body, v)
  {
    OccursOnce(Group(o, body), v);
  }

  lemma OccursInLeaves(ts: seq<Token>, v: Token)
    requires v !in ts
    ensures Occurs(Leaves(ts), v) == 0
  {
    if ts != [] {
      assert Leaves(ts)[1..] == Leaves(ts[1..]);
      OccursInLeaves(ts[1..], v);
    }
  }

  /** Around bracketed operands, only operators are written. */
  lemma OccursInBracketed(q: seq<Piece>, a: seq<Piece>, v: Token)
    ensures Occurs(q + [Group(OPEN, a)], v) == Occurs(q, v) + Occurs(a, v)
  {
    OccursAppend(q, [Group(OPEN, a)], v);
    OccursOnce(Group(OPEN, a), v);
  }

  lemma OccursInConstants(v: Token)
    requires Reserved(v)
    ensures Occurs(STAR, v) == Occurs(CROSS, v) == Occurs(BOUNDS, v) == 0
  {
    OccursInLeaves([SPACE, Other("*"), SPACE], v);
    OccursInLeaves([SPACE, Other("+"), SPACE], v);
    OccursInLeaves([COMMA, SPACE, Number("0.0"), COMMA, SPACE, Number("1.0")], v);
    assert STAR == Leaves([SPACE, Other("*"), SPACE]);
    assert CROSS == Leaves([SPACE, Other("+"), SPACE]);
    assert BOUNDS == Leaves([COMMA, SPACE, Number("0.0"), COMMA, SPACE, Number("1.0")]);
  }

  lemma OccursInProducts(a: seq<Piece>, b: seq<Piece>, c: seq<Piece>, v: Token)
    requires Reserved(v)
    ensures Occurs(Product(a, b), v) == Occurs(a, v) + Occurs(b, v)
    ensures Occurs(ProductSum(a, b, c), v) == Occurs(a, v) + Occurs(b, v) + Occurs(c, v)
  {
    var q := [Group(OPEN, a)] + STAR + [Group(OPEN, b)];
    OccursInConstants(v);
    OccursOnce(Group(OPEN, a), v);
    OccursAppend([Group(OPEN, a)], STAR, v);
    OccursInBracketed([Group(OPEN, a)] + STAR, b, v);
    OccursOnce(Group(OPEN, q), v);
    OccursAppend(q, CROSS, v);
    OccursInBracketed(q + CROSS, c, v);
    OccursOnce(Group(OPEN, q + CROSS + [Group(OPEN, c)]), v);
    hide Occurs;
  }

  lemma OccursInClamp(a: seq<Piece>, v: Token)
    requires Reserved(v)
    ensures Occurs(Clamp(a), v) == Occurs(a, v)
  {
    OccursInConstants(v);
    OccursAppend(a, BOUNDS, v);
    OccursOnce(Leaf(Name("clamp")), v);
    OccursInBracketed([Leaf(Name("clamp"))], a + BOUNDS, v);
    assert Clamp(a) == [Leaf(Name("clamp"))] + [Group(OPEN, a + BOUNDS)];
    hide Occurs;
  }

  lemma OccursInSampling(call: string, texture: string, coords: seq<Piece>, v: Token)
    requires Reserved(v) && v.text != texture && v.text != call
    ensures Occurs(Sampling(call, texture, coords), v) == Occurs(coords, v)
  {
    var first := [Name(texture), COMMA, SPACE];
    OccursInLeaves(first, v);
    OccursAppend(Leaves(first), coords, v);
    OccursOnce(Leaf(Name(call)), v);
    OccursInBracketed([Leaf(Name(call))], Leaves(first) + coords, v);
    assert Sampling(call, texture, coords) == [Leaf(Name(call))] + [Group(OPEN, Leaves(first) + coords)];
    hide Occurs;
  }

  lemma OccursInAssignment(q: seq<Piece>, f: string, w: Token, v: Token)
    requires Reserved(v) && v.text != f
    ensures Occurs(q + Leaves(ASSIGN + [Name(f)]) + [Group(OPEN, [Leaf(w)])], v)
         == Occurs(q, v) + if w == v then 1 else 0
  {
    OccursInLeaves(ASSIGN + [Name(f)], v);
    OccursOnce(Leaf(w), v);
    hide Occurs;
    OccursAppend(q, Leaves(ASSIGN + [Name(f)]), v);
    OccursInBracketed(q + Leaves(ASSIGN + [Name(f)]), [Leaf(w)], v);
  }

  lemma OccursInSineAndCosine(w: Token, a: seq<Piece>, b: seq<Piece>, c: seq<Piece>, v: Token)
    requires Reserved(v)
    ensures Occurs(SineAndCosine(w, a, b, c), v)
         == Occurs(a, v) + Occurs(b, v) + Occurs(c, v) + if w == v then 3 else 0
  {
    var end := [SEMICOLON, SPACE];
    var q1 := Leaves(Declares(w)) + [Group(OPEN, a)] + Leaves(end);
    var q2 := q1 + b;
    var q3 := q2 + Leaves(ASSIGN + [Name("sin")]) + [Group(OPEN, [Leaf(w)])];
    var q4 := q3 + Leaves(end) + c;
    OccursInLeaves(end, v);
    OccursInDeclares(w, v);
    assert SineAndCosine(w, a, b, c) == q4 + Leaves(ASSIGN + [Name("cos")]) + [Group(OPEN, [Leaf(w)])];
    hide Occurs, SineAndCosine;
    OccursInBracketed(Leaves(Declares(w)), a, v);
    OccursAppend(Leaves(Declares(w)) + [Group(OPEN, a)], Leaves(end), v);
    OccursAppend(q1, b, v);
    OccursInAssignment(q2, "sin", w, v);
    OccursAppend(q3, Leaves(end), v);
    OccursAppend(q3 + Leaves(end), c, v);
    OccursInAssignment(q4, "cos", w, v);
  }

  lemma OccursInDeclares(w: Token, v: Token)
    requires Reserved(v)
    ensures Occurs(Leaves(Declares(w)), v) == if w == v then 1 else 0
  {
    var before, after := [Name("float"), SPACE], ASSIGN;
    OccursInLeaves(before, v);
    OccursInLeaves(after, v);
    OccursOnce(Leaf(w), v);
    OccursAppend(Leaves(before), [Leaf(w)], v);
    OccursAppend(Leaves(before) + [Leaf(w)], Leaves(after), v);
    assert Leaves(Declares(w)) == Leaves(before) + [Leaf(w)] + Leaves(after);
    hide Occurs;
  }

  ghost function Expected(from: nat, to: nat, j: nat): nat {
    if from <= j < to then 3 else 0
  }

  /** Every `sincos` gets a variable of its own: each number handed out belongs to exactly one declaration, one sine
      and one cosine, and no other number occurs. */
  lemma VariablesAreFresh(env: Env, body: seq<Piece>, st: State, j: nat)
    requires ProperList(env, body, true) && UnreservedList(body)
    ensures multiset(Text(ImageList(env, body, st)))[SincosName(j)]
         == Expected(st.sincos, LeftList(env, body, st).sincos, j)
  {
    ImageListIsPlain(env, body, true, st);
    OccursInText(ImageList(env, body, st), SincosName(j));
    FreshInList(env, body, true, st, j);
  }

  lemma {:induction false} FreshInList(env: Env, ps: seq<Piece>, commas: bool, st: State, j: nat)
    requires ProperList(env, ps, commas) && UnreservedList(ps)
    ensures Occurs(ImageList(env, ps, st), SincosName(j)) == Expected(st.sincos, LeftList(env, ps, st).sincos, j)
    decreases ps
  {
    if ps != [] {
      var s := Left(env, ps[0], st);
      FreshInPiece(env, ps[0], st, j);
      FreshInList(env, ps[1..], commas, s, j);
      OccursAppend(Image(env, ps[0], st), ImageList(env, ps[1..], s), SincosName(j));
      hide Image, Occurs, SincosName;
    }
  }

  lemma {:induction false} FreshInPiece(env: Env, p: Piece, st: State, j: nat)
    requires Proper(env, p) && Unreserved(p)
    ensures Occurs(Image(env, p, st), SincosName(j)) == Expected(st.sincos, Left(env, p, st).sincos, j)
    decreases p
  {
    var v := SincosName(j);
    NamesDiffer(st.sincos, j);
    ReservedName(j);
    hide SincosName, Product, ProductSum, Clamp, Sampling, SineAndCosine, ProperList, Occurs, CallOf;
    if p.Leaf? {
      LeafNotReserved(p.tok, v);
      OccursOnce(Leaf(if p.tok.Name? then Name(Spelled(p.tok.text)) else p.tok), v);
      return;
    }
    hide OccursIn, Spelled, Reserved;
    match p
    case Leaf(_) =>
    case Group(o, body) =>
      OccursInBracket(o, ImageList(env, body, st), v);
      FreshInList(env, body, true, st, j);
    case Mul(_, a, _, b) =>
      var s1 := LeftList(env, a, st);
      FreshInList(env, a, false, st, j);
      FreshInList(env, b, true, s1, j);
      OccursInProducts(ImageList(env, a, st), ImageList(env, b, s1), [], v);
    case Mad(_, a, _, b, _, c) =>
      var s1 := LeftList(env, a, st);
      var s2 := LeftList(env, b, s1);
      FreshInList(env, a, false, st, j);
      FreshInList(env, b, false, s1, j);
      FreshInList(env, c, true, s2, j);
      OccursInProducts(ImageList(env, a, st), ImageList(env, b, s1), ImageList(env, c, s2), v);
    case Saturate(_, a) =>
      FreshInList(env, a, true, st, j);
      OccursInClamp(ImageList(env, a, st), v);
    case Sincos(_, a, _, b, _, c) =>
      var s0 := st.(sincos := st.sincos + 1);
      var s1 := LeftList(env, a, s0);
      var s2 := LeftList(env, b, s1);
      FreshInList(env, a, false, s0, j);
      FreshInList(env, b, false, s1, j);
      FreshInList(env, c, true, s2, j);
      OccursInSineAndCosine(SincosName(st.sincos), ImageList(env, a, s0), ImageList(env, b, s1),
                            ImageList(env, c, s2), v);
    case Texture(n, lead, coords) =>
      var s := st.(bound := BoundBy(env, n, lead, st.bound));
      FreshInList(env, coords, true, s, j);
      CallNotReserved(env, n, lead, v);
      OccursInSampling(CallOf(env, n, lead), n, ImageList(env, coords, s), v);
  }

  lemma LeafNotReserved(t: Token, v: Token)
    requires Reserved(v) && !Reserved(t)
    ensures v != if t.Name? then Name(Spelled(t.text)) else t
  {
  }

  lemma CallNotReserved(env: Env, n: string, lead: seq<Token>, v: Token)
    requires Reserved(v)
    ensures v.text != CallOf(env, n, lead) && (!Reserved(Name(n)) ==> v.text != n)
  {
    hide Squeezed, TypeOf;
  }

  lemma ReservedName(j: nat)
    ensures Reserved(SincosName(j))
  {
    assert SincosName(j).text[..20] == "sincos_var_internal_";
  }
}
