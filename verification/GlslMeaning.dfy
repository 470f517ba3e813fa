/** What the written expressions mean: parsed with the usual precedences, the output is the input with `mul` and `mad`
    as parenthesised products and sums, and has the same value. */
module GlslMeaning {
  import opened ShaderTokens
  import opened GlslWriter
  import opened GlslPieces

  datatype Expr =
    | Atom(tok: Token)
    | Paren(e: Expr)
    | Call(f: string, args: seq<Expr>)
    | Field(e: Expr, name: string)
    | Prefix(op: string, e: Expr)
    | Infix(op: string, l: Expr, r: Expr)
    | MulCall(a: Expr, b: Expr)
    | MadCall(a: Expr, b: Expr, c: Expr)
    | SaturateCall(a: Expr)
    | Sampled(texture: string, lead: seq<Token>, args: seq<Expr>)

  // ---------------------------------------------------------------------------------------------------------
  // Blanks do not matter

  function Strip(p: Piece): Piece {
    match p
    case Leaf(_) => p
    case Group(o, body) => Group(o, StripList(body))
    case Mul(_, a, _, b) => Mul([], StripList(a), [], StripList(b))
    case Mad(_, a, _, b, _, c) => Mad([], StripList(a), [], StripList(b), [], StripList(c))
    case Saturate(_, a) => Saturate([], StripList(a))
    case Sincos(_, a, _, b, _, c) => Sincos([], StripList(a), [], StripList(b), [], StripList(c))
    case Texture(n, lead, coords) => Texture(n, lead, StripList(coords))
  }

  function StripList(ps: seq<Piece>): seq<Piece> {
    if ps == [] then []
    else if ps[0].Leaf? && ps[0].tok.Blank? then StripList(ps[1..])
    else [Strip(ps[0])] + StripList(ps[1..])
  }

  // ---------------------------------------------------------------------------------------------------------
  // A precedence parser, for the source and for the output

  /** The binding strength of an operator; what is no operator binds strongest. */
  function Level(p: Piece): (n: nat)
    ensures n <= 3
  {
    if p.Leaf? && p.tok.Other? then
      match p.tok.text
      case "<" => 0
      case ">" => 0
      case "+" => 1
      case "-" => 1
      case "*" => 2
      case "/" => 2
      case "%" => 2
      case _ => 3
    else 3
  }

  /** The last infix operator of this level, or 0. An operator that follows another one is a prefix. */
  function LastInfix(ps: seq<Piece>, level: nat): (i: nat)
    requires level < 3
    ensures i > 0 ==> i < |ps| && Level(ps[i]) == level
  {
    if |ps| < 2 then 0
    else if Level(ps[|ps| - 1]) == level && Level(ps[|ps| - 2]) == 3 then |ps| - 1
    else LastInfix(ps[..|ps| - 1], level)
  }

  predicate IsComma(p: Piece) {
    p == Leaf(COMMA)
  }

  function FirstComma(ps: seq<Piece>): (i: nat)
    ensures i <= |ps| && (i < |ps| ==> IsComma(ps[i]))
  {
    if ps == [] || IsComma(ps[0]) then 0 else 1 + FirstComma(ps[1..])
  }

  function Parse(ps: seq<Piece>): Result<Expr>
    decreases ps, 5
  {
    ParseInfix(ps, 0)
  }

  function ParseInfix(ps: seq<Piece>, level: nat): Result<Expr>
    requires level <= 3
    decreases ps, 4, 3 - level
  {
    if level == 3 then ParsePrefix(ps)
    else
      var i := LastInfix(ps, level);
      if i == 0 then ParseInfix(ps, level + 1)
      else
        var l :- ParseInfix(ps[..i], level);
        var r :- ParseInfix(ps[i + 1..], level + 1);
        Ok(Infix(ps[i].tok.text, l, r))
  }

  function ParsePrefix(ps: seq<Piece>): Result<Expr>
    decreases ps, 3
  {
    if ps != [] && ps[0] == Leaf(Other("-")) then
      var e :- ParsePrefix(ps[1..]);
      Ok(Prefix("-", e))
    else ParsePostfix(ps)
  }

  predicate EndsInField(ps: seq<Piece>) {
    |ps| >= 3 && ps[|ps| - 2] == Leaf(Other(".")) && ps[|ps| - 1].Leaf? && ps[|ps| - 1].tok.Name?
  }

  function ParsePostfix(ps: seq<Piece>): Result<Expr>
    decreases ps, 2
  {
    if EndsInField(ps) then
      var e :- ParsePostfix(ps[..|ps| - 2]);
      Ok(Field(e, ps[|ps| - 1].tok.text))
    else ParsePrimary(ps)
  }

  function ParsePrimary(ps: seq<Piece>): Result<Expr>
    decreases ps, 1
  {
    if |ps| == 1 then
      match ps[0]
      case Leaf(t) => if t.Name? || t.Number? then Ok(Atom(t)) else Thrown
      case Group(o, body) =>
        if o != OPEN then Thrown
        else
          var e :- Parse(body);
          Ok(Paren(e))
      case Mul(_, a, _, b) =>
        var x :- Parse(a);
        var y :- Parse(b);
        Ok(MulCall(x, y))
      case Mad(_, a, _, b, _, c) =>
        var x :- Parse(a);
        var y :- Parse(b);
        var z :- Parse(c);
        Ok(MadCall(x, y, z))
      case Saturate(_, a) =>
        if FirstComma(a) < |a| then Thrown
        else
          var e :- Parse(a);
          Ok(SaturateCall(e))
      case Sincos(_, _, _, _, _, _) => Thrown
      case Texture(n, lead, coords) =>
        var args :- ParseArgs(coords);
        Ok(Sampled(n, lead, args))
    else if |ps| == 2 && ps[0].Leaf? && ps[0].tok.Name? && ps[1].Group? && ps[1].open == OPEN then
      if ps[1].body == [] then Ok(Call(ps[0].tok.text, []))
      else
        var args :- ParseArgs(ps[1].body);
        Ok(Call(ps[0].tok.text, args))
    else Thrown
  }

  /** One or more arguments. */
  function ParseArgs(ps: seq<Piece>): Result<seq<Expr>>
    decreases ps, 6
  {
    var i := FirstComma(ps);
    if i == |ps| then
      var e :- Parse(ps);
      Ok([e])
    else
      var e :- Parse(ps[..i]);
      var more :- ParseArgs(ps[i + 1..]);
      Ok([e] + more)
  }

  // ---------------------------------------------------------------------------------------------------------
  // Translated expressions

  function Translate(env: Env, e: Expr): Expr {
    match e
    case Atom(t) => Atom(if t.Name? then Name(Spelled(t.text)) else t)
    case Paren(x) => Paren(Translate(env, x))
    case Call(f, args) => Call(Spelled(f), TranslateAll(env, args))
    case Field(x, n) => Field(Translate(env, x), Spelled(n))
    case Prefix(op, x) => Prefix(op, Translate(env, x))
    case Infix(op, l, r) => Infix(op, Translate(env, l), Translate(env, r))
    case MulCall(a, b) => Paren(Infix("*", Paren(Translate(env, a)), Paren(Translate(env, b))))
    case MadCall(a, b, c) =>
      Paren(Infix("+", Infix("*", Paren(Translate(env, a)), Paren(Translate(env, b))), Paren(Translate(env, c))))
    case SaturateCall(a) => Call("clamp", [Translate(env, a), Atom(Number("0.0")), Atom(Number("1.0"))])
    case Sampled(t, lead, args) => Call(CallOf(env, t, lead), [Atom(Name(t))] + TranslateAll(env, args))
  }

  function TranslateAll(env: Env, es: seq<Expr>): (r: seq<Expr>)
    ensures |r| == |es|
  {
    if es == [] then [] else [Translate(env, es[0])] + TranslateAll(env, es[1..])
  }

  /** The image of a piece of an expression, without blanks. */
  function Core(env: Env, p: Piece): seq<Piece> {
    match p
    case Leaf(t) => [Leaf(if t.Name? then Name(Spelled(t.text)) else t)]
    case Group(o, body) => [Group(o, CoreList(env, body))]
    case Mul(_, a, _, b) =>
      [Group(OPEN, [Group(OPEN, CoreList(env, a)), Leaf(Other("*")), Group(OPEN, CoreList(env, b))])]
    case Mad(_, a, _, b, _, c) =>
      [Group(OPEN, [Group(OPEN, CoreList(env, a)), Leaf(Other("*")), Group(OPEN, CoreList(env, b)), Leaf(Other("+")),
                    Group(OPEN, CoreList(env, c))])]
    case Saturate(_, a) =>
      [Leaf(Name("clamp")),
       Group(OPEN, CoreList(env, a) + [Leaf(COMMA), Leaf(Number("0.0")), Leaf(COMMA), Leaf(Number("1.0"))])]
    case Sincos(_, _, _, _, _, _) => []
    case Texture(n, lead, coords) =>
      [Leaf(Name(CallOf(env, n, lead))), Group(OPEN, [Leaf(Name(n)), Leaf(COMMA)] + CoreList(env, coords))]
  }

  function CoreList(env: Env, ps: seq<Piece>): seq<Piece> {
    if ps == [] then [] else Core(env, ps[0]) + CoreList(env, ps[1..])
  }

  predicate NoSincos(p: Piece) {
    match p
    case Leaf(_) => true
    case Group(_, body) => NoSincosIn(body)
    case Mul(_, a, _, b) => NoSincosIn(a) && NoSincosIn(b)
    case Mad(_, a, _, b, _, c) => NoSincosIn(a) && NoSincosIn(b) && NoSincosIn(c)
    case Saturate(_, a) => NoSincosIn(a)
    case Sincos(_, _, _, _, _, _) => false
    case Texture(_, _, coords) => NoSincosIn(coords)
  }

  predicate NoSincosIn(ps: seq<Piece>) {
    ps == [] || (NoSincos(ps[0]) && NoSincosIn(ps[1..]))
  }

  // ---------------------------------------------------------------------------------------------------------
  // The image without its blanks

  lemma StripAppend(a: seq<Piece>, b: seq<Piece>)
    ensures StripList(a + b) == StripList(a) + StripList(b)
  {
    if a == [] {
      assert a + b == b;
    } else {
      assert (a + b)[1..] == a[1..] + b;
      StripAppend(a[1..], b);
    }
  }

  lemma StripOne(p: Piece)
    ensures StripList([p]) == if p.Leaf? && p.tok.Blank? then [] else [Strip(p)]
  {
    assert [p][1..] == [];
  }

  lemma StripConstants()
    ensures StripList(STAR) == [Leaf(Other("*"))] && StripList(CROSS) == [Leaf(Other("+"))]
    ensures StripList(BOUNDS) == [Leaf(COMMA), Leaf(Number("0.0")), Leaf(COMMA), Leaf(Number("1.0"))]
  {
    StripThree(Leaf(Other("*")));
    StripThree(Leaf(Other("+")));
    var a := [Leaf(COMMA), Leaf(SPACE), Leaf(Number("0.0"))];
    var b := [Leaf(COMMA), Leaf(SPACE), Leaf(Number("1.0"))];
    StripArgument(Leaf(Number("0.0")));
    StripArgument(Leaf(Number("1.0")));
    StripAppend(a, b);
    assert BOUNDS == a + b;
  }

  lemma StripThree(p: Piece)
    requires p.Leaf? && !p.tok.Blank?
    ensures StripList([Leaf(SPACE), p, Leaf(SPACE)]) == [p]
  {
    StripOne(Leaf(SPACE));
    StripOne(p);
    StripAppend([Leaf(SPACE)], [p]);
    StripAppend([Leaf(SPACE)] + [p], [Leaf(SPACE)]);
    assert [Leaf(SPACE), p, Leaf(SPACE)] == [Leaf(SPACE)] + [p] + [Leaf(SPACE)];
  }

  lemma StripArgument(p: Piece)
    requires p.Leaf? && !p.tok.Blank?
    ensures StripList([Leaf(COMMA), Leaf(SPACE), p]) == [Leaf(COMMA), p]
  {
    StripOne(Leaf(COMMA));
    StripOne(Leaf(SPACE));
    StripOne(p);
    StripAppend([Leaf(COMMA)], [Leaf(SPACE)]);
    StripAppend([Leaf(COMMA)] + [Leaf(SPACE)], [p]);
    assert [Leaf(COMMA), Leaf(SPACE), p] == [Leaf(COMMA)] + [Leaf(SPACE)] + [p];
  }

  lemma StripProducts(a: seq<Piece>, b: seq<Piece>, c: seq<Piece>)
    ensures StripList(Product(a, b))
         == [Group(OPEN, [Group(OPEN, StripList(a)), Leaf(Other("*")), Group(OPEN, StripList(b))])]
    ensures StripList(ProductSum(a, b, c))
         == [Group(OPEN, [Group(OPEN, StripList(a)), Leaf(Other("*")), Group(OPEN, StripList(b)), Leaf(Other("+")),
                          Group(OPEN, StripList(c))])]
  {
    var q := [Group(OPEN, a)] + STAR + [Group(OPEN, b)];
    StripConstants();
    StripOne(Group(OPEN, a));
    StripOne(Group(OPEN, b));
    StripOne(Group(OPEN, c));
    StripAppend([Group(OPEN, a)], STAR);
    StripAppend([Group(OPEN, a)] + STAR, [Group(OPEN, b)]);
    StripOne(Group(OPEN, q));
    StripAppend(q, CROSS);
    StripAppend(q + CROSS, [Group(OPEN, c)]);
    StripOne(Group(OPEN, q + CROSS + [Group(OPEN, c)]));
    assert StripList(q) == [Group(OPEN, StripList(a)), Leaf(Other("*")), Group(OPEN, StripList(b))];
    assert StripList(q + CROSS + [Group(OPEN, c)])
        == [Group(OPEN, StripList(a)), Leaf(Other("*")), Group(OPEN, StripList(b)), Leaf(Other("+")),
            Group(OPEN, StripList(c))];
    hide StripList;
  }

  lemma StripClamp(a: seq<Piece>)
    ensures StripList(Clamp(a))
         == [Leaf(Name("clamp")), Group(OPEN, StripList(a) + [Leaf(COMMA), Leaf(Number("0.0")), Leaf(COMMA),
                                                              Leaf(Number("1.0"))])]
  {
    StripConstants();
    StripAppend(a, BOUNDS);
    StripOne(Leaf(Name("clamp")));
    StripOne(Group(OPEN, a + BOUNDS));
    StripAppend([Leaf(Name("clamp"))], [Group(OPEN, a + BOUNDS)]);
    assert Clamp(a) == [Leaf(Name("clamp"))] + [Group(OPEN, a + BOUNDS)];
    hide StripList;
  }

  lemma StripSampling(call: string, texture: string, coords: seq<Piece>)
    ensures StripList(Sampling(call, texture, coords))
         == [Leaf(Name(call)), Group(OPEN, [Leaf(Name(texture)), Leaf(COMMA)] + StripList(coords))]
  {
    var first := [Name(texture), COMMA, SPACE];
    assert Leaves(first) == [Leaf(Name(texture))] + [Leaf(COMMA)] + [Leaf(SPACE)];
    StripOne(Leaf(Name(texture)));
    StripOne(Leaf(COMMA));
    StripOne(Leaf(SPACE));
    StripAppend([Leaf(Name(texture))], [Leaf(COMMA)]);
    StripAppend([Leaf(Name(texture))] + [Leaf(COMMA)], [Leaf(SPACE)]);
    StripAppend(Leaves(first), coords);
    StripOne(Leaf(Name(call)));
    StripOne(Group(OPEN, Leaves(first) + coords));
    StripAppend([Leaf(Name(call))], [Group(OPEN, Leaves(first) + coords)]);
    assert Sampling(call, texture, coords) == [Leaf(Name(call))] + [Group(OPEN, Leaves(first) + coords)];
    assert StripList(Leaves(first)) == [Leaf(Name(texture)), Leaf(COMMA)];
    hide StripList;
  }

  /** Stripping commutes with writing. */
  lemma {:induction false} StripImage(env: Env, p: Piece, st: State)
    requires NoSincos(p)
    ensures StripList(Image(env, p, st)) == if p.Leaf? && p.tok.Blank? then [] else Core(env, Strip(p))
    decreases p
  {
    hide Product, ProductSum, Clamp, Sampling, CallOf;
    match p
    case Leaf(t) => StripOne(Leaf(if t.Name? then Name(Spelled(t.text)) else t));
    case Group(o, body) =>
      StripOne(Group(o, ImageList(env, body, st)));
      StripImageList(env, body, st);
    case Mul(_, a, _, b) =>
      var s1 := LeftList(env, a, st);
      StripImageList(env, a, st);
      StripImageList(env, b, s1);
      StripProducts(ImageList(env, a, st), ImageList(env, b, s1), []);
    case Mad(_, a, _, b, _, c) =>
      var s1 := LeftList(env, a, st);
      var s2 := LeftList(env, b, s1);
      StripImageList(env, a, st);
      StripImageList(env, b, s1);
      StripImageList(env, c, s2);
      StripProducts(ImageList(env, a, st), ImageList(env, b, s1), ImageList(env, c, s2));
    case Saturate(_, a) =>
      StripImageList(env, a, st);
      StripClamp(ImageList(env, a, st));
    case Sincos(_, _, _, _, _, _) =>
    case Texture(n, lead, coords) =>
      var s := st.(bound := BoundBy(env, n, lead, st.bound));
      StripImageList(env, coords, s);
      StripSampling(CallOf(env, n, lead), n, ImageList(env, coords, s));
  }

  lemma {:induction false} StripImageList(env: Env, ps: seq<Piece>, st: State)
    requires NoSincosIn(ps)
    ensures StripList(ImageList(env, ps, st)) == CoreList(env, StripList(ps))
    decreases ps
  {
    if ps != [] {
      var s := Left(env, ps[0], st);
      StripImage(env, ps[0], st);
      StripImageList(env, ps[1..], s);
      StripAppend(Image(env, ps[0], st), ImageList(env, ps[1..], s));
      assert StripList(ps) == StripList([ps[0]]) + StripList(ps[1..]) by {
        StripAppend([ps[0]], ps[1..]);
        assert ps == [ps[0]] + ps[1..];
      }
      StripOne(ps[0]);
      if !(ps[0].Leaf? && ps[0].tok.Blank?) {
        assert StripList(ps)[1..] == StripList(ps[1..]);
      }
      hide Image, Core, Strip;
    }
  }
}
