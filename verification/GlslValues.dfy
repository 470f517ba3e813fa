/** The written expressions have the values of the expressions they were written for. */
module GlslValues {
  import opened ShaderTokens
  import opened GlslWriter
  import opened GlslPieces
  import opened GlslExactness
  import opened GlslOperands
  import opened GlslMeaning
  import opened GlslParsing

  /** What a shading language makes of its expressions. */
  datatype Machine<!V> = Machine(
    atom: Token -> V,
    call: (string, seq<V>) -> V,
    field: (V, string) -> V,
    prefix: (string, V) -> V,
    infix: (string, V, V) -> V,
    mul: (V, V) -> V,
    mad: (V, V, V) -> V,
    saturate: V -> V,
    sample: (string, string, string, seq<V>) -> V,   // texture, method, sampler, coordinates
    matrix: V -> bool)

  function Method(lead: seq<Token>): string {
    if |Squeezed(lead)| > 1 then Squeezed(lead)[1].text else ""
  }

  function Sampler(lead: seq<Token>): string {
    if |Squeezed(lead)| > 3 then Squeezed(lead)[3].text else ""
  }

  function Eval<V>(m: Machine<V>, e: Expr): V {
    match e
    case Atom(t) => m.atom(t)
    case Paren(x) => Eval(m, x)
    case Call(f, args) => m.call(f, EvalAll(m, args))
    case Field(x, n) => m.field(Eval(m, x), n)
    case Prefix(op, x) => m.prefix(op, Eval(m, x))
    case Infix(op, l, r) => m.infix(op, Eval(m, l), Eval(m, r))
    case MulCall(a, b) => m.mul(Eval(m, a), Eval(m, b))
    case MadCall(a, b, c) => m.mad(Eval(m, a), Eval(m, b), Eval(m, c))
    case SaturateCall(a) => m.saturate(Eval(m, a))
    case Sampled(t, lead, args) => m.sample(t, Method(lead), Sampler(lead), EvalAll(m, args))
  }

  function EvalAll<V>(m: Machine<V>, es: seq<Expr>): seq<V> {
    if es == [] then [] else [Eval(m, es[0])] + EvalAll(m, es[1..])
  }

  /** The texture is sampled with the sampler that it ends up bound to. */
  predicate BoundTo(env: Env, bound: map<string, nat>, t: string, lead: seq<Token>) {
    && ProperLead(env, t, lead)
    && (|Squeezed(lead)| > 3 ==> t in bound && bound[t] == SamplerId(env.samplers, Sampler(lead)))
  }

  /** What GLSL has to have in common with the effect language for the rewriting to be right. In both, `*` works
      component by component on vectors; on matrices it is the linear product in GLSL only. `unlike` has the functions
      that differ, such as `fmod`. */
  ghost predicate Agree<V(!new)>(h: Machine<V>, g: Machine<V>, env: Env, bound: map<string, nat>, unlike: set<string>) {
    && (forall t: Token :: (t.Name? ==> Spelled(t.text) == t.text) ==> g.atom(t) == h.atom(t))
    && (forall f, args :: f !in unlike ==> g.call(Spelled(f), args) == h.call(f, args))
    && (forall v, n :: g.field(v, n) == h.field(v, n))
    && (forall op, v :: g.prefix(op, v) == h.prefix(op, v))
    && (forall op, v, w :: !h.matrix(v) && !h.matrix(w) ==> g.infix(op, v, w) == h.infix(op, v, w))
    && (forall v, w :: h.matrix(v) || h.matrix(w) ==> g.infix("*", v, w) == h.mul(v, w))
    && (forall u, v, w :: !h.matrix(u) && !h.matrix(v) && !h.matrix(w)
          ==> g.infix("+", g.infix("*", u, v), w) == h.mad(u, v, w))
    && (forall v :: g.call("clamp", [v, g.atom(Number("0.0")), g.atom(Number("1.0"))]) == h.saturate(v))
    && (forall t, lead, args :: BoundTo(env, bound, t, lead)
          ==> g.call(CallOf(env, t, lead), [g.atom(Name(t))] + args) == h.sample(t, Method(lead), Sampler(lead), args))
  }

  /** Expressions that keep to what the languages have in common: none of those functions, no name that the
      writer takes for a type or an intrinsic, matrices only in `mul`, one sampler for each texture. */
  predicate Portable<V>(h: Machine<V>, env: Env, bound: map<string, nat>, unlike: set<string>, e: Expr) {
    match e
    case Atom(t) => t.Name? ==> Spelled(t.text) == t.text
    case Paren(x) => Portable(h, env, bound, unlike, x)
    case Call(f, args) => f !in unlike && AllPortable(h, env, bound, unlike, args)
    case Field(x, n) => Spelled(n) == n && Portable(h, env, bound, unlike, x)
    case Prefix(_, x) => Portable(h, env, bound, unlike, x)
    case Infix(_, l, r) =>
      && Portable(h, env, bound, unlike, l) && Portable(h, env, bound, unlike, r)
      && !h.matrix(Eval(h, l)) && !h.matrix(Eval(h, r))
    case MulCall(a, b) =>
      && Portable(h, env, bound, unlike, a) && Portable(h, env, bound, unlike, b)
      && (h.matrix(Eval(h, a)) || h.matrix(Eval(h, b)))
    case MadCall(a, b, c) =>
      && Portable(h, env, bound, unlike, a) && Portable(h, env, bound, unlike, b) && Portable(h, env, bound, unlike, c)
      && !h.matrix(Eval(h, a)) && !h.matrix(Eval(h, b)) && !h.matrix(Eval(h, c))
    case SaturateCall(a) => Portable(h, env, bound, unlike, a)
    case Sampled(t, lead, args) => BoundTo(env, bound, t, lead) && AllPortable(h, env, bound, unlike, args)
  }

  predicate AllPortable<V>(h: Machine<V>, env: Env, bound: map<string, nat>, unlike: set<string>, es: seq<Expr>) {
    es == [] || (Portable(h, env, bound, unlike, es[0]) && AllPortable(h, env, bound, unlike, es[1..]))
  }

  lemma {:induction false} TranslationKeepsValue<V(!new)>(h: Machine<V>, g: Machine<V>, env: Env,
      bound: map<string, nat>, unlike: set<string>, e: Expr)
    requires Agree(h, g, env, bound, unlike) && Portable(h, env, bound, unlike, e)
    ensures Eval(g, Translate(env, e)) == Eval(h, e)
    decreases e
  {
    hide Agree;
    match e
    case Atom(t) => AtomAgrees(h, g, env, bound, unlike, t);
    case Paren(x) => TranslationKeepsValue(h, g, env, bound, unlike, x);
    case Call(f, args) =>
      TranslationKeepsValues(h, g, env, bound, unlike, args);
      OperationsAgree(h, g, env, bound, unlike, f, EvalAll(h, args), h.atom(NONE), h.atom(NONE));
    case Field(x, n) =>
      TranslationKeepsValue(h, g, env, bound, unlike, x);
      OperationsAgree(h, g, env, bound, unlike, n, [], Eval(h, x), Eval(h, x));
    case Prefix(op, x) =>
      TranslationKeepsValue(h, g, env, bound, unlike, x);
      OperationsAgree(h, g, env, bound, unlike, op, [], Eval(h, x), Eval(h, x));
    case Infix(op, l, r) =>
      TranslationKeepsValue(h, g, env, bound, unlike, l);
      TranslationKeepsValue(h, g, env, bound, unlike, r);
      OperationsAgree(h, g, env, bound, unlike, op, [], Eval(h, l), Eval(h, r));
    case MulCall(a, b) =>
      TranslationKeepsValue(h, g, env, bound, unlike, a);
      TranslationKeepsValue(h, g, env, bound, unlike, b);
      ProductsAgree(h, g, env, bound, unlike, Eval(h, a), Eval(h, b), Eval(h, b));
      EvalProducts(g, Translate(env, a), Translate(env, b), Translate(env, b));
    case MadCall(a, b, c) =>
      TranslationKeepsValue(h, g, env, bound, unlike, a);
      TranslationKeepsValue(h, g, env, bound, unlike, b);
      TranslationKeepsValue(h, g, env, bound, unlike, c);
      ProductsAgree(h, g, env, bound, unlike, Eval(h, a), Eval(h, b), Eval(h, c));
      EvalProducts(g, Translate(env, a), Translate(env, b), Translate(env, c));
    case SaturateCall(a) =>
      TranslationKeepsValue(h, g, env, bound, unlike, a);
      SaturationAgrees(h, g, env, bound, unlike, Translate(env, a));
    case Sampled(t, lead, args) =>
      TranslationKeepsValues(h, g, env, bound, unlike, args);
      SamplingAgrees(h, g, env, bound, unlike, t, lead, TranslateAll(env, args));
  }

  lemma EvalThree<V>(m: Machine<V>, a: Expr, b: Expr, c: Expr)
    ensures EvalAll(m, [a, b, c]) == [Eval(m, a), Eval(m, b), Eval(m, c)]
  {
    assert [a, b, c][1..] == [b, c] && [b, c][1..] == [c] && [c][1..] == [];
    assert EvalAll(m, [c]) == [Eval(m, c)];
    assert EvalAll(m, [b, c]) == [Eval(m, b)] + [Eval(m, c)];
  }

  lemma EvalProducts<V>(m: Machine<V>, a: Expr, b: Expr, c: Expr)
    ensures Eval(m, Paren(Infix("*", Paren(a), Paren(b)))) == m.infix("*", Eval(m, a), Eval(m, b))
    ensures Eval(m, Paren(Infix("+", Infix("*", Paren(a), Paren(b)), Paren(c))))
         == m.infix("+", m.infix("*", Eval(m, a), Eval(m, b)), Eval(m, c))
  {
    var product := Infix("*", Paren(a), Paren(b));
    assert Eval(m, product) == m.infix("*", Eval(m, a), Eval(m, b));
    assert Eval(m, Infix("+", product, Paren(c))) == m.infix("+", Eval(m, product), Eval(m, c));
  }

  lemma AtomAgrees<V(!new)>(h: Machine<V>, g: Machine<V>, env: Env, bound: map<string, nat>, unlike: set<string>,
      t: Token)
    requires Agree(h, g, env, bound, unlike) && (t.Name? ==> Spelled(t.text) == t.text)
    ensures g.atom(if t.Name? then Name(Spelled(t.text)) else t) == h.atom(t)
  {
  }

  lemma OperationsAgree<V(!new)>(h: Machine<V>, g: Machine<V>, env: Env, bound: map<string, nat>, unlike: set<string>,
      f: string, args: seq<V>, v: V, w: V)
    requires Agree(h, g, env, bound, unlike)
    ensures f !in unlike ==> g.call(Spelled(f), args) == h.call(f, args)
    ensures g.field(v, f) == h.field(v, f) && g.prefix(f, v) == h.prefix(f, v)
    ensures !h.matrix(v) && !h.matrix(w) ==> g.infix(f, v, w) == h.infix(f, v, w)
  {
  }

  lemma ProductsAgree<V(!new)>(h: Machine<V>, g: Machine<V>, env: Env, bound: map<string, nat>, unlike: set<string>,
      u: V, v: V, w: V)
    requires Agree(h, g, env, bound, unlike)
    ensures h.matrix(u) || h.matrix(v) ==> g.infix("*", u, v) == h.mul(u, v)
    ensures !h.matrix(u) && !h.matrix(v) && !h.matrix(w) ==> g.infix("+", g.infix("*", u, v), w) == h.mad(u, v, w)
  {
  }

  lemma SaturationAgrees<V(!new)>(h: Machine<V>, g: Machine<V>, env: Env, bound: map<string, nat>,
      unlike: set<string>, a: Expr)
    requires Agree(h, g, env, bound, unlike)
    ensures Eval(g, Call("clamp", [a, Atom(Number("0.0")), Atom(Number("1.0"))])) == h.saturate(Eval(g, a))
  {
    EvalThree(g, a, Atom(Number("0.0")), Atom(Number("1.0")));
    hide EvalAll;
  }

  lemma SamplingAgrees<V(!new)>(h: Machine<V>, g: Machine<V>, env: Env, bound: map<string, nat>, unlike: set<string>,
      t: string, lead: seq<Token>, args: seq<Expr>)
    requires Agree(h, g, env, bound, unlike) && BoundTo(env, bound, t, lead)
    ensures Eval(g, Call(CallOf(env, t, lead), [Atom(Name(t))] + args))
         == h.sample(t, Method(lead), Sampler(lead), EvalAll(g, args))
  {
    assert ([Atom(Name(t))] + args)[1..] == args;
    assert EvalAll(g, [Atom(Name(t))] + args) == [g.atom(Name(t))] + EvalAll(g, args);
    hide EvalAll, CallOf, BoundTo, Method, Sampler, Spelled;
  }

  lemma {:induction false} TranslationKeepsValues<V(!new)>(h: Machine<V>, g: Machine<V>, env: Env,
      bound: map<string, nat>, unlike: set<string>, es: seq<Expr>)
    requires Agree(h, g, env, bound, unlike) && AllPortable(h, env, bound, unlike, es)
    ensures EvalAll(g, TranslateAll(env, es)) == EvalAll(h, es)
    decreases es
  {
    if es != [] {
      TranslationKeepsValue(h, g, env, bound, unlike, es[0]);
      TranslationKeepsValues(h, g, env, bound, unlike, es[1..]);
      assert TranslateAll(env, es)[1..] == TranslateAll(env, es[1..]);
      hide Agree;
    }
  }

  /** An expression in parentheses, spaced in any way: the brackets of what is written for it are matched, the parser
      reads it as the translated expression, and that has the value of the expression as it was. `bound` is what the
      whole shader leaves bound. */
  lemma WrittenValue<V(!new)>(h: Machine<V>, g: Machine<V>, env: Env, st: State, bound: map<string, nat>,
      unlike: set<string>, ps: seq<Piece>, k: seq<Token>)
    requires ProperList(env, ps, true) && NoSincosIn(ps) && Parse(StripList(ps)).Ok?
    requires Agree(h, g, env, bound, unlike) && Portable(h, env, bound, unlike, Parse(StripList(ps)).value)
    ensures var c := Contents(env, st, [OPEN] + SrcList(ps, [CLOSE] + k), ")");
      && c.rest == [CLOSE] + k
      && var out := Read(c.text[1..]);
      && out.Ok? && out.value.1 == []
      && var e := Parse(StripList(out.value.0));
      && e == Ok(Translate(env, Parse(StripList(ps)).value))
      && Eval(g, e.value) == Eval(h, Parse(StripList(ps)).value)
  {
    var image := ImageList(env, ps, st);
    FirstOperand(env, st, OPEN, ps, [CLOSE] + k, ")");
    ImageListIsPlain(env, ps, true, st);
    ReadText(image, []);
    StripImageList(env, ps, st);
    NoSincosInStripped(ps);
    ParseCore(env, StripList(ps));
    TranslationKeepsValue(h, g, env, bound, unlike, Parse(StripList(ps)).value);
    hide Agree, Portable, Parse, StripList, CoreList, ImageList, LeftList, Contents, Read, Eval, Translate, ProperList;
  }

  lemma NoSincosInStripped(ps: seq<Piece>)
    requires NoSincosIn(ps)
    ensures NoSincosIn(StripList(ps))
    decreases ps, 1
  {
    if ps != [] {
      NoSincosInStripped(ps[1..]);
      NoSincosStripped(ps[0]);
      assert ([Strip(ps[0])] + StripList(ps[1..]))[1..] == StripList(ps[1..]);
    }
  }

  lemma NoSincosStripped(p: Piece)
    requires NoSincos(p)
    ensures NoSincos(Strip(p))
    decreases p, 2
  {
    match p
    case Leaf(_) =>
    case Group(_, body) => NoSincosInStripped(body);
    case Mul(_, a, _, b) =>
      NoSincosInStripped(a);
      NoSincosInStripped(b);
    case Mad(_, a, _, b, _, c) =>
      NoSincosInStripped(a);
      NoSincosInStripped(b);
      NoSincosInStripped(c);
    case Saturate(_, a) => NoSincosInStripped(a);
    case Sincos(_, _, _, _, _, _) =>
    case Texture(_, _, coords) => NoSincosInStripped(coords);
  }

  // ---------------------------------------------------------------------------------------------------------
  // What goes wrong behind a parenthesis

  /** `mul(a, (b) + c)`, and the product and sum that is written for it. */
  lemma EscapedSum(env: Env, st: State, p: Piece, b: seq<Piece>, c: Token)
    requires p.Mul? && p.b == [Group(OPEN, b), Leaf(Other("+")), Leaf(c)] && c.Number?
    requires NoSincosIn(p.a) && NoSincosIn(b) && Parse(StripList(p.a)).Ok? && Parse(StripList(b)).Ok?
    ensures var x, y := Parse(StripList(p.a)).value, Parse(StripList(b)).value;
      var s1 := LeftList(env, p.a, st);
      var tail := [Leaf(Other("+")), Leaf(c)];
      var out := Escaped(ImageList(env, p.a, st), ImageList(env, b, s1), ImageList(env, tail, LeftList(env, b, s1)));
      && Parse(StripList([p])) == Ok(MulCall(x, Infix("+", Paren(y), Atom(c))))
      && Parse(StripList(out))
         == Ok(Paren(Infix("+", Infix("*", Paren(Translate(env, x)), Paren(Paren(Translate(env, y)))), Atom(c))))
  {
    var tail := [Leaf(Other("+")), Leaf(c)];
    var s1 := LeftList(env, p.a, st);
    var s2 := LeftList(env, b, s1);
    var ai, bi, ti := ImageList(env, p.a, st), ImageList(env, b, s1), ImageList(env, tail, s2);
    EscapedSource(p, b, c);
    TailIsItself(env, c, s2);
    StripImageList(env, p.a, st);
    StripImageList(env, b, s1);
    NoSincosInStripped(p.a);
    NoSincosInStripped(b);
    ParseCore(env, StripList(p.a));
    ParseCore(env, StripList(b));
    EscapedStripped(ai, bi, c);
    hide *;
    EscapedParses(CoreList(env, StripList(p.a)), CoreList(env, StripList(b)), c);
  }

  lemma TailIsItself(env: Env, c: Token, st: State)
    requires c.Number?
    ensures ImageList(env, [Leaf(Other("+")), Leaf(c)], st) == [Leaf(Other("+")), Leaf(c)]
    ensures StripList([Leaf(Other("+")), Leaf(c)]) == [Leaf(Other("+")), Leaf(c)]
  {
    var tail := [Leaf(Other("+")), Leaf(c)];
    assert tail[1..] == [Leaf(c)] && tail[1..][1..] == [];
    assert ImageList(env, [Leaf(c)], st) == [Leaf(c)];
    assert StripList([Leaf(c)]) == [Leaf(c)];
  }

  lemma EscapedSource(p: Piece, b: seq<Piece>, c: Token)
    requires p.Mul? && p.b == [Group(OPEN, b), Leaf(Other("+")), Leaf(c)] && c.Number?
    requires Parse(StripList(p.a)).Ok? && Parse(StripList(b)).Ok?
    ensures Parse(StripList([p]))
         == Ok(MulCall(Parse(StripList(p.a)).value, Infix("+", Paren(Parse(StripList(b)).value), Atom(c))))
  {
    var tail := [Leaf(Other("+")), Leaf(c)];
    StripOne(p);
    StripOne(Group(OPEN, b));
    StripAppend([Group(OPEN, b)], tail);
    TailIsItself(Env([], []), c, State(0, map[]));
    assert p.b == [Group(OPEN, b)] + tail;
    var sum := [Group(OPEN, StripList(b)), Leaf(Other("+")), Leaf(c)];
    assert StripList(p.b) == sum;
    SingleParses(Strip(p), 0);
    PlusParses(StripList(b), c, 0);
    hide StripList, ParseInfix;
  }

  lemma PlusParses(b: seq<Piece>, c: Token, level: nat)
    requires level <= 1 && Parse(b).Ok? && c.Number?
    ensures ParseInfix([Group(OPEN, b), Leaf(Other("+")), Leaf(c)], level)
         == Ok(Infix("+", Paren(Parse(b).value), Atom(c)))
    decreases 1 - level
  {
    var q := [Group(OPEN, b), Leaf(Other("+")), Leaf(c)];
    assert q[..2] == [Group(OPEN, b), Leaf(Other("+"))];
    assert LastInfix(q[..2], level) == if level == 1 then 1 else 0;
    assert LastInfix(q, level) == LastInfix(q[..2], level);
    if level == 0 {
      PlusParses(b, c, 1);
    } else {
      ParensParse(b, 1);
      SingleParses(Leaf(c), 2);
      assert q[..1] == [q[0]] && q[2..] == [q[2]];
      hide Parse, LastInfix;
    }
  }

  lemma EscapedStripped(a: seq<Piece>, b: seq<Piece>, c: Token)
    requires c.Number?
    ensures StripList(Escaped(a, b, [Leaf(Other("+")), Leaf(c)]))
         == [Group(OPEN, [Group(OPEN, StripList(a)), Leaf(Other("*")), Group(OPEN, [Group(OPEN, StripList(b))]),
                          Leaf(Other("+")), Leaf(c)])]
  {
    var tail := [Leaf(Other("+")), Leaf(c)];
    var q := [Group(OPEN, a)] + STAR + [Group(OPEN, [Group(OPEN, b)])];
    StripConstants();
    StripOne(Group(OPEN, a));
    StripOne(Group(OPEN, b));
    StripOne(Group(OPEN, [Group(OPEN, b)]));
    TailIsItself(Env([], []), c, State(0, map[]));
    StripAppend([Group(OPEN, a)], STAR);
    StripAppend([Group(OPEN, a)] + STAR, [Group(OPEN, [Group(OPEN, b)])]);
    StripAppend(q, tail);
    StripOne(Group(OPEN, q + tail));
    assert StripList(q + tail)
        == [Group(OPEN, StripList(a)), Leaf(Other("*")), Group(OPEN, [Group(OPEN, StripList(b))]),
            Leaf(Other("+")), Leaf(c)];
    hide StripList;
  }

  lemma EscapedParses(a: seq<Piece>, b: seq<Piece>, c: Token)
    requires Parse(a).Ok? && Parse(b).Ok? && c.Number?
    ensures Parse([Group(OPEN, [Group(OPEN, a), Leaf(Other("*")), Group(OPEN, [Group(OPEN, b)]), Leaf(Other("+")),
                                Leaf(c)])])
         == Ok(Paren(Infix("+", Infix("*", Paren(Parse(a).value), Paren(Paren(Parse(b).value))), Atom(c))))
  {
    ParensParse(b, 0);
    SumParses(a, [Group(OPEN, b)], Leaf(c), 0);
    var body := [Group(OPEN, a), Leaf(Other("*")), Group(OPEN, [Group(OPEN, b)]), Leaf(Other("+")), Leaf(c)];
    assert Parse(body) == ParseInfix(body, 0);
    ParensParse(body, 0);
    hide ParseInfix;
  }

  /** With integers for values, `mul(a, (b) + c)` keeps its value if and only if `a` is one or `c` is zero. */
  lemma EscapedSumValue(m: Machine<int>, x: Expr, y: Expr, c: Token)
    requires forall a, b :: m.mul(a, b) == a * b == m.infix("*", a, b) && m.infix("+", a, b) == a + b
    ensures Eval(m, MulCall(x, Infix("+", Paren(y), Atom(c))))
         == Eval(m, Paren(Infix("+", Infix("*", Paren(x), Paren(Paren(y))), Atom(c))))
        <==> Eval(m, x) == 1 || m.atom(c) == 0
  {
    var u, v, w := Eval(m, x), Eval(m, y), m.atom(c);
    assert Eval(m, Infix("+", Paren(y), Atom(c))) == v + w;
    assert Eval(m, Paren(Paren(y))) == v;
    assert Eval(m, Infix("*", Paren(x), Paren(Paren(y)))) == u * v;
    assert Eval(m, Infix("+", Infix("*", Paren(x), Paren(Paren(y))), Atom(c))) == u * v + w;
    hide Eval;
    Distribution(u, v, w);
  }

  lemma Distribution(u: int, v: int, w: int)
    ensures u * (v + w) == u * v + w <==> u == 1 || w == 0
  {
    assert u * (v + w) - (u * v + w) == (u - 1) * w;
  }
}
