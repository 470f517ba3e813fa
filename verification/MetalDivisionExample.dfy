/** A quotient by a product, `12 / mul(2, 3)`: the text that is emitted for it is read as another expression, and that
    has another value. */
module MetalDivisionExample {
  import opened Options
  import opened MetalTranspiler
  import opened MetalSyntax
  import opened MetalLifting
  import opened MetalMachines
  import opened MetalReading
  import M = MetalText

  const QUOTIENT := Infix("/", Literal("12"), Call("mul", [Literal("2"), Literal("3")]))

  /** `12 / (2) * (3)` as it is read. */
  const READ := M.Infix("*", M.Infix("/", M.Literal("12"), M.Paren(M.Literal("2"))), M.Paren(M.Literal("3")))

  /** The quotient by the product, as it is meant. */
  const MEANT := M.Infix("/", M.Literal("12"), M.Infix("*", M.Paren(M.Literal("2")), M.Paren(M.Literal("3"))))

  function One(x: real): Value { Value([x]) }

  /** Products and quotients of numbers. */
  function Calculated(f: string, vs: seq<Value>): Option<Value> {
    if |vs| != 2 || |vs[0].components| != 1 || |vs[1].components| != 1 then None
    else
      var a, b := vs[0].components[0], vs[1].components[0];
      if f == "*" then Some(One(a * b)) else if f == "/" && b != 0.0 then Some(One(a / b)) else None
  }

  /** A machine that computes with numbers. */
  function Calculator(): Metal {
    Metal(
      (n: string) => if n == "12" then One(12.0) else if n == "2" then One(2.0) else One(3.0),
      (f: string, vs: seq<Value>) => Calculated(f, vs),
      (t: nat, f: string, args: seq<Arg>) => None,
      v => false,
      (t, v) => Some(v),
      t => One(0.0),
      (v, fields, u) => Some(u))
  }

  lemma Numbers()
    ensures Calculator().literal("12") == One(12.0) && Calculator().literal("2") == One(2.0)
    ensures Calculator().literal("3") == One(3.0)
    ensures Calculator().apply("*", [One(2.0), One(3.0)]) == Some(One(6.0))
    ensures Calculator().apply("/", [One(12.0), One(6.0)]) == Some(One(2.0))
    ensures Calculator().apply("/", [One(12.0), One(2.0)]) == Some(One(6.0))
    ensures Calculator().apply("*", [One(6.0), One(3.0)]) == Some(One(18.0))
  {
  }

  lemma Meant(data: Analysis)
    ensures Lift(data, QUOTIENT) == MEANT
  {
    assert LiftEach(data, [Literal("2"), Literal("3")]) == [M.Literal("2"), M.Literal("3")];
  }

  lemma IsRead(data: Analysis)
    ensures M.ParseInfix(M.Print(Lift(data, QUOTIENT)), 1) == Some((READ, []))
  {
    var a, b, c := Literal("12"), Literal("2"), Literal("3");
    assert M.Number("12") && M.Number("2") && M.Number("3");
    DividedByProduct(data, a, b, c);
    hide M.ParseInfix, M.Print;
  }

  lemma InfixIs(q: Lifted, g: Metal, limit: nat, i: nat, env: Frame, op: string, a: M.Expr, b: M.Expr,
                x: Value, y: Value)
    requires i < |q.bodies| == |q.params| == |q.names|
    requires LValue(q, g, limit, i, env, a) == Some(x) && LValue(q, g, limit, i, env, b) == Some(y)
    ensures LValue(q, g, limit, i, env, M.Infix(op, a, b)) == g.apply(op, [x, y])
  {
  }

  lemma LiteralIs(q: Lifted, g: Metal, limit: nat, i: nat, env: Frame, n: string)
    requires i < |q.bodies| == |q.params| == |q.names|
    ensures LValue(q, g, limit, i, env, M.Literal(n)) == Some(g.literal(n))
    ensures LValue(q, g, limit, i, env, M.Paren(M.Literal(n))) == Some(g.literal(n))
  {
  }

  /** What is meant is the quotient by the product; what is read is a product of a quotient. */
  lemma DivisionDiffers(data: Analysis, q: Lifted, limit: nat, i: nat, env: Frame)
    requires i < |q.bodies| == |q.params| == |q.names|
    ensures LValue(q, Calculator(), limit, i, env, Lift(data, QUOTIENT)) == Some(One(2.0))
    ensures M.ParseInfix(M.Print(Lift(data, QUOTIENT)), 1) == Some((READ, []))
    ensures LValue(q, Calculator(), limit, i, env, READ) == Some(One(18.0))
  {
    hide *;
    var g := Calculator();
    var two, three := M.Paren(M.Literal("2")), M.Paren(M.Literal("3"));
    Numbers();
    Meant(data);
    IsRead(data);
    LiteralIs(q, g, limit, i, env, "12");
    LiteralIs(q, g, limit, i, env, "2");
    LiteralIs(q, g, limit, i, env, "3");
    InfixIs(q, g, limit, i, env, "*", two, three, One(2.0), One(3.0));
    InfixIs(q, g, limit, i, env, "/", M.Literal("12"), M.Infix("*", two, three), One(12.0), One(6.0));
    InfixIs(q, g, limit, i, env, "/", M.Literal("12"), two, One(12.0), One(2.0));
    InfixIs(q, g, limit, i, env, "*", M.Infix("/", M.Literal("12"), two), three, One(6.0), One(3.0));
    TreesAre();
  }

  lemma TreesAre()
    ensures READ == M.Infix("*", M.Infix("/", M.Literal("12"), M.Paren(M.Literal("2"))), M.Paren(M.Literal("3")))
    ensures MEANT == M.Infix("/", M.Literal("12"), M.Infix("*", M.Paren(M.Literal("2")), M.Paren(M.Literal("3"))))
  {
  }

  /** The program itself divides by the product. */
  lemma SourceDivides(p: Program, w: Globals, limit: nat, i: nat, env: Env)
    requires i < |p.bodies| == |p.shader.funcs| && forall f :: f in p.shader.funcs ==> f.name != "mul"
    ensures Eval(p, Induced(p.shader, Calculator()), w, limit, i, env, QUOTIENT) == Some(One(2.0))
  {
    var h := Induced(p.shader, Calculator());
    NumbersOfProgram(p.shader);
    OperandsAre(p, h, w, limit, i, env);
    assert IndexOf(FunctionNames(p.shader), "mul") == |p.bodies|;
    hide Calculator, Induced, EvalArgs;
    assert Eval(p, h, w, limit, i, env, Call("mul", [Literal("2"), Literal("3")])) == Some(One(6.0));
  }

  lemma NumbersOfProgram(sh: Shader)
    ensures var h := Induced(sh, Calculator());
      && h.literal("12") == One(12.0) && h.literal("2") == One(2.0) && h.literal("3") == One(3.0)
      && h.apply("mul", [One(2.0), One(3.0)]) == Some(One(6.0))
      && h.apply("/", [One(12.0), One(6.0)]) == Some(One(2.0))
  {
    Numbers();
    assert MetalName("/") == "/";
  }

  lemma OperandsAre(p: Program, h: Effect, w: Globals, limit: nat, i: nat, env: Env)
    requires i < |p.bodies| == |p.shader.funcs| && h.literal("2") == One(2.0) && h.literal("3") == One(3.0)
    ensures EvalArgs(p, h, w, limit, i, env, [Literal("2"), Literal("3")]) == Some([One(2.0), One(3.0)])
  {
    var args, three := [Literal("2"), Literal("3")], [Literal("3")];
    assert args[1..] == three && three[1..] == [];
    assert EvalArgs(p, h, w, limit, i, env, []) == Some([]);
    assert Eval(p, h, w, limit, i, env, Literal("3")) == Some(One(3.0));
    assert Eval(p, h, w, limit, i, env, Literal("2")) == Some(One(2.0));
    OperandsStep(p, h, w, limit, i, env, three, One(3.0), []);
    assert [One(3.0)] + [] == [One(3.0)] && [One(2.0)] + [One(3.0)] == [One(2.0), One(3.0)];
    OperandsStep(p, h, w, limit, i, env, args, One(2.0), [One(3.0)]);
  }

  lemma OperandsStep(p: Program, h: Effect, w: Globals, limit: nat, i: nat, env: Env, args: seq<Expr>, v: Value,
                     vs: seq<Value>)
    requires i < |p.bodies| == |p.shader.funcs| && args != []
    requires Eval(p, h, w, limit, i, env, args[0]) == Some(v) && EvalArgs(p, h, w, limit, i, env, args[1..]) == Some(vs)
    ensures EvalArgs(p, h, w, limit, i, env, args) == Some([v] + vs)
  {
    hide Eval;
  }
}
