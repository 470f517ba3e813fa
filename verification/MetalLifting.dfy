/** The Metal program that a function body is lifted to, as a tree. */
module MetalLifting {
  import opened MetalTranspiler
  import opened MetalSyntax
  import M = MetalText

  function Names(xs: seq<string>): (es: seq<M.Expr>)
    ensures |es| == |xs| && forall k :: 0 <= k < |xs| ==> es[k] == M.Name(xs[k])
  {
    if xs == [] then [] else [M.Name(xs[0])] + Names(xs[1..])
  }

  function Lift(data: Analysis, e: Expr): M.Expr {
    match e
    case Literal(n) => M.Literal(n)
    case Local(x) => M.Name(x)
    case Handle(s) => M.Name(s)
    case Uniform(u) => M.Member(M.Name("uniforms"), u)
    case Paren(x) => M.Paren(Lift(data, x))
    case Negate(x) => M.Negate(Lift(data, x))
    case Infix(op, l, r) => M.Infix(op, Lift(data, l), Lift(data, r))
    case Conditional(c, a, b) => M.Conditional(Lift(data, c), Lift(data, a), Lift(data, b))
    case Member(b, f) => M.Member(Lift(data, b), f)
    case Index(b, i) => M.Index(Lift(data, b), Lift(data, i))
    case Call(f, args) => LiftCall(data, f, LiftEach(data, args))
    case Access(t, f, args) =>
      if f == "Load" && |args| == 1 then
        M.Method(M.Name(t), "read",
                 if args[0].Call? && args[0].f == "int3" then ReadAt(LiftEach(data, args[0].args))
                 else ReadFrom(Lift(data, args[0])))
      else M.Method(M.Name(t), "sample", SampleArgs(f, LiftEach(data, args)))
  }

  function LiftEach(data: Analysis, args: seq<Expr>): (es: seq<M.Expr>)
    ensures |es| == |args| && forall k :: 0 <= k < |args| ==> es[k] == Lift(data, args[k])
  {
    if args == [] then [] else [Lift(data, args[0])] + LiftEach(data, args[1..])
  }

  /** Products are spelled out; helpers are passed the globals they need. */
  function LiftCall(data: Analysis, f: string, args: seq<M.Expr>): M.Expr {
    if f == "mul" && |args| == 2 then M.Infix("*", M.Paren(args[0]), M.Paren(args[1]))
    else if f == "mad" && |args| == 3 then
      M.Infix("+", M.Paren(M.Infix("*", M.Paren(args[0]), M.Paren(args[1]))), M.Paren(args[2]))
    else if f == "int3" && 2 <= |args| <= 3 then M.Call("int3", IntArgs(args))
    else M.Call(MetalName(f), args + Names(DataOf(data, f).AdditionalArguments()))
  }

  function IntArgs(args: seq<M.Expr>): seq<M.Expr>
    requires 2 <= |args| <= 3
  {
    if |args| == 3 then [M.Call("int", [args[0]]), M.Call("int", [args[1]]), M.Call("int", [args[2]])]
    else [M.Call("int2", [args[0]]), M.Call("int", [args[1]])]
  }

  /** The arguments of a `read` whose coordinate is given by its components. */
  function ReadAt(args: seq<M.Expr>): seq<M.Expr> {
    if |args| == 3 then
      [M.Call("uint2", [M.Call("int", [args[0]]), M.Call("int", [args[1]])]),
       M.Call("uint", [M.Call("int", [args[2]])])]
    else if |args| == 2 then
      [M.Call("uint2", [M.Call("int2", [args[0]])]), M.Call("uint", [M.Call("int", [args[1]])])]
    else []
  }

  function ReadFrom(coordinate: M.Expr): seq<M.Expr> {
    [M.Call("uint2", [M.Member(coordinate, "xy")]), M.Literal("0")]
  }

  function SampleArgs(f: string, args: seq<M.Expr>): seq<M.Expr> {
    if f == "SampleGrad" && |args| == 4 then [args[0], args[1], M.Call("gradient2d", [args[2], args[3]])]
    else if (f == "SampleBias" || f == "SampleLevel") && |args| == 3 then
      [args[0], args[1], M.Call(if f == "SampleBias" then "bias" else "level", [args[2]])]
    else args
  }

  function LiftStmt(sh: Shader, data: Analysis, s: Stmt): seq<M.Stmt>
    decreases s
  {
    match s
    case Gap(_) => []
    case Let(t, x) => [M.Let(MetalType(sh, t), x)]
    case Declare(t, x, e) => [M.Declare(MetalType(sh, t), x, Lift(data, e))]
    case Assign(x, fields, op, e) => [M.Assign(x, fields, op, Lift(data, e))]
    case If(c, a, b) => [M.If(Lift(data, c), LiftBody(sh, data, a), LiftBody(sh, data, b))]
    case When(c, a) => [M.When(Lift(data, c), LiftBody(sh, data, a))]
    case While(c, b) => [M.While(Lift(data, c), LiftBody(sh, data, b))]
    case Return(e) => [M.Return(Lift(data, e))]
  }

  function LiftBody(sh: Shader, data: Analysis, ss: seq<Stmt>): seq<M.Stmt>
    decreases ss
  {
    if ss == [] then [] else LiftStmt(sh, data, ss[0]) + LiftBody(sh, data, ss[1..])
  }
}
