/** What programs with globals and lifted programs compute, each on a machine of its own language. */
module MetalMachines {
  import opened MetalTranspiler
  import opened MetalAnalysis
  import opened MetalSyntax
  import opened MetalLifting
  import M = MetalText
  import opened Options

  datatype Value = Value(components: seq<real>)

  /** The effect language: what its names, operators and sampling methods do. Members are applied like functions, by
      their name with the dot in front, and indices as `[]`. `load` gets a coordinate, or the components it is written
      with. A variable that is declared without a value has the initial one of its type. */
  datatype Effect = Effect(
    literal: string -> Value,
    apply: (string, seq<Value>) -> Option<Value>,
    access: (string, nat, nat, seq<Value>) -> Option<Value>,
    load: (nat, seq<Value>) -> Option<Value>,
    truth: Value -> bool,
    convert: (string, Value) -> Option<Value>,
    initial: string -> Value,
    update: (Value, seq<string>, Value) -> Option<Value>)

  /** What a Metal function can be handed. */
  datatype Arg = Val(value: Value) | Buffer(uniforms: map<string, Value>) | Texture(id: nat) | Sampler(id: nat)

  /** The Metal shading language. */
  datatype Metal = Metal(
    literal: string -> Value,
    apply: (string, seq<Value>) -> Option<Value>,
    call: (nat, string, seq<Arg>) -> Option<Value>,
    truth: Value -> bool,
    convert: (string, Value) -> Option<Value>,
    initial: string -> Value,
    update: (Value, seq<string>, Value) -> Option<Value>)

  /** The globals a program with global variables sees. Textures and samplers are handles. */
  datatype Globals = Globals(
    uniforms: map<string, Value>, textures: map<string, nat>, samplers: map<string, nat>)

  /** How the statements of a body leave: to the next one, with a result, or not at all. */
  datatype Flow<E> = Next(env: E) | Returned(value: Value) | Stuck

  function IndexOf(names: seq<string>, n: string): (i: nat)
    ensures i <= |names| && (i < |names| ==> names[i] == n)
  {
    if names == [] then 0 else if names[0] == n then 0 else 1 + IndexOf(names[1..], n)
  }

  function FunctionNames(sh: Shader): (names: seq<string>)
    ensures |names| == |sh.funcs|
  {
    seq(|sh.funcs|, i requires 0 <= i < |sh.funcs| => sh.funcs[i].name)
  }

  function Bind<T>(params: seq<string>, args: seq<T>): map<string, T>
    requires |params| == |args|
  {
    if params == [] then map[]
    else Bind(params[..|params| - 1], args[..|args| - 1])[params[|params| - 1] := args[|args| - 1]]
  }

  /** The part of a value that the members lead to. */
  function Part(apply: (string, seq<Value>) -> Option<Value>, v: Value, fields: seq<string>): Option<Value>
    decreases |fields|
  {
    if fields == [] then Some(v)
    else
      var m :- apply("." + fields[0], [v]);
      Part(apply, m, fields[1..])
  }

  /** What is stored: the value itself, or what the operator of the assignment makes of the old one and it. */
  function Stored(apply: (string, seq<Value>) -> Option<Value>, op: string, before: Value, fields: seq<string>,
                  v: Value)
    : Option<Value>
  {
    if |op| != 2 then Some(v)
    else
      var part :- Part(apply, before, fields);
      apply(op[..1], [part, v])
  }

  // ---------------------------------------------------------------------------------------------------------
  // Programs with globals

  datatype Program = Program(shader: Shader, bodies: seq<seq<Stmt>>)

  type Env = map<string, Value>

  function Eval(p: Program, h: Effect, w: Globals, limit: nat, i: nat, env: Env, e: Expr): Option<Value>
    requires i < |p.bodies| == |p.shader.funcs|
    decreases i, 0, 0, e
  {
    match e
    case Literal(n) => Some(h.literal(n))
    case Local(x) => if x in env then Some(env[x]) else None
    case Handle(_) => None
    case Uniform(u) => if u in w.uniforms then Some(w.uniforms[u]) else None
    case Paren(x) => Eval(p, h, w, limit, i, env, x)
    case Negate(x) =>
      var v :- Eval(p, h, w, limit, i, env, x);
      h.apply("-", [v])
    case Infix(op, l, r) =>
      var a :- Eval(p, h, w, limit, i, env, l);
      var b :- Eval(p, h, w, limit, i, env, r);
      h.apply(op, [a, b])
    case Conditional(c, a, b) =>
      var v :- Eval(p, h, w, limit, i, env, c);
      Eval(p, h, w, limit, i, env, if h.truth(v) then a else b)
    case Member(o, f) =>
      var v :- Eval(p, h, w, limit, i, env, o);
      h.apply("." + f, [v])
    case Index(o, n) =>
      var v :- Eval(p, h, w, limit, i, env, o);
      var u :- Eval(p, h, w, limit, i, env, n);
      h.apply("[]", [v, u])
    case Call(f, args) =>
      var vs :- EvalArgs(p, h, w, limit, i, env, args);
      var j := IndexOf(FunctionNames(p.shader), f);
      if j == |p.bodies| then h.apply(f, vs)
      else if j < i then Run(p, h, w, limit, j, vs)
      else None
    case Access(t, f, args) =>
      if t !in w.textures then None
      else if f == "Load" && |args| == 1 then
        var vs :- EvalArgs(p, h, w, limit, i, env,
                           if args[0].Call? && args[0].f == "int3" then args[0].args else args);
        h.load(w.textures[t], vs)
      else if args == [] || !args[0].Handle? || args[0].sampler !in w.samplers then None
      else
        var vs :- EvalArgs(p, h, w, limit, i, env, args[1..]);
        h.access(f, w.textures[t], w.samplers[args[0].sampler], vs)
  }

  function EvalArgs(p: Program, h: Effect, w: Globals, limit: nat, i: nat, env: Env, args: seq<Expr>)
    : (r: Option<seq<Value>>)
    requires i < |p.bodies| == |p.shader.funcs|
    ensures r.Some? ==> |r.value| == |args|
    decreases i, 0, 0, args
  {
    if args == [] then Some([])
    else
      var v :- Eval(p, h, w, limit, i, env, args[0]);
      var vs :- EvalArgs(p, h, w, limit, i, env, args[1..]);
      Some([v] + vs)
  }

  /** A step of a body that goes on with the next statement: what becomes of the variables. */
  function Assigned(p: Program, h: Effect, w: Globals, limit: nat, i: nat, env: Env, s: Stmt): Option<Env>
    requires i < |p.bodies| == |p.shader.funcs|
    requires s.Gap? || s.Let? || s.Declare? || s.Assign?
    decreases i, 0, 1
  {
    match s
    case Gap(_) => Some(env)
    case Let(t, x) => Some(env[x := h.initial(t)])
    case Declare(t, x, e) =>
      var v :- Eval(p, h, w, limit, i, env, e);
      var c :- h.convert(t, v);
      Some(env[x := c])
    case Assign(x, fields, op, e) =>
      var v :- Eval(p, h, w, limit, i, env, e);
      if x !in env then None
      else
        var c :- Stored(h.apply, op, env[x], fields, v);
        var u :- h.update(env[x], fields, c);
        Some(env[x := u])
  }

  /** `fuel` bounds how often each loop goes round. */
  function Exec(p: Program, h: Effect, w: Globals, limit: nat, i: nat, fuel: nat, env: Env, ss: seq<Stmt>): Flow<Env>
    requires i < |p.bodies| == |p.shader.funcs|
    decreases i, 1, fuel, ss
  {
    if ss == [] then Next(env)
    else match ss[0]
      case Return(e) =>
        (match Eval(p, h, w, limit, i, env, e)
         case Some(v) => Returned(v)
         case None => Stuck)
      case If(c, a, b) =>
        (match Eval(p, h, w, limit, i, env, c)
         case Some(v) =>
           var flow := Exec(p, h, w, limit, i, fuel, env, if h.truth(v) then a else b);
           if flow.Next? then Exec(p, h, w, limit, i, fuel, flow.env, ss[1..]) else flow
         case None => Stuck)
      case When(c, a) =>
        (match Eval(p, h, w, limit, i, env, c)
         case Some(v) =>
           var flow := if h.truth(v) then Exec(p, h, w, limit, i, fuel, env, a) else Next(env);
           if flow.Next? then Exec(p, h, w, limit, i, fuel, flow.env, ss[1..]) else flow
         case None => Stuck)
      case While(c, b) =>
        (match Eval(p, h, w, limit, i, env, c)
         case Some(v) =>
           if !h.truth(v) then Exec(p, h, w, limit, i, fuel, env, ss[1..])
           else if fuel == 0 then Stuck
           else
             var flow := Exec(p, h, w, limit, i, fuel - 1, env, b);
             if flow.Next? then Exec(p, h, w, limit, i, fuel - 1, flow.env, ss) else flow
         case None => Stuck)
      case _ =>
        (match Assigned(p, h, w, limit, i, env, ss[0])
         case Some(next) => Exec(p, h, w, limit, i, fuel, next, ss[1..])
         case None => Stuck)
  }

  function Run(p: Program, h: Effect, w: Globals, limit: nat, i: nat, args: seq<Value>): Option<Value>
    requires i < |p.bodies| == |p.shader.funcs|
    decreases i, 2
  {
    var params := p.shader.funcs[i].params;
    if |args| != |params| then None
    else match Exec(p, h, w, limit, i, limit, Bind(params, args), p.bodies[i])
      case Returned(v) => Some(v)
      case _ => None
  }

  // ---------------------------------------------------------------------------------------------------------
  // Lifted programs: whatever a function uses, it was handed

  datatype Lifted = Lifted(names: seq<string>, params: seq<seq<string>>, bodies: seq<seq<M.Stmt>>)

  type Frame = map<string, Arg>

  function Values(args: seq<Arg>): Option<seq<Value>> {
    if args == [] then Some([])
    else if !args[0].Val? then None
    else
      var vs :- Values(args[1..]);
      Some([args[0].value] + vs)
  }

  function AsArg(v: Option<Value>): Option<Arg> {
    if v.Some? then Some(Val(v.value)) else None
  }

  /** An expression that must have a value. */
  function LValue(q: Lifted, g: Metal, limit: nat, i: nat, env: Frame, e: M.Expr): Option<Value>
    requires i < |q.bodies| == |q.params| == |q.names|
    decreases i, 0, 0, e, 1
  {
    var a :- LEval(q, g, limit, i, env, e);
    if a.Val? then Some(a.value) else None
  }

  function LEval(q: Lifted, g: Metal, limit: nat, i: nat, env: Frame, e: M.Expr): Option<Arg>
    requires i < |q.bodies| == |q.params| == |q.names|
    decreases i, 0, 0, e, 0
  {
    match e
    case Literal(n) => Some(Val(g.literal(n)))
    case Name(x) => if x in env then Some(env[x]) else None
    case Paren(x) => LEval(q, g, limit, i, env, x)
    case Negate(x) =>
      var v :- LValue(q, g, limit, i, env, x);
      AsArg(g.apply("-", [v]))
    case Infix(op, l, r) =>
      var a :- LValue(q, g, limit, i, env, l);
      var b :- LValue(q, g, limit, i, env, r);
      AsArg(g.apply(op, [a, b]))
    case Conditional(c, a, b) =>
      var v :- LValue(q, g, limit, i, env, c);
      AsArg(LValue(q, g, limit, i, env, if g.truth(v) then a else b))
    case Member(o, f) =>
      var a :- LEval(q, g, limit, i, env, o);
      (match a
       case Val(v) => AsArg(g.apply("." + f, [v]))
       case Buffer(us) => if f in us then Some(Val(us[f])) else None
       case _ => None)
    case Index(o, n) =>
      var v :- LValue(q, g, limit, i, env, o);
      var u :- LValue(q, g, limit, i, env, n);
      AsArg(g.apply("[]", [v, u]))
    case Call(f, args) =>
      var vs :- LEvalArgs(q, g, limit, i, env, args);
      var j := IndexOf(q.names, f);
      if j == |q.names| then
        var values :- Values(vs);
        AsArg(g.apply(f, values))
      else if j < i then AsArg(LRun(q, g, limit, j, vs))
      else None
    case Method(o, f, args) =>
      var t :- LEval(q, g, limit, i, env, o);
      var vs :- LEvalArgs(q, g, limit, i, env, args);
      if t.Texture? then AsArg(g.call(t.id, f, vs)) else None
  }

  function LEvalArgs(q: Lifted, g: Metal, limit: nat, i: nat, env: Frame, args: seq<M.Expr>): Option<seq<Arg>>
    requires i < |q.bodies| == |q.params| == |q.names|
    decreases i, 0, 0, args, 0
  {
    if args == [] then Some([])
    else
      var v :- LEval(q, g, limit, i, env, args[0]);
      var vs :- LEvalArgs(q, g, limit, i, env, args[1..]);
      Some([v] + vs)
  }

  function LAssigned(q: Lifted, g: Metal, limit: nat, i: nat, env: Frame, s: M.Stmt): Option<Frame>
    requires i < |q.bodies| == |q.params| == |q.names|
    requires s.Let? || s.Declare? || s.Assign?
    decreases i, 0, 1
  {
    match s
    case Let(t, x) => Some(env[x := Val(g.initial(t))])
    case Declare(t, x, e) =>
      var v :- LValue(q, g, limit, i, env, e);
      var c :- g.convert(t, v);
      Some(env[x := Val(c)])
    case Assign(x, fields, op, e) =>
      var v :- LValue(q, g, limit, i, env, e);
      if x !in env || !env[x].Val? then None
      else
        var c :- Stored(g.apply, op, env[x].value, fields, v);
        var u :- g.update(env[x].value, fields, c);
        Some(env[x := Val(u)])
  }

  function LExec(q: Lifted, g: Metal, limit: nat, i: nat, fuel: nat, env: Frame, ss: seq<M.Stmt>): Flow<Frame>
    requires i < |q.bodies| == |q.params| == |q.names|
    decreases i, 1, fuel, ss
  {
    if ss == [] then Next(env)
    else match ss[0]
      case Return(e) =>
        (match LValue(q, g, limit, i, env, e)
         case Some(v) => Returned(v)
         case None => Stuck)
      case If(c, a, b) =>
        (match LValue(q, g, limit, i, env, c)
         case Some(v) =>
           var flow := LExec(q, g, limit, i, fuel, env, if g.truth(v) then a else b);
           if flow.Next? then LExec(q, g, limit, i, fuel, flow.env, ss[1..]) else flow
         case None => Stuck)
      case When(c, a) =>
        (match LValue(q, g, limit, i, env, c)
         case Some(v) =>
           var flow := if g.truth(v) then LExec(q, g, limit, i, fuel, env, a) else Next(env);
           if flow.Next? then LExec(q, g, limit, i, fuel, flow.env, ss[1..]) else flow
         case None => Stuck)
      case While(c, b) =>
        (match LValue(q, g, limit, i, env, c)
         case Some(v) =>
           if !g.truth(v) then LExec(q, g, limit, i, fuel, env, ss[1..])
           else if fuel == 0 then Stuck
           else
             var flow := LExec(q, g, limit, i, fuel - 1, env, b);
             if flow.Next? then LExec(q, g, limit, i, fuel - 1, flow.env, ss) else flow
         case None => Stuck)
      case _ =>
        (match LAssigned(q, g, limit, i, env, ss[0])
         case Some(next) => LExec(q, g, limit, i, fuel, next, ss[1..])
         case None => Stuck)
  }

  function LRun(q: Lifted, g: Metal, limit: nat, i: nat, args: seq<Arg>): Option<Value>
    requires i < |q.bodies| == |q.params| == |q.names|
    decreases i, 2
  {
    if |args| != |q.params[i]| then None
    else match LExec(q, g, limit, i, limit, Bind(q.params[i], args), q.bodies[i])
      case Returned(v) => Some(v)
      case _ => None
  }

  /** The program the Metal back end emits. */
  function LiftProgram(p: Program): (q: Lifted)
    requires |p.bodies| == |p.shader.funcs|
    ensures |q.bodies| == |q.params| == |q.names| == |p.bodies|
  {
    var sh := p.shader;
    var data := FinalAnalysis(sh);
    Lifted(FunctionNames(sh),
           seq(|sh.funcs|, i requires 0 <= i < |sh.funcs| => Signature(sh, FinalData(sh, i), sh.funcs[i])),
           seq(|sh.funcs|, i requires 0 <= i < |sh.funcs| => LiftBody(sh, data, p.bodies[i])))
  }

  // ---------------------------------------------------------------------------------------------------------
  // What the translation makes of the effect language

  /** The effect language as the Metal back end realises it in Metal. */
  function Induced(sh: Shader, g: Metal): Effect {
    Effect(
      g.literal,
      (f, vs) => InducedApply(g, f, vs),
      (f: string, t: nat, s: nat, vs: seq<Value>) => InducedAccess(g, f, t, s, vs),
      (t: nat, vs: seq<Value>) => InducedLoad(g, t, vs),
      g.truth,
      (t, v) => g.convert(MetalType(sh, t), v),
      t => g.initial(MetalType(sh, t)),
      g.update)
  }

  /** Products by `*` and `+`, integer vectors by conversions, everything else by the Metal function of its name. */
  function InducedApply(g: Metal, f: string, vs: seq<Value>): Option<Value> {
    if f == "mul" && |vs| == 2 then g.apply("*", vs)
    else if f == "mad" && |vs| == 3 then
      var product :- g.apply("*", vs[..2]);
      g.apply("+", [product, vs[2]])
    else if f == "int3" && |vs| == 3 then
      var a :- g.apply("int", [vs[0]]);
      var b :- g.apply("int", [vs[1]]);
      var c :- g.apply("int", [vs[2]]);
      g.apply("int3", [a, b, c])
    else if f == "int3" && |vs| == 2 then
      var a :- g.apply("int2", [vs[0]]);
      var b :- g.apply("int", [vs[1]]);
      g.apply("int3", [a, b])
    else g.apply(MetalName(f), vs)
  }

  function InducedAccess(g: Metal, f: string, t: nat, s: nat, vs: seq<Value>): Option<Value> {
    if f == "Sample" && |vs| == 1 then g.call(t, "sample", [Sampler(s), Val(vs[0])])
    else if f == "SampleGrad" && |vs| == 3 then
      var gradient :- g.apply("gradient2d", vs[1..]);
      g.call(t, "sample", [Sampler(s), Val(vs[0]), Val(gradient)])
    else if (f == "SampleBias" || f == "SampleLevel") && |vs| == 2 then
      var option :- g.apply(if f == "SampleBias" then "bias" else "level", vs[1..]);
      g.call(t, "sample", [Sampler(s), Val(vs[0]), Val(option)])
    else None
  }

  function InducedLoad(g: Metal, t: nat, vs: seq<Value>): Option<Value> {
    if |vs| == 1 then
      var xy :- g.apply(".xy", vs);
      var at :- g.apply("uint2", [xy]);
      g.call(t, "read", [Val(at), Val(g.literal("0"))])
    else if |vs| == 3 then
      var x :- g.apply("int", [vs[0]]);
      var y :- g.apply("int", [vs[1]]);
      var z :- g.apply("int", [vs[2]]);
      var at :- g.apply("uint2", [x, y]);
      var level :- g.apply("uint", [z]);
      g.call(t, "read", [Val(at), Val(level)])
    else if |vs| == 2 then
      var xy :- g.apply("int2", [vs[0]]);
      var z :- g.apply("int", [vs[1]]);
      var at :- g.apply("uint2", [xy]);
      var level :- g.apply("uint", [z]);
      g.call(t, "read", [Val(at), Val(level)])
    else None
  }
}
