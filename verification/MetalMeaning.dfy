/** The lifted program, handed its globals, computes what the program with globals computes. */
module MetalMeaning {
  import opened Options
  import opened ShaderTokens
  import opened MetalTranspiler
  import opened MetalAnalysis
  import opened MetalSignatures
  import opened MetalScoping
  import opened MetalSyntax
  import opened MetalRendering
  import opened MetalLifting
  import opened MetalMachines
  import M = MetalText

  // ---------------------------------------------------------------------------------------------------------
  // The programs the claim is about

  /** Helpers come first and name what is in scope; locals do not shadow globals; globals have different names. */
  ghost predicate Proper(p: Program) {
    var sh, data := p.shader, FinalAnalysis(p.shader);
    && |p.bodies| == |sh.funcs|
    && WellFormed(sh)
    && Distinct(Declared(sh, Uniforms) + Declared(sh, Textures) + Declared(sh, Samplers))
    && SafeDelimiters(data)
    && NamesAreFree(sh)
    && forall i :: 0 <= i < |sh.funcs| ==>
         && ProperBody(sh, data, p.bodies[i])
         && BodyTokens(p.bodies[i]) + [END] <= sh.funcs[i].body
         && forall x :: x in sh.funcs[i].params ==> LocalName(sh, x)
  }

  /** Every helper first uses its textures and its samplers in the order of their declaration. */
  ghost predicate UsesInOrder(sh: Shader) {
    forall i, kind :: 0 <= i < |sh.funcs| && sh.funcs[i].name != "main" ==>
      FirstUsesInOrder(Declared(sh, kind), Uses(sh, i, kind))
  }

  /** The globals are those the shader declares. */
  ghost predicate Fits(sh: Shader, w: Globals) {
    && (forall n :: n in w.uniforms <==> n in UniformNames(sh))
    && (forall n :: n in w.textures <==> n in Declared(sh, Textures))
    && (forall n :: n in w.samplers <==> n in Declared(sh, Samplers))
  }

  function Vals(vs: seq<Value>): (args: seq<Arg>)
    ensures |args| == |vs|
  {
    seq(|vs|, k requires 0 <= k < |vs| => Val(vs[k]))
  }

  /** What the extra parameter `g` stands for. */
  function GlobalArg(w: Globals, g: string): Arg {
    if g in w.textures then Texture(w.textures[g])
    else if g in w.samplers then Sampler(w.samplers[g])
    else Buffer(w.uniforms)
  }

  function GlobalArgs(w: Globals, names: seq<string>): (args: seq<Arg>)
    ensures |args| == |names|
  {
    seq(|names|, k requires 0 <= k < |names| => GlobalArg(w, names[k]))
  }

  /** The frame of a lifted function: the locals, and the globals it was handed. */
  function FrameOf(env: Env, w: Globals, extras: seq<string>): Frame {
    (map x | x in env :: Val(env[x])) + (map g | g in extras :: GlobalArg(w, g))
  }

  lemma FrameAssign(env: Env, w: Globals, extras: seq<string>, x: string, v: Value)
    requires x !in extras
    ensures FrameOf(env[x := v], w, extras) == FrameOf(env, w, extras)[x := Val(v)]
  {
  }

  lemma {:induction false} BindLocals(params: seq<string>, vs: seq<Value>, w: Globals)
    requires |params| == |vs|
    ensures Bind(params, Vals(vs)) == FrameOf(Bind(params, vs), w, [])
  {
    if params != [] {
      var n := |params| - 1;
      assert Vals(vs)[..n] == Vals(vs[..n]);
      BindLocals(params[..n], vs[..n], w);
      FrameAssign(Bind(params[..n], vs[..n]), w, [], params[n], vs[n]);
    }
  }

  /** Binding the extra arguments behind the others yields the frame. */
  lemma {:induction false} BindExtras(params: seq<string>, vs: seq<Value>, w: Globals, extras: seq<string>)
    requires |params| == |vs|
    ensures Bind(params + extras, Vals(vs) + GlobalArgs(w, extras)) == FrameOf(Bind(params, vs), w, extras)
    decreases |extras|
  {
    hide Bind, FrameOf, GlobalArg, Vals;
    if extras == [] {
      assert params + extras == params && Vals(vs) + GlobalArgs(w, extras) == Vals(vs);
      BindLocals(params, vs, w);
    } else {
      var init, g := extras[..|extras| - 1], extras[|extras| - 1];
      BindExtras(params, vs, w, init);
      BindOneMore(params, vs, w, init, g);
      assert extras == init + [g];
    }
  }

  lemma BindOneMore(params: seq<string>, vs: seq<Value>, w: Globals, init: seq<string>, g: string)
    requires |params| == |vs|
    requires Bind(params + init, Vals(vs) + GlobalArgs(w, init)) == FrameOf(Bind(params, vs), w, init)
    ensures Bind(params + (init + [g]), Vals(vs) + GlobalArgs(w, init + [g]))
         == FrameOf(Bind(params, vs), w, init + [g])
  {
    hide Bind, FrameOf, GlobalArgs, Vals, GlobalArg;
    FrameExtra(Bind(params, vs), w, init, g);
    GlobalArgsLast(w, init, g);
    BindLast(params + init, Vals(vs) + GlobalArgs(w, init), g, GlobalArg(w, g));
    assert params + (init + [g]) == params + init + [g];
    assert Vals(vs) + (GlobalArgs(w, init) + [GlobalArg(w, g)]) == Vals(vs) + GlobalArgs(w, init) + [GlobalArg(w, g)];
  }

  lemma BindLast<T>(params: seq<string>, args: seq<T>, x: string, v: T)
    requires |params| == |args|
    ensures Bind(params + [x], args + [v]) == Bind(params, args)[x := v]
  {
    assert (params + [x])[..|params|] == params && (args + [v])[..|args|] == args;
  }

  lemma GlobalArgsLast(w: Globals, names: seq<string>, g: string)
    ensures GlobalArgs(w, names + [g]) == GlobalArgs(w, names) + [GlobalArg(w, g)]
  {
  }

  lemma FrameExtra(env: Env, w: Globals, extras: seq<string>, g: string)
    ensures FrameOf(env, w, extras + [g]) == FrameOf(env, w, extras)[g := GlobalArg(w, g)]
  {
  }

  // ---------------------------------------------------------------------------------------------------------
  // Arguments

  lemma {:induction false} ValuesOfVals(vs: seq<Value>)
    ensures Values(Vals(vs)) == Some(vs)
  {
    if vs != [] {
      assert Vals(vs)[1..] == Vals(vs[1..]);
      ValuesOfVals(vs[1..]);
      assert [vs[0]] + vs[1..] == vs;
    }
  }

  lemma {:induction false} ArgsConcat(q: Lifted, g: Metal, limit: nat, i: nat, env: Frame, a: seq<M.Expr>,
                                      b: seq<M.Expr>, vs: seq<Arg>, us: seq<Arg>)
    requires i < |q.bodies| == |q.params| == |q.names|
    requires LEvalArgs(q, g, limit, i, env, b) == Some(us)
    ensures LEvalArgs(q, g, limit, i, env, a) == Some(vs) ==> LEvalArgs(q, g, limit, i, env, a + b) == Some(vs + us)
    ensures LEvalArgs(q, g, limit, i, env, a) == None ==> LEvalArgs(q, g, limit, i, env, a + b) == None
    decreases |a|
  {
    hide LEval;
    if a == [] {
      assert a + b == b && [] + us == us;
    } else {
      assert (a + b)[1..] == a[1..] + b;
      var rest := LEvalArgs(q, g, limit, i, env, a[1..]);
      if rest.Some? {
        ArgsConcat(q, g, limit, i, env, a[1..], b, rest.value, us);
        var v := LEval(q, g, limit, i, env, a[0]);
        if v.Some? {
          assert [v.value] + rest.value + us == [v.value] + (rest.value + us);
        }
      } else {
        ArgsConcat(q, g, limit, i, env, a[1..], b, [], us);
      }
    }
  }

  /** The globals a call passes on are looked up by their names. */
  lemma {:induction false} NamesEvaluate(q: Lifted, g: Metal, limit: nat, i: nat, env: Env, w: Globals,
                                         extras: seq<string>, names: seq<string>)
    requires i < |q.bodies| == |q.params| == |q.names|
    requires forall n :: n in names ==> n in extras
    ensures LEvalArgs(q, g, limit, i, FrameOf(env, w, extras), Names(names)) == Some(GlobalArgs(w, names))
    decreases |names|
  {
    if names != [] {
      var frame := FrameOf(env, w, extras);
      assert names[0] in names;
      FrameLookup(env, w, extras, names[0]);
      NameIs(q, g, limit, i, frame, names[0]);
      NamesEvaluate(q, g, limit, i, env, w, extras, names[1..]);
      hide FrameOf, LEval, LEvalArgs, GlobalArg;
      ArgsStep(q, g, limit, i, frame, Names(names));
      assert Names(names)[1..] == Names(names[1..]);
      assert [GlobalArg(w, names[0])] + GlobalArgs(w, names[1..]) == GlobalArgs(w, names);
    }
  }

  // ---------------------------------------------------------------------------------------------------------
  // What a body mentions

  ghost predicate Within(ts: seq<Token>, body: seq<Token>) {
    forall t :: t in ts ==> t in body
  }

  lemma BodyIsTokens(p: Program, i: nat)
    requires Proper(p) && i < |p.bodies|
    ensures Body(p.shader.funcs[i]) == BodyTokens(p.bodies[i]) + [END]
    ensures Within(BodyTokens(p.bodies[i]), Body(p.shader.funcs[i]))
  {
    hide WellFormed, SafeDelimiters, Distinct, FinalAnalysis, Declared, ProperBody;
    var body, ts := p.shader.funcs[i].body, BodyTokens(p.bodies[i]);
    var post := body[|ts| + 1..];
    assert body == ts + ([END] + post);
    SkipBody(p.shader, FinalAnalysis(p.shader), p.bodies[i], post);
  }

  lemma LocalIsNoExtra(sh: Shader, i: nat, x: string)
    requires WellFormed(sh) && i < |sh.funcs| && LocalName(sh, x)
    ensures x !in Extras(sh, i)
  {
    ExtraIsDeclared(sh, i, Uniforms, x);
    ExtraIsDeclared(sh, i, Textures, x);
    ExtraIsDeclared(sh, i, Samplers, x);
  }

  lemma ExtraIsDeclared(sh: Shader, i: nat, kind: Kind, g: string)
    requires i < |sh.funcs|
    ensures g in ExtraParameters(sh, FinalData(sh, i), sh.funcs[i].name == "main", kind) ==> g in Declared(sh, kind)
  {
    KeepElements(Declared(sh, kind), FinalData(sh, i).Needs(kind));
  }

  // ---------------------------------------------------------------------------------------------------------
  // The simulation

  ghost predicate Setting(p: Program, w: Globals, i: nat) {
    Proper(p) && UsesInOrder(p.shader) && Fits(p.shader, w) && i < |p.bodies|
  }

  function Framed(flow: Flow<Env>, w: Globals, extras: seq<string>): Flow<Frame> {
    match flow
    case Next(env) => Next(FrameOf(env, w, extras))
    case Returned(v) => Returned(v)
    case Stuck => Stuck
  }

  lemma NotIn(a: seq<string>, b: seq<string>, x: string)
    requires Distinct(a + b) && x in a
    ensures x !in b
  {
    var i :| 0 <= i < |a| && a[i] == x;
    forall j | 0 <= j < |b|
      ensures b[j] != x
    {
      assert (a + b)[i] == x && (a + b)[|a| + j] == b[j];
    }
  }

  /** Uniform buffer, textures and samplers go by different names. */
  lemma KindsAreDisjoint(p: Program, x: string)
    requires Proper(p)
    ensures WellFormed(p.shader)
    ensures x in Declared(p.shader, Uniforms) ==> x !in Declared(p.shader, Textures)
    ensures x in Declared(p.shader, Uniforms) ==> x !in Declared(p.shader, Samplers)
    ensures x in Declared(p.shader, Textures) ==> x !in Declared(p.shader, Samplers)
  {
    hide Declared, Distinct, WellFormed, SafeDelimiters, ProperBody;
    var u, t, s := Declared(p.shader, Uniforms), Declared(p.shader, Textures), Declared(p.shader, Samplers);
    assert u + t + s == u + (t + s);
    if x in u {
      NotIn(u, t + s, x);
    }
    if x in t {
      NotIn(u + t, s, x);
    }
  }

  /** The frame of a function holds what its body names. */
  lemma NamedIsInFrame(p: Program, w: Globals, i: nat, kind: Kind, n: string, g: string)
    requires Setting(p, w, i) && Mentions(p.shader, i, n) && g in Own(p.shader, kind, n)
    ensures g in Extras(p.shader, i) && g in Declared(p.shader, kind)
    ensures GlobalArg(w, g) == match kind
                               case Uniforms => Buffer(w.uniforms)
                               case Textures => if g in w.textures then Texture(w.textures[g]) else Buffer(map[])
                               case Samplers => if g in w.samplers then Sampler(w.samplers[g]) else Buffer(map[])
  {
    KindsAreDisjoint(p, g);
    hide Proper, UsesInOrder, WellFormed, UniformNames, TextureNames;
    OwnIsExtra(p.shader, i, kind, n, g);
  }

  /** A call passes on exactly the extra parameters of the callee, which the caller has. */
  lemma CallPasses(p: Program, w: Globals, i: nat, f: string, j: nat)
    requires Setting(p, w, i) && Mentions(p.shader, i, f) && f != "main"
    requires j < |p.shader.funcs| && p.shader.funcs[j].name == f
    ensures j < i
    ensures DataOf(FinalAnalysis(p.shader), f).AdditionalArguments() == Extras(p.shader, j)
    ensures forall g :: g in Extras(p.shader, j) ==> g in Extras(p.shader, i)
  {
    hide Distinct, FirstUsesInOrder, Declared, SafeDelimiters, ProperBody, Uses;
    var sh := p.shader;
    CallMatchesSignature(sh, j, Uniforms);
    CallMatchesSignature(sh, j, Textures);
    CallMatchesSignature(sh, j, Samplers);
    forall g | g in Extras(sh, j)
      ensures g in Extras(sh, i)
    {
      PassedIsExtra(sh, i, f, g);
    }
  }

  lemma Sizes(p: Program, w: Globals, i: nat)
    requires Setting(p, w, i)
    ensures i < |p.bodies| == |p.shader.funcs|
  {
  }

  lemma FrameLookup(env: Env, w: Globals, extras: seq<string>, x: string)
    ensures x in FrameOf(env, w, extras) <==> x in env || x in extras
    ensures x in extras ==> FrameOf(env, w, extras)[x] == GlobalArg(w, x)
    ensures x in env && x !in extras ==> FrameOf(env, w, extras)[x] == Val(env[x])
  {
  }

  // ---------------------------------------------------------------------------------------------------------
  // Single applications

  lemma InducedIs(sh: Shader, g: Metal, f: string, vs: seq<Value>)
    ensures Induced(sh, g).apply(f, vs) == InducedApply(g, f, vs)
  {
  }

  /** Operators and members go by the same name. */
  lemma SameName(sh: Shader, g: Metal, f: string, vs: seq<Value>)
    requires M.OpLevel(f) > 0 || f == "[]" || (f != "" && f[0] == '.')
    ensures Induced(sh, g).apply(f, vs) == g.apply(f, vs)
  {
    InducedIs(sh, g, f, vs);
    NotRespelled(f);
    hide MetalName;
  }

  lemma NotRespelled(f: string)
    requires M.OpLevel(f) > 0 || f == "[]" || (f != "" && f[0] == '.')
    ensures MetalName(f) == f && f != "mul" && f != "mad" && f != "int3"
  {
  }

  // ---------------------------------------------------------------------------------------------------------
  // Expressions

  /** The lifted expression in the frame of the lifted function, and the expression itself. */
  ghost predicate SameValue(p: Program, g: Metal, w: Globals, limit: nat, i: nat, env: Env, e: Expr)
    requires i < |p.bodies| == |p.shader.funcs|
  {
    LEval(LiftProgram(p), g, limit, i, FrameOf(env, w, Extras(p.shader, i)), Lift(FinalAnalysis(p.shader), e))
    == AsArg(Eval(p, Induced(p.shader, g), w, limit, i, env, e))
  }

  ghost predicate SameValues(p: Program, g: Metal, w: Globals, limit: nat, i: nat, env: Env, args: seq<Expr>)
    requires i < |p.bodies| == |p.shader.funcs|
  {
    var vs := EvalArgs(p, Induced(p.shader, g), w, limit, i, env, args);
    LEvalArgs(LiftProgram(p), g, limit, i, FrameOf(env, w, Extras(p.shader, i)),
              LiftEach(FinalAnalysis(p.shader), args))
    == if vs.Some? then Some(Vals(vs.value)) else None
  }

  lemma {:induction false} EvalSame(p: Program, g: Metal, w: Globals, limit: nat, i: nat, env: Env, e: Expr)
    requires Setting(p, w, i) && ProperExpr(p.shader, FinalAnalysis(p.shader), e)
    requires Within(Tokens(e), Body(p.shader.funcs[i]))
    ensures SameValue(p, g, w, limit, i, env, e)
    decreases i, 0, 0, e, 2
  {
    hide Setting, FrameOf, Extras, PlainName, OuterName, UniformNames, TextureNames, LiftProgram, GlobalArg,
         FinalAnalysis, Body, DataOf, LRun, Run, Induced, LiftCall;
    Sizes(p, w, i);
    match e {
      case Literal(n) => assert Induced(p.shader, g).literal == g.literal by { InducedLiteral(p.shader, g); }
      case Local(x) => LocalSame(p, w, i, env, x);
      case Uniform(u) =>
        assert Name(u) in Tokens(e);
        UniformIsRead(p, g, w, limit, i, env, u);
      case Paren(x) =>
        assert Within(Tokens(x), Tokens(e));
        EvalSame(p, g, w, limit, i, env, x);
      case Negate(_) => NegateSame(p, g, w, limit, i, env, e);
      case Infix(_, _, _) => InfixSame(p, g, w, limit, i, env, e);
      case Conditional(_, _, _) => ConditionalSame(p, g, w, limit, i, env, e);
      case Member(_, _) => MemberSame(p, g, w, limit, i, env, e);
      case Index(_, _) => IndexSame(p, g, w, limit, i, env, e);
      case Call(_, _) => CallSame(p, g, w, limit, i, env, e);
      case Access(_, _, _) => AccessSame(p, g, w, limit, i, env, e);
    }
  }

  lemma UniformIsRead(p: Program, g: Metal, w: Globals, limit: nat, i: nat, env: Env, u: string)
    requires Setting(p, w, i) && u in UniformNames(p.shader) && Mentions(p.shader, i, u)
    ensures SameValue(p, g, w, limit, i, env, Uniform(u))
  {
    hide Setting, FrameOf, Extras, UniformNames, LiftProgram, FinalAnalysis, Body;
    Sizes(p, w, i);
    UniformSame(p, w, i, env, u);
    var frame := FrameOf(env, w, Extras(p.shader, i));
    assert LEval(LiftProgram(p), g, limit, i, frame, M.Name("uniforms")) == Some(Buffer(w.uniforms));
  }

  lemma ValueIs(q: Lifted, g: Metal, limit: nat, i: nat, env: Frame, e: M.Expr, r: Option<Value>)
    requires i < |q.bodies| == |q.params| == |q.names| && LEval(q, g, limit, i, env, e) == AsArg(r)
    ensures LValue(q, g, limit, i, env, e) == r
  {
    hide LEval;
  }

  lemma InducedLiteral(sh: Shader, g: Metal)
    ensures Induced(sh, g).literal == g.literal && Induced(sh, g).truth == g.truth && Induced(sh, g).update == g.update
  {
  }

  lemma {:induction false} NegateSame(p: Program, g: Metal, w: Globals, limit: nat, i: nat, env: Env, e: Expr)
    requires Setting(p, w, i) && e.Negate? && ProperExpr(p.shader, FinalAnalysis(p.shader), e)
    requires Within(Tokens(e), Body(p.shader.funcs[i]))
    ensures SameValue(p, g, w, limit, i, env, e)
    decreases i, 0, 0, e, 1
  {
    hide Setting, FrameOf, Extras, LiftProgram, FinalAnalysis, Body, LRun, Run, Induced;
    Sizes(p, w, i);
    assert Within(Tokens(e.e), Tokens(e));
    EvalSame(p, g, w, limit, i, env, e.e);
    var v := Eval(p, Induced(p.shader, g), w, limit, i, env, e.e);
    ValueIs(LiftProgram(p), g, limit, i, FrameOf(env, w, Extras(p.shader, i)), Lift(FinalAnalysis(p.shader), e.e), v);
    hide LValue;
    if v.Some? {
      SameName(p.shader, g, "-", [v.value]);
    }
  }

  lemma {:induction false} InfixSame(p: Program, g: Metal, w: Globals, limit: nat, i: nat, env: Env, e: Expr)
    requires Setting(p, w, i) && e.Infix? && ProperExpr(p.shader, FinalAnalysis(p.shader), e)
    requires Within(Tokens(e), Body(p.shader.funcs[i]))
    ensures SameValue(p, g, w, limit, i, env, e)
    decreases i, 0, 0, e, 1
  {
    hide Setting, FrameOf, Extras, LiftProgram, FinalAnalysis, Body, LRun, Run, Induced, M.OpLevel;
    Sizes(p, w, i);
    assert Within(Tokens(e.left), Tokens(e)) && Within(Tokens(e.right), Tokens(e));
    EvalSame(p, g, w, limit, i, env, e.left);
    EvalSame(p, g, w, limit, i, env, e.right);
    var a := Eval(p, Induced(p.shader, g), w, limit, i, env, e.left);
    var b := Eval(p, Induced(p.shader, g), w, limit, i, env, e.right);
    var frame := FrameOf(env, w, Extras(p.shader, i));
    ValueIs(LiftProgram(p), g, limit, i, frame, Lift(FinalAnalysis(p.shader), e.left), a);
    ValueIs(LiftProgram(p), g, limit, i, frame, Lift(FinalAnalysis(p.shader), e.right), b);
    hide LValue;
    if a.Some? && b.Some? {
      SameName(p.shader, g, e.op, [a.value, b.value]);
    }
  }

  lemma {:induction false} ConditionalSame(p: Program, g: Metal, w: Globals, limit: nat, i: nat, env: Env, e: Expr)
    requires Setting(p, w, i) && e.Conditional? && ProperExpr(p.shader, FinalAnalysis(p.shader), e)
    requires Within(Tokens(e), Body(p.shader.funcs[i]))
    ensures SameValue(p, g, w, limit, i, env, e)
    decreases i, 0, 0, e, 1
  {
    hide Setting, FrameOf, Extras, LiftProgram, FinalAnalysis, Body, LRun, Run, Induced;
    Sizes(p, w, i);
    var q, h, frame := LiftProgram(p), Induced(p.shader, g), FrameOf(env, w, Extras(p.shader, i));
    assert Within(Tokens(e.test), Tokens(e)) && Within(Tokens(e.yes), Tokens(e)) && Within(Tokens(e.no), Tokens(e));
    EvalSame(p, g, w, limit, i, env, e.test);
    var v := Eval(p, h, w, limit, i, env, e.test);
    ValueIs(q, g, limit, i, frame, Lift(FinalAnalysis(p.shader), e.test), v);
    if v.Some? {
      InducedLiteral(p.shader, g);
      var branch := if h.truth(v.value) then e.yes else e.no;
      EvalSame(p, g, w, limit, i, env, branch);
      ValueIs(q, g, limit, i, frame, Lift(FinalAnalysis(p.shader), branch), Eval(p, h, w, limit, i, env, branch));
    }
    hide LValue;
  }

  lemma {:induction false} IndexSame(p: Program, g: Metal, w: Globals, limit: nat, i: nat, env: Env, e: Expr)
    requires Setting(p, w, i) && e.Index? && ProperExpr(p.shader, FinalAnalysis(p.shader), e)
    requires Within(Tokens(e), Body(p.shader.funcs[i]))
    ensures SameValue(p, g, w, limit, i, env, e)
    decreases i, 0, 0, e, 1
  {
    hide Setting, FrameOf, Extras, LiftProgram, FinalAnalysis, Body, LRun, Run, Induced;
    Sizes(p, w, i);
    assert Within(Tokens(e.base), Tokens(e)) && Within(Tokens(e.index), Tokens(e));
    EvalSame(p, g, w, limit, i, env, e.base);
    EvalSame(p, g, w, limit, i, env, e.index);
    var a := Eval(p, Induced(p.shader, g), w, limit, i, env, e.base);
    var b := Eval(p, Induced(p.shader, g), w, limit, i, env, e.index);
    var frame := FrameOf(env, w, Extras(p.shader, i));
    ValueIs(LiftProgram(p), g, limit, i, frame, Lift(FinalAnalysis(p.shader), e.base), a);
    ValueIs(LiftProgram(p), g, limit, i, frame, Lift(FinalAnalysis(p.shader), e.index), b);
    hide LValue;
    if a.Some? && b.Some? {
      SameName(p.shader, g, "[]", [a.value, b.value]);
    }
  }

  lemma {:induction false} MemberSame(p: Program, g: Metal, w: Globals, limit: nat, i: nat, env: Env, e: Expr)
    requires Setting(p, w, i) && e.Member? && ProperExpr(p.shader, FinalAnalysis(p.shader), e)
    requires Within(Tokens(e), Body(p.shader.funcs[i]))
    ensures SameValue(p, g, w, limit, i, env, e)
    decreases i, 0, 0, e, 1
  {
    hide Setting, FrameOf, Extras, LiftProgram, FinalAnalysis, Body, LRun, Run, Induced, PlainName;
    Sizes(p, w, i);
    assert Within(Tokens(e.base), Tokens(e));
    EvalSame(p, g, w, limit, i, env, e.base);
    var v := Eval(p, Induced(p.shader, g), w, limit, i, env, e.base);
    if v.Some? {
      SameName(p.shader, g, "." + e.field, [v.value]);
    }
  }

  lemma {:induction false} ArgsSame(p: Program, g: Metal, w: Globals, limit: nat, i: nat, env: Env, args: seq<Expr>)
    requires Setting(p, w, i) && ProperArgs(p.shader, FinalAnalysis(p.shader), args)
    requires Within(ArgTokens(args), Body(p.shader.funcs[i]))
    ensures SameValues(p, g, w, limit, i, env, args)
    decreases i, 0, 0, args, 0
  {
    hide Setting, FinalAnalysis, Body, Tokens, ProperExpr, SameValues;
    Sizes(p, w, i);
    if args == [] {
      NoArgs(p, g, w, limit, i, env);
    } else {
      assert Within(Tokens(args[0]), ArgTokens(args));
      assert |args| > 1 ==> Within(ArgTokens(args[1..]), ArgTokens(args));
      EvalSame(p, g, w, limit, i, env, args[0]);
      ArgsSame(p, g, w, limit, i, env, args[1..]);
      FirstArg(p, g, w, limit, i, env, args);
    }
  }

  lemma NoArgs(p: Program, g: Metal, w: Globals, limit: nat, i: nat, env: Env)
    requires i < |p.bodies| == |p.shader.funcs|
    ensures SameValues(p, g, w, limit, i, env, [])
  {
  }

  lemma FirstArg(p: Program, g: Metal, w: Globals, limit: nat, i: nat, env: Env, args: seq<Expr>)
    requires i < |p.bodies| == |p.shader.funcs| && args != []
    requires SameValue(p, g, w, limit, i, env, args[0]) && SameValues(p, g, w, limit, i, env, args[1..])
    ensures SameValues(p, g, w, limit, i, env, args)
  {
    hide FrameOf, Extras, LiftProgram, FinalAnalysis, Eval, LEval, Induced, EvalArgs, LEvalArgs;
    var h, data := Induced(p.shader, g), FinalAnalysis(p.shader);
    assert LiftEach(data, args)[1..] == LiftEach(data, args[1..]);
    EvalStep(p, h, w, limit, i, env, args);
    ArgsStep(LiftProgram(p), g, limit, i, FrameOf(env, w, Extras(p.shader, i)), LiftEach(data, args));
    var v, vs := Eval(p, h, w, limit, i, env, args[0]), EvalArgs(p, h, w, limit, i, env, args[1..]);
    if v.Some? && vs.Some? {
      assert Vals([v.value] + vs.value) == [Val(v.value)] + Vals(vs.value);
    }
  }

  lemma LocalSame(p: Program, w: Globals, i: nat, env: Env, x: string)
    requires Setting(p, w, i) && LocalName(p.shader, x)
    ensures x !in Extras(p.shader, i)
    ensures var frame := FrameOf(env, w, Extras(p.shader, i));
            (x in frame <==> x in env) && (x in env ==> frame[x] == Val(env[x]))
  {
    LocalIsNoExtra(p.shader, i, x);
    FrameLookup(env, w, Extras(p.shader, i), x);
  }

  lemma UniformSame(p: Program, w: Globals, i: nat, env: Env, u: string)
    requires Setting(p, w, i) && u in UniformNames(p.shader) && Mentions(p.shader, i, u)
    ensures var frame := FrameOf(env, w, Extras(p.shader, i));
            "uniforms" in frame && frame["uniforms"] == Buffer(w.uniforms)
  {
    NamedIsInFrame(p, w, i, Uniforms, u, "uniforms");
    FrameLookup(env, w, Extras(p.shader, i), "uniforms");
  }

  lemma TextureSame(p: Program, w: Globals, i: nat, env: Env, t: string)
    requires Setting(p, w, i) && Mentions(p.shader, i, t) && t in TextureNames(p.shader)
    ensures t in w.textures
    ensures var frame := FrameOf(env, w, Extras(p.shader, i)); t in frame && frame[t] == Texture(w.textures[t])
  {
    NamedIsInFrame(p, w, i, Textures, t, t);
    FrameLookup(env, w, Extras(p.shader, i), t);
  }

  lemma SamplerSame(p: Program, w: Globals, i: nat, env: Env, s: string)
    requires Setting(p, w, i) && Mentions(p.shader, i, s) && s in Declared(p.shader, Samplers)
    ensures s in w.samplers
    ensures var frame := FrameOf(env, w, Extras(p.shader, i)); s in frame && frame[s] == Sampler(w.samplers[s])
  {
    NamedIsInFrame(p, w, i, Samplers, s, s);
    FrameLookup(env, w, Extras(p.shader, i), s);
  }

  // ---------------------------------------------------------------------------------------------------------
  // Calls

  lemma {:induction false} CallSame(p: Program, g: Metal, w: Globals, limit: nat, i: nat, env: Env, e: Expr)
    requires Setting(p, w, i) && e.Call? && ProperExpr(p.shader, FinalAnalysis(p.shader), e)
    requires Within(Tokens(e), Body(p.shader.funcs[i]))
    ensures SameValue(p, g, w, limit, i, env, e)
    decreases i, 0, 0, e, 1
  {
    hide Setting, FrameOf, Extras, PlainName, LiftProgram, FinalAnalysis, Body, LRun, Run, DataOf, Induced, LEval, Eval,
         LEvalArgs, EvalArgs, LiftCall, IsFunction;
    Sizes(p, w, i);
    var f := e.f;
    assert Within(ArgTokens(e.args), Tokens(e));
    ArgsSame(p, g, w, limit, i, env, e.args);
    if f != "mul" && f != "mad" && f != "int3" && IsFunction(p.shader, f) {
      assert Tokens(e)[0] == Name(f);
      PlainIsSame(p.shader, f);
      CalleeIndex(p, w, i, f);
      CallPasses(p, w, i, f, IndexOf(FunctionNames(p.shader), f));
      HelperSame(p, g, w, limit, i, env, e, IndexOf(FunctionNames(p.shader), f));
    } else {
      NotAFunction(p, w, i, f);
      if f == "mul" || f == "mad" || f == "int3" {
        EachSame(p, g, w, limit, i, env, e.args);
      }
      if f == "mul" {
        MulSame(p, g, w, limit, i, env, e);
      } else if f == "mad" {
        MadSame(p, g, w, limit, i, env, e);
      } else if f == "int3" {
        IntsSame(p, g, w, limit, i, env, e);
      } else {
        IntrinsicSame(p, g, w, limit, i, env, e);
      }
    }
  }

  lemma PlainIsSame(sh: Shader, f: string)
    requires PlainName(sh, f)
    ensures MetalName(f) == f
  {
    hide UniformNames, TextureNames;
  }

  /** The call of a helper. */
  lemma {:induction false} HelperSame(p: Program, g: Metal, w: Globals, limit: nat, i: nat, env: Env, e: Expr, j: nat)
    requires Setting(p, w, i) && e.Call? && SameValues(p, g, w, limit, i, env, e.args)
    requires e.f != "mul" && e.f != "mad" && e.f != "int3" && MetalName(e.f) == e.f
    requires j == IndexOf(FunctionNames(p.shader), e.f) < i && Setting(p, w, j)
    requires DataOf(FinalAnalysis(p.shader), e.f).AdditionalArguments() == Extras(p.shader, j)
    requires forall x :: x in Extras(p.shader, j) ==> x in Extras(p.shader, i)
    ensures SameValue(p, g, w, limit, i, env, e)
    decreases i, 0, 0, e, 0
  {
    hide Setting, FrameOf, Extras, FinalAnalysis, LRun, Run, DataOf, Induced, EvalArgs, LEvalArgs, Vals;
    Sizes(p, w, i);
    var sh, q, extra := p.shader, LiftProgram(p), Extras(p.shader, j);
    var frame, args := FrameOf(env, w, Extras(sh, i)), LiftEach(FinalAnalysis(sh), e.args);
    NamesEvaluate(q, g, limit, i, env, w, Extras(sh, i), extra);
    var vs := EvalArgs(p, Induced(sh, g), w, limit, i, env, e.args);
    if vs.Some? {
      ArgsConcat(q, g, limit, i, frame, args, Names(extra), Vals(vs.value), GlobalArgs(w, extra));
      RunSame(p, g, w, limit, j, vs.value);
    } else {
      ArgsConcat(q, g, limit, i, frame, args, Names(extra), [], GlobalArgs(w, extra));
    }
  }

  lemma CalleeIndex(p: Program, w: Globals, i: nat, f: string)
    requires Setting(p, w, i) && IsFunction(p.shader, f)
    ensures var j := IndexOf(FunctionNames(p.shader), f);
            j < |p.shader.funcs| && p.shader.funcs[j].name == f && Setting(p, w, j)
    ensures LiftProgram(p).names == FunctionNames(p.shader)
  {
    hide Proper, UsesInOrder, Fits;
    var k :| 0 <= k < |p.shader.funcs| && p.shader.funcs[k].name == f;
    assert FunctionNames(p.shader)[k] == f;
    IndexOfPresent(FunctionNames(p.shader), f);
    assert |p.bodies| == |p.shader.funcs| by { ProperIsSized(p); }
  }

  lemma ProperIsSized(p: Program)
    requires Proper(p)
    ensures |p.bodies| == |p.shader.funcs|
  {
  }

  lemma {:induction false} IndexOfPresent(names: seq<string>, n: string)
    ensures IndexOf(names, n) < |names| <==> n in names
  {
    if names != [] && names[0] != n {
      assert n in names <==> n in names[1..];
      IndexOfPresent(names[1..], n);
    }
  }

  /** Neither the name nor its Metal spelling is one of a function of the program. */
  lemma NotAFunction(p: Program, w: Globals, i: nat, f: string)
    requires Setting(p, w, i) && (f == "mul" || f == "mad" || f == "int3" || !IsFunction(p.shader, f))
    ensures IndexOf(FunctionNames(p.shader), f) == |p.bodies|
    ensures forall n :: n in METAL_NAMES || n == f || n == MetalName(f) || n == "int3" ==>
              IndexOf(LiftProgram(p).names, n) == |LiftProgram(p).names|
  {
    var sh := p.shader;
    assert NamesAreFree(sh) && |p.bodies| == |sh.funcs|;
    MetalNameIsKnown(f);
    hide Setting, Proper, MetalName, METAL_NAMES;
    forall n
      ensures IndexOf(FunctionNames(sh), n) < |sh.funcs| <==> IsFunction(sh, n)
    {
      IndexOfPresent(FunctionNames(sh), n);
      if IsFunction(sh, n) {
        var k :| 0 <= k < |sh.funcs| && sh.funcs[k].name == n;
        assert FunctionNames(sh)[k] == n;
      }
    }
  }

  /** Nothing in the program is called like this. */
  ghost predicate Foreign(q: Lifted, f: string) {
    IndexOf(q.names, f) == |q.names|
  }

  /** The function applied to what an expression yields, if it yields something. */
  function Applied(g: Metal, f: string, r: Option<Value>): Option<Value> {
    if r.Some? then g.apply(f, [r.value]) else None
  }

  function Applied2(g: Metal, f: string, r: Option<Value>, s: Option<Value>): Option<Value> {
    if r.Some? && s.Some? then g.apply(f, [r.value, s.value]) else None
  }

  function Applied3(g: Metal, f: string, r: Option<Value>, s: Option<Value>, t: Option<Value>): Option<Value> {
    if r.Some? && s.Some? && t.Some? then g.apply(f, [r.value, s.value, t.value]) else None
  }

  lemma SingleOf(q: Lifted, g: Metal, limit: nat, i: nat, env: Frame, a: M.Expr)
    requires i < |q.bodies| == |q.params| == |q.names|
    ensures var r := LEval(q, g, limit, i, env, a);
      LEvalArgs(q, g, limit, i, env, [a]) == if r.Some? then Some([r.value]) else None
  {
    hide LEval;
    var r := LEval(q, g, limit, i, env, a);
    assert [a][1..] == [] && LEvalArgs(q, g, limit, i, env, []) == Some([]);
    if r.Some? {
      assert [r.value] + [] == [r.value];
    }
  }

  lemma Pairs<T(!new)>()
    ensures forall x: T :: [x] + [] == [x]
    ensures forall x: T, y: T :: [x] + [y] == [x, y]
    ensures forall x: T, y: T, z: T :: [x] + [y, z] == [x, y, z]
  {
  }

  lemma ArgsStep(q: Lifted, g: Metal, limit: nat, i: nat, env: Frame, args: seq<M.Expr>)
    requires i < |q.bodies| == |q.params| == |q.names| && args != []
    ensures var r, rs := LEval(q, g, limit, i, env, args[0]), LEvalArgs(q, g, limit, i, env, args[1..]);
      LEvalArgs(q, g, limit, i, env, args) == if r.Some? && rs.Some? then Some([r.value] + rs.value) else None
  {
    hide LEval;
  }

  lemma PairOf(q: Lifted, g: Metal, limit: nat, i: nat, env: Frame, a: M.Expr, b: M.Expr)
    requires i < |q.bodies| == |q.params| == |q.names|
    ensures var r, s := LEval(q, g, limit, i, env, a), LEval(q, g, limit, i, env, b);
      LEvalArgs(q, g, limit, i, env, [a, b]) == if r.Some? && s.Some? then Some([r.value, s.value]) else None
  {
    hide LEval, LEvalArgs;
    SingleOf(q, g, limit, i, env, b);
    assert [a, b][1..] == [b];
    ArgsStep(q, g, limit, i, env, [a, b]);
    Pairs<Arg>();
  }

  lemma TripleOf(q: Lifted, g: Metal, limit: nat, i: nat, env: Frame, a: M.Expr, b: M.Expr, c: M.Expr)
    requires i < |q.bodies| == |q.params| == |q.names|
    ensures var r, s, t := LEval(q, g, limit, i, env, a), LEval(q, g, limit, i, env, b), LEval(q, g, limit, i, env, c);
      LEvalArgs(q, g, limit, i, env, [a, b, c])
      == if r.Some? && s.Some? && t.Some? then Some([r.value, s.value, t.value]) else None
  {
    hide LEval, LEvalArgs;
    PairOf(q, g, limit, i, env, b, c);
    assert [a, b, c][1..] == [b, c];
    ArgsStep(q, g, limit, i, env, [a, b, c]);
    Pairs<Arg>();
  }

  lemma ForeignCall(q: Lifted, g: Metal, limit: nat, i: nat, env: Frame, f: string, args: seq<M.Expr>, vs: seq<Value>)
    requires i < |q.bodies| == |q.params| == |q.names| && Foreign(q, f)
    requires LEvalArgs(q, g, limit, i, env, args) == Some(Vals(vs))
    ensures LEval(q, g, limit, i, env, M.Call(f, args)) == AsArg(g.apply(f, vs))
  {
    hide LEvalArgs, LRun;
    ValuesOfVals(vs);
  }

  lemma CallOne(q: Lifted, g: Metal, limit: nat, i: nat, env: Frame, f: string, a: M.Expr, r: Option<Value>)
    requires i < |q.bodies| == |q.params| == |q.names| && Foreign(q, f)
    requires LEval(q, g, limit, i, env, a) == AsArg(r)
    ensures LEval(q, g, limit, i, env, M.Call(f, [a])) == AsArg(Applied(g, f, r))
  {
    SingleOf(q, g, limit, i, env, a);
    if r.Some? {
      assert Vals([r.value]) == [Val(r.value)];
      ForeignCall(q, g, limit, i, env, f, [a], [r.value]);
    }
    hide LEvalArgs, Foreign;
  }

  lemma CallTwo(q: Lifted, g: Metal, limit: nat, i: nat, env: Frame, f: string, a: M.Expr, b: M.Expr,
                r: Option<Value>, s: Option<Value>)
    requires i < |q.bodies| == |q.params| == |q.names| && Foreign(q, f)
    requires LEval(q, g, limit, i, env, a) == AsArg(r) && LEval(q, g, limit, i, env, b) == AsArg(s)
    ensures LEval(q, g, limit, i, env, M.Call(f, [a, b])) == AsArg(Applied2(g, f, r, s))
  {
    PairOf(q, g, limit, i, env, a, b);
    if r.Some? && s.Some? {
      assert Vals([r.value, s.value]) == [Val(r.value), Val(s.value)];
      ForeignCall(q, g, limit, i, env, f, [a, b], [r.value, s.value]);
    }
    hide LEvalArgs, Foreign;
  }

  lemma CallThree(q: Lifted, g: Metal, limit: nat, i: nat, env: Frame, f: string, a: M.Expr, b: M.Expr, c: M.Expr,
                  r: Option<Value>, s: Option<Value>, t: Option<Value>)
    requires i < |q.bodies| == |q.params| == |q.names| && Foreign(q, f)
    requires LEval(q, g, limit, i, env, a) == AsArg(r) && LEval(q, g, limit, i, env, b) == AsArg(s)
    requires LEval(q, g, limit, i, env, c) == AsArg(t)
    ensures LEval(q, g, limit, i, env, M.Call(f, [a, b, c])) == AsArg(Applied3(g, f, r, s, t))
  {
    TripleOf(q, g, limit, i, env, a, b, c);
    if r.Some? && s.Some? && t.Some? {
      assert Vals([r.value, s.value, t.value]) == [Val(r.value), Val(s.value), Val(t.value)];
      ForeignCall(q, g, limit, i, env, f, [a, b, c], [r.value, s.value, t.value]);
    }
    hide LEvalArgs, Foreign;
  }

  /** Two operands in parentheses. */
  lemma InfixOf(q: Lifted, g: Metal, limit: nat, i: nat, env: Frame, op: string, a: M.Expr, b: M.Expr,
                r: Option<Value>, s: Option<Value>)
    requires i < |q.bodies| == |q.params| == |q.names|
    requires LEval(q, g, limit, i, env, a) == AsArg(r) && LEval(q, g, limit, i, env, b) == AsArg(s)
    ensures LEval(q, g, limit, i, env, M.Infix(op, M.Paren(a), M.Paren(b))) == AsArg(Applied2(g, op, r, s))
  {
    var x, y := M.Paren(a), M.Paren(b);
    assert LEval(q, g, limit, i, env, x) == AsArg(r) && LEval(q, g, limit, i, env, y) == AsArg(s);
  }

  lemma EvalStep(p: Program, h: Effect, w: Globals, limit: nat, i: nat, env: Env, args: seq<Expr>)
    requires i < |p.bodies| == |p.shader.funcs| && args != []
    ensures var r, rs := Eval(p, h, w, limit, i, env, args[0]), EvalArgs(p, h, w, limit, i, env, args[1..]);
      EvalArgs(p, h, w, limit, i, env, args) == if r.Some? && rs.Some? then Some([r.value] + rs.value) else None
    ensures |args| == 1 ==> EvalArgs(p, h, w, limit, i, env, args[1..]) == Some([])
  {
    hide Eval;
  }

  lemma EvalOne(p: Program, h: Effect, w: Globals, limit: nat, i: nat, env: Env, args: seq<Expr>)
    requires i < |p.bodies| == |p.shader.funcs| && |args| == 1
    ensures var r := Eval(p, h, w, limit, i, env, args[0]);
      EvalArgs(p, h, w, limit, i, env, args) == if r.Some? then Some([r.value]) else None
  {
    hide Eval, EvalArgs;
    EvalStep(p, h, w, limit, i, env, args);
    Pairs<Value>();
  }

  lemma EvalTwo(p: Program, h: Effect, w: Globals, limit: nat, i: nat, env: Env, args: seq<Expr>)
    requires i < |p.bodies| == |p.shader.funcs| && |args| == 2
    ensures var r, s := Eval(p, h, w, limit, i, env, args[0]), Eval(p, h, w, limit, i, env, args[1]);
      EvalArgs(p, h, w, limit, i, env, args) == if r.Some? && s.Some? then Some([r.value, s.value]) else None
  {
    hide Eval, EvalArgs;
    EvalStep(p, h, w, limit, i, env, args);
    EvalOne(p, h, w, limit, i, env, args[1..]);
    Pairs<Value>();
  }

  lemma EvalThree(p: Program, h: Effect, w: Globals, limit: nat, i: nat, env: Env, args: seq<Expr>)
    requires i < |p.bodies| == |p.shader.funcs| && |args| == 3
    ensures var r, s, t := Eval(p, h, w, limit, i, env, args[0]), Eval(p, h, w, limit, i, env, args[1]),
                           Eval(p, h, w, limit, i, env, args[2]);
      EvalArgs(p, h, w, limit, i, env, args)
      == if r.Some? && s.Some? && t.Some? then Some([r.value, s.value, t.value]) else None
  {
    hide Eval, EvalArgs;
    EvalStep(p, h, w, limit, i, env, args);
    EvalTwo(p, h, w, limit, i, env, args[1..]);
    Pairs<Value>();
  }

  /** Each argument by itself. */
  lemma {:induction false} EachSame(p: Program, g: Metal, w: Globals, limit: nat, i: nat, env: Env, args: seq<Expr>)
    requires Setting(p, w, i) && ProperArgs(p.shader, FinalAnalysis(p.shader), args)
    requires Within(ArgTokens(args), Body(p.shader.funcs[i]))
    ensures forall k :: 0 <= k < |args| ==> SameValue(p, g, w, limit, i, env, args[k])
    decreases i, 0, 0, args, 0
  {
    hide Setting, FinalAnalysis, Body, Tokens, ProperExpr, SameValue;
    Sizes(p, w, i);
    if args != [] {
      assert Within(Tokens(args[0]), ArgTokens(args));
      assert |args| > 1 ==> Within(ArgTokens(args[1..]), ArgTokens(args));
      EvalSame(p, g, w, limit, i, env, args[0]);
      EachSame(p, g, w, limit, i, env, args[1..]);
      assert forall k :: 0 < k < |args| ==> args[k] == args[1..][k - 1];
    }
  }

  lemma IntrinsicSame(p: Program, g: Metal, w: Globals, limit: nat, i: nat, env: Env, e: Expr)
    requires Setting(p, w, i) && e.Call? && e.f != "mul" && e.f != "mad" && e.f != "int3"
    requires SameValues(p, g, w, limit, i, env, e.args)
    requires DataOf(FinalAnalysis(p.shader), e.f) == NO_NEEDS && IndexOf(FunctionNames(p.shader), e.f) == |p.bodies|
    requires Foreign(LiftProgram(p), MetalName(e.f))
    ensures SameValue(p, g, w, limit, i, env, e)
  {
    hide Setting, FrameOf, Extras, FinalAnalysis, LRun, Run, EvalArgs, LEvalArgs, Vals, MetalName, LiftProgram, LEval;
    Sizes(p, w, i);
    var sh, q := p.shader, LiftProgram(p);
    var frame, args := FrameOf(env, w, Extras(sh, i)), LiftEach(FinalAnalysis(sh), e.args);
    assert args + Names([]) == args;
    assert Lift(FinalAnalysis(sh), e) == M.Call(MetalName(e.f), args);
    InducedIs(sh, g, e.f, []);
    var vs := EvalArgs(p, Induced(sh, g), w, limit, i, env, e.args);
    if vs.Some? {
      InducedIs(sh, g, e.f, vs.value);
      ForeignCall(q, g, limit, i, frame, MetalName(e.f), args, vs.value);
    } else {
      StuckCall(q, g, limit, i, frame, MetalName(e.f), args);
    }
  }

  lemma StuckCall(q: Lifted, g: Metal, limit: nat, i: nat, env: Frame, f: string, args: seq<M.Expr>)
    requires i < |q.bodies| == |q.params| == |q.names| && LEvalArgs(q, g, limit, i, env, args) == None
    ensures LEval(q, g, limit, i, env, M.Call(f, args)) == None
  {
    hide LEvalArgs, LRun;
  }

  /** What a name that is not one of a function of the program is applied to. */
  lemma ForeignSource(p: Program, g: Metal, w: Globals, limit: nat, i: nat, env: Env, e: Expr)
    requires i < |p.bodies| == |p.shader.funcs| && e.Call? && IndexOf(FunctionNames(p.shader), e.f) == |p.bodies|
    ensures var vs := EvalArgs(p, Induced(p.shader, g), w, limit, i, env, e.args);
      Eval(p, Induced(p.shader, g), w, limit, i, env, e)
      == if vs.Some? then InducedApply(g, e.f, vs.value) else None
  {
    hide EvalArgs, Run, Induced, InducedApply;
    var vs := EvalArgs(p, Induced(p.shader, g), w, limit, i, env, e.args);
    if vs.Some? {
      InducedIs(p.shader, g, e.f, vs.value);
    }
  }

  lemma {:induction false} MulSame(p: Program, g: Metal, w: Globals, limit: nat, i: nat, env: Env, e: Expr)
    requires Setting(p, w, i) && e.Call? && e.f == "mul" && |e.args| == 2
    requires forall k :: 0 <= k < |e.args| ==> SameValue(p, g, w, limit, i, env, e.args[k])
    requires IndexOf(FunctionNames(p.shader), e.f) == |p.bodies|
    ensures SameValue(p, g, w, limit, i, env, e)
  {
    hide Setting, FrameOf, Extras, FinalAnalysis, EvalArgs, LEvalArgs, LiftProgram, Induced;
    Sizes(p, w, i);
    var sh, args := p.shader, e.args;
    var h, es := Induced(sh, g), LiftEach(FinalAnalysis(sh), args);
    var r, s := Eval(p, h, w, limit, i, env, args[0]), Eval(p, h, w, limit, i, env, args[1]);
    assert Lift(FinalAnalysis(sh), e) == M.Infix("*", M.Paren(es[0]), M.Paren(es[1]));
    assert SameValue(p, g, w, limit, i, env, args[0]) && SameValue(p, g, w, limit, i, env, args[1]);
    hide LEval, Eval;
    EvalTwo(p, h, w, limit, i, env, args);
    ForeignSource(p, g, w, limit, i, env, e);
    InfixOf(LiftProgram(p), g, limit, i, FrameOf(env, w, Extras(sh, i)), "*", es[0], es[1], r, s);
  }

  lemma {:induction false} MadSame(p: Program, g: Metal, w: Globals, limit: nat, i: nat, env: Env, e: Expr)
    requires Setting(p, w, i) && e.Call? && e.f == "mad" && |e.args| == 3
    requires forall k :: 0 <= k < |e.args| ==> SameValue(p, g, w, limit, i, env, e.args[k])
    requires IndexOf(FunctionNames(p.shader), e.f) == |p.bodies|
    ensures SameValue(p, g, w, limit, i, env, e)
  {
    hide Setting, FrameOf, Extras, FinalAnalysis, EvalArgs, LEvalArgs, LiftProgram, Induced, LEval, Eval;
    Sizes(p, w, i);
    var sh, q, args := p.shader, LiftProgram(p), e.args;
    var h, es, frame := Induced(sh, g), LiftEach(FinalAnalysis(sh), args), FrameOf(env, w, Extras(sh, i));
    var r, s, t := Eval(p, h, w, limit, i, env, args[0]), Eval(p, h, w, limit, i, env, args[1]),
                   Eval(p, h, w, limit, i, env, args[2]);
    var product := M.Infix("*", M.Paren(es[0]), M.Paren(es[1]));
    assert Lift(FinalAnalysis(sh), e) == M.Infix("+", M.Paren(product), M.Paren(es[2]));
    assert SameValue(p, g, w, limit, i, env, args[0]) && SameValue(p, g, w, limit, i, env, args[1]);
    assert SameValue(p, g, w, limit, i, env, args[2]);
    EvalThree(p, h, w, limit, i, env, args);
    ForeignSource(p, g, w, limit, i, env, e);
    InfixOf(q, g, limit, i, frame, "*", es[0], es[1], r, s);
    InfixOf(q, g, limit, i, frame, "+", product, es[2], Applied2(g, "*", r, s), t);
    if r.Some? && s.Some? && t.Some? {
      assert [r.value, s.value, t.value][..2] == [r.value, s.value];
    }
  }

  lemma {:induction false} IntsSame(p: Program, g: Metal, w: Globals, limit: nat, i: nat, env: Env, e: Expr)
    requires Setting(p, w, i) && e.Call? && e.f == "int3" && 2 <= |e.args| <= 3
    requires forall k :: 0 <= k < |e.args| ==> SameValue(p, g, w, limit, i, env, e.args[k])
    requires IndexOf(FunctionNames(p.shader), e.f) == |p.bodies|
    requires forall n :: n in ["int", "int2", "int3"] ==> Foreign(LiftProgram(p), n)
    ensures SameValue(p, g, w, limit, i, env, e)
  {
    hide Setting, FrameOf, Extras, FinalAnalysis, EvalArgs, LEvalArgs, LiftProgram, Induced, LEval, Eval, Foreign;
    Sizes(p, w, i);
    var sh, q, args := p.shader, LiftProgram(p), e.args;
    var h, es, frame := Induced(sh, g), LiftEach(FinalAnalysis(sh), args), FrameOf(env, w, Extras(sh, i));
    var r, s := Eval(p, h, w, limit, i, env, args[0]), Eval(p, h, w, limit, i, env, args[1]);
    assert Lift(FinalAnalysis(sh), e) == M.Call("int3", IntArgs(es));
    assert SameValue(p, g, w, limit, i, env, args[0]) && SameValue(p, g, w, limit, i, env, args[1]);
    ForeignSource(p, g, w, limit, i, env, e);
    CallOne(q, g, limit, i, frame, "int", es[1], s);
    var y := M.Call("int", [es[1]]);
    if |args| == 3 {
      var t := Eval(p, h, w, limit, i, env, args[2]);
      assert SameValue(p, g, w, limit, i, env, args[2]);
      EvalThree(p, h, w, limit, i, env, args);
      CallOne(q, g, limit, i, frame, "int", es[0], r);
      CallOne(q, g, limit, i, frame, "int", es[2], t);
      CallThree(q, g, limit, i, frame, "int3", M.Call("int", [es[0]]), y, M.Call("int", [es[2]]),
                Applied(g, "int", r), Applied(g, "int", s), Applied(g, "int", t));
    } else {
      EvalTwo(p, h, w, limit, i, env, args);
      CallOne(q, g, limit, i, frame, "int2", es[0], r);
      CallTwo(q, g, limit, i, frame, "int3", M.Call("int2", [es[0]]), y, Applied(g, "int2", r), Applied(g, "int", s));
    }
  }


  // ---------------------------------------------------------------------------------------------------------
  // Accesses to textures

  /** A method of a texture that is in the frame. */
  lemma MethodCall(q: Lifted, g: Metal, limit: nat, i: nat, env: Frame, t: string, id: nat, f: string,
                   args: seq<M.Expr>)
    requires i < |q.bodies| == |q.params| == |q.names| && t in env && env[t] == Texture(id)
    ensures var vs := LEvalArgs(q, g, limit, i, env, args);
      LEval(q, g, limit, i, env, M.Method(M.Name(t), f, args))
      == if vs.Some? then AsArg(g.call(id, f, vs.value)) else None
  {
    hide LEvalArgs;
    assert LEval(q, g, limit, i, env, M.Name(t)) == Some(Texture(id));
  }

  lemma {:induction false} AccessSame(p: Program, g: Metal, w: Globals, limit: nat, i: nat, env: Env, e: Expr)
    requires Setting(p, w, i) && e.Access? && ProperExpr(p.shader, FinalAnalysis(p.shader), e)
    requires Within(Tokens(e), Body(p.shader.funcs[i]))
    ensures SameValue(p, g, w, limit, i, env, e)
    decreases i, 0, 0, e, 1
  {
    hide Setting, FrameOf, Extras, PlainName, UniformNames, TextureNames, LiftProgram, FinalAnalysis, Body, Induced,
         LEval, Eval, SameValue;
    Sizes(p, w, i);
    var t := e.texture;
    assert Tokens(e)[0] == Name(t);
    assert Within(ArgTokens(e.args), Tokens(e));
    TextureSame(p, w, i, env, t);
    OptionsAreForeign(p, w, i);
    if e.f == "Load" {
      LoadSame(p, g, w, limit, i, env, e);
    } else {
      HandleIsNamed(e.args);
      SamplerSame(p, w, i, env, e.args[0].sampler);
      assert |e.args| > 1 && Within(ArgTokens(e.args[1..]), ArgTokens(e.args));
      EachSame(p, g, w, limit, i, env, e.args[1..]);
      SampledSame(p, g, w, limit, i, env, e);
    }
  }

  lemma HandleIsNamed(args: seq<Expr>)
    requires args != [] && args[0].Handle?
    ensures Name(args[0].sampler) in ArgTokens(args)
  {
    assert Tokens(args[0]) == [Name(args[0].sampler)];
    assert ArgTokens(args)[0] == Name(args[0].sampler);
  }

  lemma OptionsAreForeign(p: Program, w: Globals, i: nat)
    requires Setting(p, w, i)
    ensures forall n :: n in ["int", "int2", "uint", "uint2", "bias", "level", "gradient2d"]
              ==> Foreign(LiftProgram(p), n)
  {
    NotAFunction(p, w, i, "int3");
    hide Setting, LiftProgram;
    assert forall n :: n in ["int", "int2", "uint", "uint2", "bias", "level", "gradient2d"] ==> n in METAL_NAMES;
  }

  /** A frame with the texture, and what an access evaluates to there. */
  ghost predicate HasTexture(p: Program, w: Globals, i: nat, env: Env, t: string)
    requires i < |p.shader.funcs|
  {
    t in w.textures
    && var frame := FrameOf(env, w, Extras(p.shader, i)); t in frame && frame[t] == Texture(w.textures[t])
  }

  lemma {:induction false} LoadSame(p: Program, g: Metal, w: Globals, limit: nat, i: nat, env: Env, e: Expr)
    requires Setting(p, w, i) && e.Access? && e.f == "Load" && ProperExpr(p.shader, FinalAnalysis(p.shader), e)
    requires Within(ArgTokens(e.args), Body(p.shader.funcs[i])) && HasTexture(p, w, i, env, e.texture)
    requires forall n :: n in ["int", "int2", "uint", "uint2", "bias", "level", "gradient2d"]
              ==> Foreign(LiftProgram(p), n)
    ensures SameValue(p, g, w, limit, i, env, e)
    decreases i, 0, 0, e, 0
  {
    hide Setting, FrameOf, Extras, PlainName, UniformNames, TextureNames, LiftProgram, FinalAnalysis, Body, Induced,
         LEval, Eval, SameValue, Foreign;
    Sizes(p, w, i);
    var a := e.args[0];
    assert Within(Tokens(a), ArgTokens(e.args));
    if a.Call? && a.f == "int3" {
      assert Within(ArgTokens(a.args), Tokens(a));
      assert ProperExpr(p.shader, FinalAnalysis(p.shader), a) && a.f == "int3";
      Int3IsProper(p.shader, FinalAnalysis(p.shader), a);
      EachSame(p, g, w, limit, i, env, a.args);
      ReadAtSame(p, g, w, limit, i, env, e, a);
    } else {
      EvalSame(p, g, w, limit, i, env, a);
      ReadFromSame(p, g, w, limit, i, env, e, a);
    }
  }

  lemma Int3IsProper(sh: Shader, data: Analysis, a: Expr)
    requires a.Call? && a.f == "int3" && ProperExpr(sh, data, a)
    ensures 2 <= |a.args| <= 3 && ProperArgs(sh, data, a.args)
  {
    hide PlainName, UniformNames;
  }

  lemma LoadIs(sh: Shader, g: Metal, t: nat, vs: seq<Value>)
    ensures Induced(sh, g).load(t, vs) == InducedLoad(g, t, vs)
  {
  }

  /** A load, by what its coordinate evaluates to. */
  lemma EvalLoad(p: Program, g: Metal, w: Globals, limit: nat, i: nat, env: Env, e: Expr)
    requires i < |p.bodies| == |p.shader.funcs|
    requires e.Access? && e.f == "Load" && |e.args| == 1 && e.texture in w.textures
    ensures var h, a := Induced(p.shader, g), e.args[0];
      var vs := EvalArgs(p, h, w, limit, i, env, if a.Call? && a.f == "int3" then a.args else e.args);
      Eval(p, h, w, limit, i, env, e) == if vs.Some? then InducedLoad(g, w.textures[e.texture], vs.value) else None
  {
    hide EvalArgs, Induced, InducedLoad;
    var h, a := Induced(p.shader, g), e.args[0];
    var vs := EvalArgs(p, h, w, limit, i, env, if a.Call? && a.f == "int3" then a.args else e.args);
    if vs.Some? {
      LoadIs(p.shader, g, w.textures[e.texture], vs.value);
    }
  }

  lemma MemberOf(q: Lifted, g: Metal, limit: nat, i: nat, env: Frame, a: M.Expr, f: string, r: Option<Value>)
    requires i < |q.bodies| == |q.params| == |q.names| && LEval(q, g, limit, i, env, a) == AsArg(r)
    ensures LEval(q, g, limit, i, env, M.Member(a, f)) == AsArg(Applied(g, "." + f, r))
  {
  }

  lemma ReadFromSame(p: Program, g: Metal, w: Globals, limit: nat, i: nat, env: Env, e: Expr, a: Expr)
    requires i < |p.bodies| == |p.shader.funcs| && Foreign(LiftProgram(p), "uint2")
    requires e.Access? && e.f == "Load" && e.args == [a] && !(a.Call? && a.f == "int3")
    requires HasTexture(p, w, i, env, e.texture) && SameValue(p, g, w, limit, i, env, a)
    ensures SameValue(p, g, w, limit, i, env, e)
  {
    hide FrameOf, Extras, LiftProgram, FinalAnalysis, Induced, LEval, Eval, Foreign, LEvalArgs, EvalArgs;
    var sh, q, t, data := p.shader, LiftProgram(p), e.texture, FinalAnalysis(p.shader);
    var frame, v := FrameOf(env, w, Extras(sh, i)), Eval(p, Induced(sh, g), w, limit, i, env, a);
    var x := Lift(data, a);
    var at, zero := M.Call("uint2", [M.Member(x, "xy")]), M.Literal("0");
    assert Lift(data, e) == M.Method(M.Name(t), "read", [at, zero]);
    EvalLoad(p, g, w, limit, i, env, e);
    EvalOne(p, Induced(sh, g), w, limit, i, env, e.args);
    MemberOf(q, g, limit, i, frame, x, "xy", v);
    assert "." + "xy" == ".xy";
    CallOne(q, g, limit, i, frame, "uint2", M.Member(x, "xy"), Applied(g, ".xy", v));
    assert LEval(q, g, limit, i, frame, zero) == Some(Val(g.literal("0"))) by { ZeroIs(q, g, limit, i, frame); }
    PairOf(q, g, limit, i, frame, at, zero);
    MethodCall(q, g, limit, i, frame, t, w.textures[t], "read", [at, zero]);
  }

  lemma ZeroIs(q: Lifted, g: Metal, limit: nat, i: nat, env: Frame)
    requires i < |q.bodies| == |q.params| == |q.names|
    ensures LEval(q, g, limit, i, env, M.Literal("0")) == Some(Val(g.literal("0")))
  {
  }

  lemma ReadAtSame(p: Program, g: Metal, w: Globals, limit: nat, i: nat, env: Env, e: Expr, a: Expr)
    requires i < |p.bodies| == |p.shader.funcs|
    requires e.Access? && e.f == "Load" && e.args == [a] && a.Call? && a.f == "int3" && 2 <= |a.args| <= 3
    requires HasTexture(p, w, i, env, e.texture)
    requires forall n :: n in ["int", "int2", "uint", "uint2", "bias", "level", "gradient2d"]
              ==> Foreign(LiftProgram(p), n)
    requires forall k :: 0 <= k < |a.args| ==> SameValue(p, g, w, limit, i, env, a.args[k])
    ensures SameValue(p, g, w, limit, i, env, e)
  {
    hide FrameOf, Extras, LiftProgram, FinalAnalysis, Induced, LEval, Eval, Foreign, LEvalArgs, EvalArgs, ReadAt;
    var sh, q, t, args := p.shader, LiftProgram(p), e.texture, a.args;
    var h, es, frame := Induced(sh, g), LiftEach(FinalAnalysis(sh), args), FrameOf(env, w, Extras(sh, i));
    assert Lift(FinalAnalysis(sh), e) == M.Method(M.Name(t), "read", ReadAt(es));
    assert SameValue(p, g, w, limit, i, env, args[0]) && SameValue(p, g, w, limit, i, env, args[1]);
    EvalLoad(p, g, w, limit, i, env, e);
    MethodCall(q, g, limit, i, frame, t, w.textures[t], "read", ReadAt(es));
    var r, s := Eval(p, h, w, limit, i, env, args[0]), Eval(p, h, w, limit, i, env, args[1]);
    if |args| == 3 {
      var u := Eval(p, h, w, limit, i, env, args[2]);
      assert SameValue(p, g, w, limit, i, env, args[2]);
      EvalThree(p, h, w, limit, i, env, args);
      ReadThree(q, g, limit, i, frame, es, r, s, u);
    } else {
      EvalTwo(p, h, w, limit, i, env, args);
      ReadTwo(q, g, limit, i, frame, es, r, s);
    }
  }

  /** The coordinate and the level of a load. */
  function Coordinates(at: Option<Value>, level: Option<Value>): Option<seq<Arg>> {
    if at.Some? && level.Some? then Some([Val(at.value), Val(level.value)]) else None
  }

  lemma ReadThree(q: Lifted, g: Metal, limit: nat, i: nat, env: Frame, es: seq<M.Expr>, r: Option<Value>,
                  s: Option<Value>, u: Option<Value>)
    requires i < |q.bodies| == |q.params| == |q.names| && |es| == 3
    requires Foreign(q, "int") && Foreign(q, "uint") && Foreign(q, "uint2")
    requires LEval(q, g, limit, i, env, es[0]) == AsArg(r) && LEval(q, g, limit, i, env, es[1]) == AsArg(s)
    requires LEval(q, g, limit, i, env, es[2]) == AsArg(u)
    ensures LEvalArgs(q, g, limit, i, env, ReadAt(es))
         == Coordinates(Applied2(g, "uint2", Applied(g, "int", r), Applied(g, "int", s)),
                        Applied(g, "uint", Applied(g, "int", u)))
  {
    hide LEval, LEvalArgs, Foreign;
    var x, y, z := M.Call("int", [es[0]]), M.Call("int", [es[1]]), M.Call("int", [es[2]]);
    CallOne(q, g, limit, i, env, "int", es[0], r);
    CallOne(q, g, limit, i, env, "int", es[1], s);
    CallOne(q, g, limit, i, env, "int", es[2], u);
    CallTwo(q, g, limit, i, env, "uint2", x, y, Applied(g, "int", r), Applied(g, "int", s));
    CallOne(q, g, limit, i, env, "uint", z, Applied(g, "int", u));
    PairOf(q, g, limit, i, env, M.Call("uint2", [x, y]), M.Call("uint", [z]));
  }

  lemma ReadTwo(q: Lifted, g: Metal, limit: nat, i: nat, env: Frame, es: seq<M.Expr>, r: Option<Value>,
                s: Option<Value>)
    requires i < |q.bodies| == |q.params| == |q.names| && |es| == 2
    requires Foreign(q, "int") && Foreign(q, "int2") && Foreign(q, "uint") && Foreign(q, "uint2")
    requires LEval(q, g, limit, i, env, es[0]) == AsArg(r) && LEval(q, g, limit, i, env, es[1]) == AsArg(s)
    ensures LEvalArgs(q, g, limit, i, env, ReadAt(es))
         == Coordinates(Applied(g, "uint2", Applied(g, "int2", r)), Applied(g, "uint", Applied(g, "int", s)))
  {
    hide LEval, LEvalArgs, Foreign;
    var x, y := M.Call("int2", [es[0]]), M.Call("int", [es[1]]);
    CallOne(q, g, limit, i, env, "int2", es[0], r);
    CallOne(q, g, limit, i, env, "int", es[1], s);
    CallOne(q, g, limit, i, env, "uint2", x, Applied(g, "int2", r));
    CallOne(q, g, limit, i, env, "uint", y, Applied(g, "int", s));
    PairOf(q, g, limit, i, env, M.Call("uint2", [x]), M.Call("uint", [y]));
  }


  lemma AccessIs(sh: Shader, g: Metal, f: string, t: nat, s: nat, vs: seq<Value>)
    ensures Induced(sh, g).access(f, t, s, vs) == InducedAccess(g, f, t, s, vs)
  {
  }

  /** A sampling access, by what its further arguments evaluate to. */
  lemma EvalSampled(p: Program, g: Metal, w: Globals, limit: nat, i: nat, env: Env, e: Expr)
    requires i < |p.bodies| == |p.shader.funcs| && e.Access? && e.f != "Load" && e.texture in w.textures
    requires e.args != [] && e.args[0].Handle? && e.args[0].sampler in w.samplers
    ensures var h := Induced(p.shader, g);
      var vs := EvalArgs(p, h, w, limit, i, env, e.args[1..]);
      Eval(p, h, w, limit, i, env, e)
      == if vs.Some? then InducedAccess(g, e.f, w.textures[e.texture], w.samplers[e.args[0].sampler], vs.value)
         else None
  {
    hide EvalArgs, Induced, InducedAccess;
    var h := Induced(p.shader, g);
    var vs := EvalArgs(p, h, w, limit, i, env, e.args[1..]);
    if vs.Some? {
      AccessIs(p.shader, g, e.f, w.textures[e.texture], w.samplers[e.args[0].sampler], vs.value);
    }
  }

  ghost predicate HasSampler(p: Program, w: Globals, i: nat, env: Env, s: string)
    requires i < |p.shader.funcs|
  {
    s in w.samplers
    && var frame := FrameOf(env, w, Extras(p.shader, i)); s in frame && frame[s] == Sampler(w.samplers[s])
  }

  /** The arguments of the lifted access, by what the arguments evaluate to. */
  function Further(g: Metal, f: string, id: nat, vs: Option<seq<Value>>): Option<seq<Arg>> {
    if vs.None? then None
    else if f == "Sample" && |vs.value| == 1 then Some([Sampler(id), Val(vs.value[0])])
    else if f == "SampleGrad" && |vs.value| == 3 then
      SampledBy(id, Some(vs.value[0]), g.apply("gradient2d", vs.value[1..]))
    else if (f == "SampleBias" || f == "SampleLevel") && |vs.value| == 2 then
      SampledBy(id, Some(vs.value[0]), g.apply(if f == "SampleBias" then "bias" else "level", vs.value[1..]))
    else None
  }

  lemma SampledSame(p: Program, g: Metal, w: Globals, limit: nat, i: nat, env: Env, e: Expr)
    requires i < |p.bodies| == |p.shader.funcs| && e.Access? && HasTexture(p, w, i, env, e.texture)
    requires e.f in {"Sample", "SampleBias", "SampleGrad", "SampleLevel"}
    requires |e.args| == (if e.f == "Sample" then 2 else if e.f == "SampleGrad" then 4 else 3)
    requires e.args[0].Handle? && HasSampler(p, w, i, env, e.args[0].sampler)
    requires forall n :: n in ["int", "int2", "uint", "uint2", "bias", "level", "gradient2d"]
              ==> Foreign(LiftProgram(p), n)
    requires forall k :: 0 <= k < |e.args| - 1 ==> SameValue(p, g, w, limit, i, env, e.args[1..][k])
    ensures SameValue(p, g, w, limit, i, env, e)
  {
    hide FrameOf, Extras, LiftProgram, FinalAnalysis, Induced, LEval, Eval, Foreign, LEvalArgs, EvalArgs, SampleArgs;
    var sh, q, t := p.shader, LiftProgram(p), e.texture;
    var es, frame := LiftEach(FinalAnalysis(sh), e.args), FrameOf(env, w, Extras(sh, i));
    assert Lift(FinalAnalysis(sh), e) == M.Method(M.Name(t), "sample", SampleArgs(e.f, es));
    EvalSampled(p, g, w, limit, i, env, e);
    MethodCall(q, g, limit, i, frame, t, w.textures[t], "sample", SampleArgs(e.f, es));
    FurtherSame(p, g, w, limit, i, env, e);
  }

  lemma FurtherSame(p: Program, g: Metal, w: Globals, limit: nat, i: nat, env: Env, e: Expr)
    requires i < |p.bodies| == |p.shader.funcs| && e.Access?
    requires e.f in {"Sample", "SampleBias", "SampleGrad", "SampleLevel"}
    requires |e.args| == (if e.f == "Sample" then 2 else if e.f == "SampleGrad" then 4 else 3)
    requires e.args[0].Handle? && HasSampler(p, w, i, env, e.args[0].sampler)
    requires forall n :: n in ["int", "int2", "uint", "uint2", "bias", "level", "gradient2d"]
              ==> Foreign(LiftProgram(p), n)
    requires forall k :: 0 <= k < |e.args| - 1 ==> SameValue(p, g, w, limit, i, env, e.args[1..][k])
    ensures LEvalArgs(LiftProgram(p), g, limit, i, FrameOf(env, w, Extras(p.shader, i)),
                      SampleArgs(e.f, LiftEach(FinalAnalysis(p.shader), e.args)))
         == Further(g, e.f, w.samplers[e.args[0].sampler],
                    EvalArgs(p, Induced(p.shader, g), w, limit, i, env, e.args[1..]))
  {
    hide *;
    var sh, q, args := p.shader, LiftProgram(p), e.args[1..];
    var h, es, frame := Induced(sh, g), LiftEach(FinalAnalysis(sh), e.args), FrameOf(env, w, Extras(sh, i));
    SamplerIs(p, g, w, limit, i, env, e.args);
    var id := w.samplers[e.args[0].sampler];
    ArgSame(p, g, w, limit, i, env, e.args, 1);
    var r := Eval(p, h, w, limit, i, env, args[0]);
    if e.f == "Sample" {
      EvalOne(p, h, w, limit, i, env, args);
      SampleTwo(q, g, limit, i, frame, es, id, r);
      FurtherNone(g, id, r);
    } else if e.f == "SampleGrad" {
      var u, v := Eval(p, h, w, limit, i, env, args[1]), Eval(p, h, w, limit, i, env, args[2]);
      ArgSame(p, g, w, limit, i, env, e.args, 2);
      ArgSame(p, g, w, limit, i, env, e.args, 3);
      EvalThree(p, h, w, limit, i, env, args);
      SampleFour(q, g, limit, i, frame, es, id, r, u, v);
      FurtherGrad(g, id, r, u, v);
    } else {
      var u := Eval(p, h, w, limit, i, env, args[1]);
      ArgSame(p, g, w, limit, i, env, e.args, 2);
      EvalTwo(p, h, w, limit, i, env, args);
      SampleThree(q, g, limit, i, frame, e.f, es, id, r, u);
      FurtherOption(g, e.f, id, r, u);
    }
  }

  lemma FurtherNone(g: Metal, id: nat, r: Option<Value>)
    ensures Sampled(id, r) == Further(g, "Sample", id, if r.Some? then Some([r.value]) else None)
  {
  }

  lemma FurtherGrad(g: Metal, id: nat, r: Option<Value>, u: Option<Value>, v: Option<Value>)
    ensures SampledBy(id, r, Applied2(g, "gradient2d", u, v))
         == Further(g, "SampleGrad", id,
                    if r.Some? && u.Some? && v.Some? then Some([r.value, u.value, v.value]) else None)
  {
    if r.Some? && u.Some? && v.Some? {
      assert [r.value, u.value, v.value][1..] == [u.value, v.value];
    }
  }

  lemma FurtherOption(g: Metal, f: string, id: nat, r: Option<Value>, u: Option<Value>)
    requires f == "SampleBias" || f == "SampleLevel"
    ensures SampledBy(id, r, Applied(g, if f == "SampleBias" then "bias" else "level", u))
         == Further(g, f, id, if r.Some? && u.Some? then Some([r.value, u.value]) else None)
  {
    if r.Some? && u.Some? {
      assert [r.value, u.value][1..] == [u.value];
    }
  }

  lemma ArgSame(p: Program, g: Metal, w: Globals, limit: nat, i: nat, env: Env, args: seq<Expr>, k: nat)
    requires i < |p.bodies| == |p.shader.funcs| && 0 < k < |args|
    requires forall n :: 0 <= n < |args| - 1 ==> SameValue(p, g, w, limit, i, env, args[1..][n])
    ensures LEval(LiftProgram(p), g, limit, i, FrameOf(env, w, Extras(p.shader, i)),
                  LiftEach(FinalAnalysis(p.shader), args)[k])
         == AsArg(Eval(p, Induced(p.shader, g), w, limit, i, env, args[1..][k - 1]))
    ensures args[1..][k - 1] == args[k]
  {
    hide FrameOf, Extras, LiftProgram, FinalAnalysis, Induced, LEval, Eval;
    assert SameValue(p, g, w, limit, i, env, args[1..][k - 1]);
  }

  lemma SamplerIs(p: Program, g: Metal, w: Globals, limit: nat, i: nat, env: Env, args: seq<Expr>)
    requires i < |p.bodies| == |p.shader.funcs| && args != [] && args[0].Handle?
    requires HasSampler(p, w, i, env, args[0].sampler)
    ensures args[0].sampler in w.samplers
    ensures LEval(LiftProgram(p), g, limit, i, FrameOf(env, w, Extras(p.shader, i)),
                  LiftEach(FinalAnalysis(p.shader), args)[0])
         == Some(Sampler(w.samplers[args[0].sampler]))
  {
    hide FrameOf, Extras, LiftProgram, FinalAnalysis, LEval;
    NameIs(LiftProgram(p), g, limit, i, FrameOf(env, w, Extras(p.shader, i)), args[0].sampler);
  }

  lemma NameIs(q: Lifted, g: Metal, limit: nat, i: nat, env: Frame, s: string)
    requires i < |q.bodies| == |q.params| == |q.names| && s in env
    ensures LEval(q, g, limit, i, env, M.Name(s)) == Some(env[s])
  {
  }

  /** A sampler, a coordinate, and an option if there is one. */
  function Sampled(id: nat, r: Option<Value>): Option<seq<Arg>> {
    if r.Some? then Some([Sampler(id), Val(r.value)]) else None
  }

  function SampledBy(id: nat, r: Option<Value>, option: Option<Value>): Option<seq<Arg>> {
    if r.Some? && option.Some? then Some([Sampler(id), Val(r.value), Val(option.value)]) else None
  }

  lemma SampleTwo(q: Lifted, g: Metal, limit: nat, i: nat, env: Frame, es: seq<M.Expr>, id: nat, r: Option<Value>)
    requires i < |q.bodies| == |q.params| == |q.names| && |es| == 2
    requires LEval(q, g, limit, i, env, es[0]) == Some(Sampler(id)) && LEval(q, g, limit, i, env, es[1]) == AsArg(r)
    ensures LEvalArgs(q, g, limit, i, env, SampleArgs("Sample", es)) == Sampled(id, r)
  {
    hide LEval, LEvalArgs;
    PairOf(q, g, limit, i, env, es[0], es[1]);
    assert es == [es[0], es[1]];
  }

  lemma SampleThree(q: Lifted, g: Metal, limit: nat, i: nat, env: Frame, f: string, es: seq<M.Expr>, id: nat,
                    r: Option<Value>, s: Option<Value>)
    requires i < |q.bodies| == |q.params| == |q.names| && |es| == 3 && (f == "SampleBias" || f == "SampleLevel")
    requires Foreign(q, "bias") && Foreign(q, "level")
    requires LEval(q, g, limit, i, env, es[0]) == Some(Sampler(id)) && LEval(q, g, limit, i, env, es[1]) == AsArg(r)
    requires LEval(q, g, limit, i, env, es[2]) == AsArg(s)
    ensures LEvalArgs(q, g, limit, i, env, SampleArgs(f, es))
         == SampledBy(id, r, Applied(g, if f == "SampleBias" then "bias" else "level", s))
  {
    hide LEval, LEvalArgs, Foreign;
    var option := if f == "SampleBias" then "bias" else "level";
    CallOne(q, g, limit, i, env, option, es[2], s);
    TripleOf(q, g, limit, i, env, es[0], es[1], M.Call(option, [es[2]]));
  }

  lemma SampleFour(q: Lifted, g: Metal, limit: nat, i: nat, env: Frame, es: seq<M.Expr>, id: nat, r: Option<Value>,
                   s: Option<Value>, u: Option<Value>)
    requires i < |q.bodies| == |q.params| == |q.names| && |es| == 4 && Foreign(q, "gradient2d")
    requires LEval(q, g, limit, i, env, es[0]) == Some(Sampler(id)) && LEval(q, g, limit, i, env, es[1]) == AsArg(r)
    requires LEval(q, g, limit, i, env, es[2]) == AsArg(s) && LEval(q, g, limit, i, env, es[3]) == AsArg(u)
    ensures LEvalArgs(q, g, limit, i, env, SampleArgs("SampleGrad", es))
         == SampledBy(id, r, Applied2(g, "gradient2d", s, u))
  {
    hide LEval, LEvalArgs, Foreign;
    CallTwo(q, g, limit, i, env, "gradient2d", es[2], es[3], s, u);
    TripleOf(q, g, limit, i, env, es[0], es[1], M.Call("gradient2d", [es[2], es[3]]));
  }

  // ---------------------------------------------------------------------------------------------------------
  // Statements

  lemma {:induction false} LiftedValue(p: Program, g: Metal, w: Globals, limit: nat, i: nat, env: Env, e: Expr)
    requires Setting(p, w, i) && ProperExpr(p.shader, FinalAnalysis(p.shader), e)
    requires Within(Tokens(e), Body(p.shader.funcs[i]))
    ensures LValue(LiftProgram(p), g, limit, i, FrameOf(env, w, Extras(p.shader, i)), Lift(FinalAnalysis(p.shader), e))
         == Eval(p, Induced(p.shader, g), w, limit, i, env, e)
    decreases i, 0, 0, e, 3
  {
    hide Setting, FrameOf, Extras, LiftProgram, FinalAnalysis, Body, Induced, LEval, Eval, Tokens, ProperExpr, Lift;
    Sizes(p, w, i);
    EvalSame(p, g, w, limit, i, env, e);
    ValueIs(LiftProgram(p), g, limit, i, FrameOf(env, w, Extras(p.shader, i)), Lift(FinalAnalysis(p.shader), e),
            Eval(p, Induced(p.shader, g), w, limit, i, env, e));
  }

  ghost predicate SameFlow(p: Program, g: Metal, w: Globals, limit: nat, i: nat, fuel: nat, env: Env, ss: seq<Stmt>)
    requires i < |p.bodies| == |p.shader.funcs|
  {
    LExec(LiftProgram(p), g, limit, i, fuel, FrameOf(env, w, Extras(p.shader, i)),
          LiftBody(p.shader, FinalAnalysis(p.shader), ss))
    == Framed(Exec(p, Induced(p.shader, g), w, limit, i, fuel, env, ss), w, Extras(p.shader, i))
  }

  lemma {:induction false} ExecSame(p: Program, g: Metal, w: Globals, limit: nat, i: nat, fuel: nat, env: Env,
                                    ss: seq<Stmt>)
    requires Setting(p, w, i) && ProperBody(p.shader, FinalAnalysis(p.shader), ss)
    requires Within(BodyTokens(ss), Body(p.shader.funcs[i]))
    ensures SameFlow(p, g, w, limit, i, fuel, env, ss)
    decreases i, 1, fuel, ss, 1
  {
    hide Setting, FrameOf, Extras, LiftProgram, FinalAnalysis, Body, ProperBody, Induced, Within, BodyTokens;
    Sizes(p, w, i);
    if ss != [] {
      match ss[0] {
        case Return(e) => ReturnSame(p, g, w, limit, i, fuel, env, ss);
        case If(_, _, _) => IfSame(p, g, w, limit, i, fuel, env, ss);
        case When(_, _) => WhenSame(p, g, w, limit, i, fuel, env, ss);
        case While(_, _) => WhileSame(p, g, w, limit, i, fuel, env, ss);
        case _ => StepSame(p, g, w, limit, i, fuel, env, ss);
      }
    }
  }

  lemma LiftTail(sh: Shader, data: Analysis, ss: seq<Stmt>)
    requires ss != [] && !ss[0].Gap?
    ensures |LiftStmt(sh, data, ss[0])| == 1 && LiftBody(sh, data, ss) != []
    ensures LiftBody(sh, data, ss)[0] == LiftStmt(sh, data, ss[0])[0]
    ensures LiftBody(sh, data, ss)[1..] == LiftBody(sh, data, ss[1..])
  {
  }

  lemma LiftGap(sh: Shader, data: Analysis, ss: seq<Stmt>)
    requires ss != [] && ss[0].Gap?
    ensures LiftBody(sh, data, ss) == LiftBody(sh, data, ss[1..])
  {
  }

  lemma Proper2(sh: Shader, data: Analysis, ss: seq<Stmt>)
    requires ss != [] && ProperBody(sh, data, ss)
    ensures ProperStmt(sh, data, ss[0]) && ProperBody(sh, data, ss[1..])
  {
  }

  /** A body that mentions the tokens of some statements mentions those of their parts. */
  lemma StmtParts(ss: seq<Stmt>, body: seq<Token>)
    requires ss != [] && Within(BodyTokens(ss), body)
    ensures Within(BodyTokens(ss[1..]), body)
    ensures ss[0].Declare? || ss[0].Assign? || ss[0].Return? ==> Within(Tokens(ss[0].value), body)
    ensures ss[0].If? || ss[0].When? || ss[0].While? ==> Within(Tokens(ss[0].cond), body)
    ensures ss[0].If? ==> Within(BodyTokens(ss[0].thn), body) && Within(BodyTokens(ss[0].els), body)
    ensures ss[0].When? ==> Within(BodyTokens(ss[0].thn), body)
    ensures ss[0].While? ==> Within(BodyTokens(ss[0].body), body)
  {
    hide Tokens;
    assert Within(StmtTokens(ss[0]), BodyTokens(ss)) && Within(BodyTokens(ss[1..]), BodyTokens(ss));
  }

  lemma InducedType(sh: Shader, g: Metal, t: string, v: Value)
    ensures Induced(sh, g).convert(t, v) == g.convert(MetalType(sh, t), v)
    ensures Induced(sh, g).initial(t) == g.initial(MetalType(sh, t))
  {
  }

  lemma {:induction false} PartSame(sh: Shader, g: Metal, v: Value, fields: seq<string>)
    ensures Part(Induced(sh, g).apply, v, fields) == Part(g.apply, v, fields)
    decreases |fields|
  {
    if fields != [] {
      SameName(sh, g, "." + fields[0], [v]);
      hide Induced;
      var m := g.apply("." + fields[0], [v]);
      if m.Some? {
        PartSame(sh, g, m.value, fields[1..]);
      }
    }
  }

  lemma StoredSame(sh: Shader, g: Metal, op: string, v: Value, fields: seq<string>, u: Value)
    requires op in M.ASSIGNMENTS
    ensures Stored(Induced(sh, g).apply, op, v, fields, u) == Stored(g.apply, op, v, fields, u)
  {
    M.AssignmentText(op);
    PartSame(sh, g, v, fields);
    hide Induced, Part;
    var part := Part(g.apply, v, fields);
    if op != "=" && part.Some? {
      SameName(sh, g, op[..1], [part.value, u]);
    }
  }

  /** A declaration or an assignment. */
  lemma {:induction false} AssignedSame(p: Program, g: Metal, w: Globals, limit: nat, i: nat, env: Env, s: Stmt)
    requires Setting(p, w, i) && ProperStmt(p.shader, FinalAnalysis(p.shader), s)
    requires s.Let? || s.Declare? || s.Assign?
    requires s.Declare? || s.Assign? ==> Within(Tokens(s.value), Body(p.shader.funcs[i]))
    ensures var next := Assigned(p, Induced(p.shader, g), w, limit, i, env, s);
      LAssigned(LiftProgram(p), g, limit, i, FrameOf(env, w, Extras(p.shader, i)),
                LiftStmt(p.shader, FinalAnalysis(p.shader), s)[0])
      == if next.Some? then Some(FrameOf(next.value, w, Extras(p.shader, i))) else None
    decreases i, 0, 1
  {
    hide Setting, FrameOf, Extras, LiftProgram, FinalAnalysis, Body, Induced, LValue, Eval, Tokens, ProperExpr, Lift,
         LocalName, TypeName, MetalType, PlainName, Keywords;
    Sizes(p, w, i);
    var sh, extras, x := p.shader, Extras(p.shader, i), s.x;
    LocalSame(p, w, i, env, x);
    InducedLiteral(sh, g);
    if s.Let? {
      InducedType(sh, g, s.typeName, Value([]));
      FrameAssign(env, w, extras, x, g.initial(MetalType(sh, s.typeName)));
    } else {
      LiftedValue(p, g, w, limit, i, env, s.value);
      var v := Eval(p, Induced(sh, g), w, limit, i, env, s.value);
      var next := Assigned(p, Induced(sh, g), w, limit, i, env, s);
      if v.Some? && s.Declare? {
        InducedType(sh, g, s.typeName, v.value);
      }
      if v.Some? && s.Assign? && x in env {
        StoredSame(sh, g, s.op, env[x], s.fields, v.value);
      }
      hide Stored;
      if next.Some? {
        FrameAssign(env, w, extras, x, next.value[x]);
      }
    }
  }

  lemma {:induction false} StepSame(p: Program, g: Metal, w: Globals, limit: nat, i: nat, fuel: nat, env: Env,
                                    ss: seq<Stmt>)
    requires Setting(p, w, i) && ss != [] && ProperBody(p.shader, FinalAnalysis(p.shader), ss)
    requires ss[0].Gap? || ss[0].Let? || ss[0].Declare? || ss[0].Assign?
    requires Within(BodyTokens(ss), Body(p.shader.funcs[i]))
    ensures SameFlow(p, g, w, limit, i, fuel, env, ss)
    decreases i, 1, fuel, ss, 0
  {
    hide Setting, FrameOf, Extras, LiftProgram, FinalAnalysis, Body, ProperBody, Induced, Within, BodyTokens,
         LiftBody, ProperStmt, LAssigned;
    Sizes(p, w, i);
    var sh, data := p.shader, FinalAnalysis(p.shader);
    Proper2(sh, data, ss);
    StmtParts(ss, Body(sh.funcs[i]));
    if ss[0].Gap? {
      LiftGap(sh, data, ss);
      SilentStep(p, Induced(sh, g), w, limit, i, fuel, env, ss);
      ExecSame(p, g, w, limit, i, fuel, env, ss[1..]);
    } else {
      LiftTail(sh, data, ss);
      AssignedSame(p, g, w, limit, i, env, ss[0]);
      hide Assigned, LiftStmt;
      StepIs(sh, data, ss[0]);
      var next := Assigned(p, Induced(sh, g), w, limit, i, env, ss[0]);
      if next.Some? {
        ExecSame(p, g, w, limit, i, fuel, next.value, ss[1..]);
      }
    }
  }

  lemma SilentStep(p: Program, h: Effect, w: Globals, limit: nat, i: nat, fuel: nat, env: Env, ss: seq<Stmt>)
    requires i < |p.bodies| == |p.shader.funcs| && ss != [] && ss[0].Gap?
    ensures Exec(p, h, w, limit, i, fuel, env, ss) == Exec(p, h, w, limit, i, fuel, env, ss[1..])
  {
    assert Assigned(p, h, w, limit, i, env, ss[0]) == Some(env);
  }

  lemma StepIs(sh: Shader, data: Analysis, s: Stmt)
    requires s.Let? || s.Declare? || s.Assign?
    ensures |LiftStmt(sh, data, s)| == 1
    ensures var t := LiftStmt(sh, data, s)[0]; t.Let? || t.Declare? || t.Assign?
  {
  }

  lemma {:induction false} ReturnSame(p: Program, g: Metal, w: Globals, limit: nat, i: nat, fuel: nat, env: Env,
                                      ss: seq<Stmt>)
    requires Setting(p, w, i) && ss != [] && ss[0].Return? && ProperBody(p.shader, FinalAnalysis(p.shader), ss)
    requires Within(BodyTokens(ss), Body(p.shader.funcs[i]))
    ensures SameFlow(p, g, w, limit, i, fuel, env, ss)
    decreases i, 1, fuel, ss, 0
  {
    hide Setting, FrameOf, Extras, LiftProgram, FinalAnalysis, Body, ProperBody, Induced, Within, BodyTokens, LiftBody,
         Eval, LValue, Tokens, Lift, ProperExpr, Keywords;
    Sizes(p, w, i);
    var sh, data := p.shader, FinalAnalysis(p.shader);
    Proper2(sh, data, ss);
    LiftTail(sh, data, ss);
    StmtParts(ss, Body(sh.funcs[i]));
    LiftedValue(p, g, w, limit, i, env, ss[0].value);
  }

  lemma {:induction false} IfSame(p: Program, g: Metal, w: Globals, limit: nat, i: nat, fuel: nat, env: Env,
                                  ss: seq<Stmt>)
    requires Setting(p, w, i) && ss != [] && ss[0].If? && ProperBody(p.shader, FinalAnalysis(p.shader), ss)
    requires Within(BodyTokens(ss), Body(p.shader.funcs[i]))
    ensures SameFlow(p, g, w, limit, i, fuel, env, ss)
    decreases i, 1, fuel, ss, 0
  {
    hide Setting, FrameOf, Extras, LiftProgram, FinalAnalysis, Body, ProperBody, Induced, Within, BodyTokens, LiftBody,
         Eval, LValue, Tokens, Lift, ProperExpr, Keywords;
    Sizes(p, w, i);
    var sh, data, h := p.shader, FinalAnalysis(p.shader), Induced(p.shader, g);
    Proper2(sh, data, ss);
    LiftTail(sh, data, ss);
    StmtParts(ss, Body(sh.funcs[i]));
    LiftedValue(p, g, w, limit, i, env, ss[0].cond);
    InducedLiteral(sh, g);
    var v := Eval(p, h, w, limit, i, env, ss[0].cond);
    if v.Some? {
      var branch := if h.truth(v.value) then ss[0].thn else ss[0].els;
      ExecSame(p, g, w, limit, i, fuel, env, branch);
      var flow := Exec(p, h, w, limit, i, fuel, env, branch);
      if flow.Next? {
        ExecSame(p, g, w, limit, i, fuel, flow.env, ss[1..]);
      }
    }
  }

  lemma {:induction false} WhenSame(p: Program, g: Metal, w: Globals, limit: nat, i: nat, fuel: nat, env: Env,
                                    ss: seq<Stmt>)
    requires Setting(p, w, i) && ss != [] && ss[0].When? && ProperBody(p.shader, FinalAnalysis(p.shader), ss)
    requires Within(BodyTokens(ss), Body(p.shader.funcs[i]))
    ensures SameFlow(p, g, w, limit, i, fuel, env, ss)
    decreases i, 1, fuel, ss, 0
  {
    hide Setting, FrameOf, Extras, LiftProgram, FinalAnalysis, Body, ProperBody, Induced, Within, BodyTokens, LiftBody,
         Eval, LValue, Tokens, Lift, ProperExpr, Keywords;
    Sizes(p, w, i);
    var sh, data, h := p.shader, FinalAnalysis(p.shader), Induced(p.shader, g);
    Proper2(sh, data, ss);
    LiftTail(sh, data, ss);
    StmtParts(ss, Body(sh.funcs[i]));
    LiftedValue(p, g, w, limit, i, env, ss[0].cond);
    InducedLiteral(sh, g);
    var v := Eval(p, h, w, limit, i, env, ss[0].cond);
    if v.Some? {
      if h.truth(v.value) {
        ExecSame(p, g, w, limit, i, fuel, env, ss[0].thn);
      }
      var flow := if h.truth(v.value) then Exec(p, h, w, limit, i, fuel, env, ss[0].thn) else Next(env);
      if flow.Next? {
        ExecSame(p, g, w, limit, i, fuel, flow.env, ss[1..]);
      }
    }
  }

  lemma {:induction false} WhileSame(p: Program, g: Metal, w: Globals, limit: nat, i: nat, fuel: nat, env: Env,
                                     ss: seq<Stmt>)
    requires Setting(p, w, i) && ss != [] && ss[0].While? && ProperBody(p.shader, FinalAnalysis(p.shader), ss)
    requires Within(BodyTokens(ss), Body(p.shader.funcs[i]))
    ensures SameFlow(p, g, w, limit, i, fuel, env, ss)
    decreases i, 1, fuel, ss, 0
  {
    hide Setting, FrameOf, Extras, LiftProgram, FinalAnalysis, Body, ProperBody, Induced, Within, BodyTokens, LiftBody,
         Eval, LValue, Tokens, Lift, ProperExpr, Keywords;
    Sizes(p, w, i);
    var sh, data, h := p.shader, FinalAnalysis(p.shader), Induced(p.shader, g);
    Proper2(sh, data, ss);
    LiftTail(sh, data, ss);
    StmtParts(ss, Body(sh.funcs[i]));
    LiftedValue(p, g, w, limit, i, env, ss[0].cond);
    InducedLiteral(sh, g);
    var v := Eval(p, h, w, limit, i, env, ss[0].cond);
    if v.Some? && !h.truth(v.value) {
      ExecSame(p, g, w, limit, i, fuel, env, ss[1..]);
    } else if v.Some? && fuel > 0 {
      ExecSame(p, g, w, limit, i, fuel - 1, env, ss[0].body);
      var flow := Exec(p, h, w, limit, i, fuel - 1, env, ss[0].body);
      if flow.Next? {
        ExecSame(p, g, w, limit, i, fuel - 1, flow.env, ss);
      }
    }
  }

  /** A lifted function, handed its globals behind its own arguments, returns what the function with globals does. */
  lemma {:induction false} RunSame(p: Program, g: Metal, w: Globals, limit: nat, i: nat, vs: seq<Value>)
    requires Setting(p, w, i)
    ensures LRun(LiftProgram(p), g, limit, i, Vals(vs) + GlobalArgs(w, Extras(p.shader, i)))
         == Run(p, Induced(p.shader, g), w, limit, i, vs)
    decreases i, 2, 0
  {
    hide Bind, FrameOf, Extras, GlobalArgs, Exec, LExec, WellFormed, UsesInOrder, Fits, Vals, ProperBody, BodyTokens,
         LiftBody, Distinct, Declared, SafeDelimiters, FinalAnalysis, Body, Induced, NamesAreFree;
    var sh, q := p.shader, LiftProgram(p);
    var params := sh.funcs[i].params;
    SignatureEndsWithExtras(sh, i);
    if |vs| == |params| {
      BindExtras(params, vs, w, Extras(sh, i));
      BodyIsTokens(p, i);
      ExecSame(p, g, w, limit, i, limit, Bind(params, vs), p.bodies[i]);
    }
  }
}
