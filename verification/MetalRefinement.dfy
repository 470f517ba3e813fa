/** Programs do not notice a richer language or a larger bound on their loops. Hence whatever an effect program yields
    in a language that Metal realises, the emitted program yields too. */
module MetalRefinement {
  import opened Options
  import opened MetalScoping
  import opened MetalSyntax
  import opened MetalMachines
  import opened MetalMeaning

  ghost predicate Below<T>(a: Option<T>, b: Option<T>) {
    a.Some? ==> b == a
  }

  /** Whatever is defined in `h` is defined in `k`, and is the same there. */
  ghost predicate Refines(h: Effect, k: Effect) {
    && (forall n :: h.literal(n) == k.literal(n))
    && (forall f, vs :: Below(h.apply(f, vs), k.apply(f, vs)))
    && (forall f, t, s, vs :: Below(h.access(f, t, s, vs), k.access(f, t, s, vs)))
    && (forall t, vs :: Below(h.load(t, vs), k.load(t, vs)))
    && (forall v :: h.truth(v) == k.truth(v))
    && (forall t, v :: Below(h.convert(t, v), k.convert(t, v)))
    && (forall t :: h.initial(t) == k.initial(t))
    && (forall v, fields, u :: Below(h.update(v, fields, u), k.update(v, fields, u)))
  }

  ghost predicate Bounded(p: Program, h: Effect, k: Effect, limit: nat, more: nat, i: nat) {
    Refines(h, k) && limit <= more && i < |p.bodies| == |p.shader.funcs|
  }

  lemma {:induction false} EvalBelow(p: Program, h: Effect, k: Effect, w: Globals, limit: nat, more: nat, i: nat,
                                     env: Env, e: Expr)
    requires Bounded(p, h, k, limit, more, i)
    ensures Below(Eval(p, h, w, limit, i, env, e), Eval(p, k, w, more, i, env, e))
    decreases i, 0, 0, e, 1
  {
    hide Refines, EvalArgs, Run;
    match e {
      case Literal(n) => assert h.literal(n) == k.literal(n) by { SameConstants(h, k, n, Value([])); }
      case Local(_) =>
      case Handle(_) =>
      case Uniform(_) =>
      case Paren(x) => EvalBelow(p, h, k, w, limit, more, i, env, x);
      case Negate(x) =>
        EvalBelow(p, h, k, w, limit, more, i, env, x);
        var v := Eval(p, h, w, limit, i, env, x);
        if v.Some? { ApplyBelow(h, k, "-", [v.value]); }
      case Infix(op, l, r) =>
        EvalBelow(p, h, k, w, limit, more, i, env, l);
        EvalBelow(p, h, k, w, limit, more, i, env, r);
        var a, b := Eval(p, h, w, limit, i, env, l), Eval(p, h, w, limit, i, env, r);
        if a.Some? && b.Some? { ApplyBelow(h, k, op, [a.value, b.value]); }
      case Conditional(c, a, b) =>
        EvalBelow(p, h, k, w, limit, more, i, env, c);
        var v := Eval(p, h, w, limit, i, env, c);
        if v.Some? {
          SameConstants(h, k, "", v.value);
          EvalBelow(p, h, k, w, limit, more, i, env, if h.truth(v.value) then a else b);
        }
      case Member(o, f) =>
        EvalBelow(p, h, k, w, limit, more, i, env, o);
        var v := Eval(p, h, w, limit, i, env, o);
        if v.Some? { ApplyBelow(h, k, "." + f, [v.value]); }
      case Index(o, n) =>
        EvalBelow(p, h, k, w, limit, more, i, env, o);
        EvalBelow(p, h, k, w, limit, more, i, env, n);
        var a, b := Eval(p, h, w, limit, i, env, o), Eval(p, h, w, limit, i, env, n);
        if a.Some? && b.Some? { ApplyBelow(h, k, "[]", [a.value, b.value]); }
      case Call(f, args) =>
        ArgsBelow(p, h, k, w, limit, more, i, env, args);
        var vs, j := EvalArgs(p, h, w, limit, i, env, args), IndexOf(FunctionNames(p.shader), f);
        if vs.Some? {
          ApplyBelow(h, k, f, vs.value);
          if j < i { RunBelow(p, h, k, w, limit, more, j, vs.value); }
        }
      case Access(_, _, _) => AccessBelow(p, h, k, w, limit, more, i, env, e);
    }
  }

  lemma SameConstants(h: Effect, k: Effect, n: string, v: Value)
    requires Refines(h, k)
    ensures h.literal(n) == k.literal(n) && h.truth(v) == k.truth(v) && h.initial(n) == k.initial(n)
  {
  }

  lemma ApplyBelow(h: Effect, k: Effect, f: string, vs: seq<Value>)
    requires Refines(h, k)
    ensures Below(h.apply(f, vs), k.apply(f, vs))
  {
  }

  lemma {:induction false} ArgsBelow(p: Program, h: Effect, k: Effect, w: Globals, limit: nat, more: nat, i: nat,
                                     env: Env, args: seq<Expr>)
    requires Bounded(p, h, k, limit, more, i)
    ensures Below(EvalArgs(p, h, w, limit, i, env, args), EvalArgs(p, k, w, more, i, env, args))
    decreases i, 0, 0, args
  {
    hide Refines, Eval;
    if args != [] {
      EvalBelow(p, h, k, w, limit, more, i, env, args[0]);
      ArgsBelow(p, h, k, w, limit, more, i, env, args[1..]);
    }
  }

  lemma {:induction false} AccessBelow(p: Program, h: Effect, k: Effect, w: Globals, limit: nat, more: nat, i: nat,
                                       env: Env, e: Expr)
    requires Bounded(p, h, k, limit, more, i) && e.Access?
    ensures Below(Eval(p, h, w, limit, i, env, e), Eval(p, k, w, more, i, env, e))
    decreases i, 0, 0, e, 0
  {
    hide Refines, EvalArgs;
    var args := e.args;
    if e.f == "Load" && |args| == 1 {
      var parts := if args[0].Call? && args[0].f == "int3" then args[0].args else args;
      ArgsBelow(p, h, k, w, limit, more, i, env, parts);
      var vs := EvalArgs(p, h, w, limit, i, env, parts);
      if vs.Some? && e.texture in w.textures { LoadBelow(h, k, w.textures[e.texture], vs.value); }
    } else if args != [] {
      ArgsBelow(p, h, k, w, limit, more, i, env, args[1..]);
      var vs := EvalArgs(p, h, w, limit, i, env, args[1..]);
      if vs.Some? && e.texture in w.textures && args[0].Handle? && args[0].sampler in w.samplers {
        SampleBelow(h, k, e.f, w.textures[e.texture], w.samplers[args[0].sampler], vs.value);
      }
    }
  }

  lemma LoadBelow(h: Effect, k: Effect, t: nat, vs: seq<Value>)
    requires Refines(h, k)
    ensures Below(h.load(t, vs), k.load(t, vs))
  {
  }

  lemma SampleBelow(h: Effect, k: Effect, f: string, t: nat, s: nat, vs: seq<Value>)
    requires Refines(h, k)
    ensures Below(h.access(f, t, s, vs), k.access(f, t, s, vs))
  {
  }

  lemma ConvertBelow(h: Effect, k: Effect, t: string, v: Value)
    requires Refines(h, k)
    ensures Below(h.convert(t, v), k.convert(t, v)) && h.initial(t) == k.initial(t)
  {
  }

  lemma UpdateBelow(h: Effect, k: Effect, v: Value, fields: seq<string>, u: Value)
    requires Refines(h, k)
    ensures Below(h.update(v, fields, u), k.update(v, fields, u))
  {
  }

  lemma {:induction false} PartBelow(h: Effect, k: Effect, v: Value, fields: seq<string>)
    requires Refines(h, k)
    ensures Below(Part(h.apply, v, fields), Part(k.apply, v, fields))
    decreases |fields|
  {
    hide Refines;
    if fields != [] {
      ApplyBelow(h, k, "." + fields[0], [v]);
      var m := h.apply("." + fields[0], [v]);
      if m.Some? { PartBelow(h, k, m.value, fields[1..]); }
    }
  }

  lemma StoredBelow(h: Effect, k: Effect, op: string, v: Value, fields: seq<string>, u: Value)
    requires Refines(h, k)
    ensures Below(Stored(h.apply, op, v, fields, u), Stored(k.apply, op, v, fields, u))
  {
    hide Refines, Part;
    PartBelow(h, k, v, fields);
    var part := Part(h.apply, v, fields);
    if |op| == 2 && part.Some? { ApplyBelow(h, k, op[..1], [part.value, u]); }
  }

  lemma {:induction false} StepBelow(p: Program, h: Effect, k: Effect, w: Globals, limit: nat, more: nat, i: nat,
                                     env: Env, s: Stmt)
    requires Bounded(p, h, k, limit, more, i) && (s.Gap? || s.Let? || s.Declare? || s.Assign?)
    ensures Below(Assigned(p, h, w, limit, i, env, s), Assigned(p, k, w, more, i, env, s))
    decreases i, 0, 1
  {
    hide Refines, Eval;
    match s {
      case Gap(_) =>
      case Let(t, _) => ConvertBelow(h, k, t, Value([]));
      case Declare(t, _, e) =>
        EvalBelow(p, h, k, w, limit, more, i, env, e);
        var v := Eval(p, h, w, limit, i, env, e);
        if v.Some? { ConvertBelow(h, k, t, v.value); }
      case Assign(x, fields, op, e) =>
        EvalBelow(p, h, k, w, limit, more, i, env, e);
        var v := Eval(p, h, w, limit, i, env, e);
        if v.Some? && x in env {
          StoredBelow(h, k, op, env[x], fields, v.value);
          var c := Stored(h.apply, op, env[x], fields, v.value);
          if c.Some? { UpdateBelow(h, k, env[x], fields, c.value); }
        }
        hide Stored;
      case _ =>
    }
  }

  /** A body that gets on gets on in the same way. */
  ghost predicate FlowBelow(a: Flow<Env>, b: Flow<Env>) {
    !a.Stuck? ==> b == a
  }

  lemma {:induction false} ExecBelow(p: Program, h: Effect, k: Effect, w: Globals, limit: nat, more: nat, i: nat,
                                     fuel: nat, fuel': nat, env: Env, ss: seq<Stmt>)
    requires Bounded(p, h, k, limit, more, i) && fuel <= fuel'
    ensures FlowBelow(Exec(p, h, w, limit, i, fuel, env, ss), Exec(p, k, w, more, i, fuel', env, ss))
    decreases i, 1, fuel, ss, 1
  {
    hide Refines, Eval, Assigned;
    if ss != [] {
      match ss[0] {
        case Return(e) => EvalBelow(p, h, k, w, limit, more, i, env, e);
        case If(_, _, _) => BranchBelow(p, h, k, w, limit, more, i, fuel, fuel', env, ss);
        case When(_, _) => BranchBelow(p, h, k, w, limit, more, i, fuel, fuel', env, ss);
        case While(_, _) => LoopBelow(p, h, k, w, limit, more, i, fuel, fuel', env, ss);
        case _ =>
          StepBelow(p, h, k, w, limit, more, i, env, ss[0]);
          var next := Assigned(p, h, w, limit, i, env, ss[0]);
          if next.Some? { ExecBelow(p, h, k, w, limit, more, i, fuel, fuel', next.value, ss[1..]); }
      }
    }
  }

  lemma {:induction false} BranchBelow(p: Program, h: Effect, k: Effect, w: Globals, limit: nat, more: nat, i: nat,
                                       fuel: nat, fuel': nat, env: Env, ss: seq<Stmt>)
    requires Bounded(p, h, k, limit, more, i) && fuel <= fuel' && ss != [] && (ss[0].If? || ss[0].When?)
    ensures FlowBelow(Exec(p, h, w, limit, i, fuel, env, ss), Exec(p, k, w, more, i, fuel', env, ss))
    decreases i, 1, fuel, ss, 0
  {
    hide Refines, Eval;
    EvalBelow(p, h, k, w, limit, more, i, env, ss[0].cond);
    var v := Eval(p, h, w, limit, i, env, ss[0].cond);
    if v.Some? {
      SameConstants(h, k, "", v.value);
      if h.truth(v.value) || ss[0].If? {
        var branch := if h.truth(v.value) then ss[0].thn else ss[0].els;
        ExecBelow(p, h, k, w, limit, more, i, fuel, fuel', env, branch);
        var flow := Exec(p, h, w, limit, i, fuel, env, branch);
        if flow.Next? { ExecBelow(p, h, k, w, limit, more, i, fuel, fuel', flow.env, ss[1..]); }
      } else {
        ExecBelow(p, h, k, w, limit, more, i, fuel, fuel', env, ss[1..]);
      }
    }
  }

  lemma {:induction false} LoopBelow(p: Program, h: Effect, k: Effect, w: Globals, limit: nat, more: nat, i: nat,
                                     fuel: nat, fuel': nat, env: Env, ss: seq<Stmt>)
    requires Bounded(p, h, k, limit, more, i) && fuel <= fuel' && ss != [] && ss[0].While?
    ensures FlowBelow(Exec(p, h, w, limit, i, fuel, env, ss), Exec(p, k, w, more, i, fuel', env, ss))
    decreases i, 1, fuel, ss, 0
  {
    hide Refines, Eval;
    EvalBelow(p, h, k, w, limit, more, i, env, ss[0].cond);
    var v := Eval(p, h, w, limit, i, env, ss[0].cond);
    if v.Some? {
      SameConstants(h, k, "", v.value);
      if !h.truth(v.value) {
        ExecBelow(p, h, k, w, limit, more, i, fuel, fuel', env, ss[1..]);
      } else if fuel > 0 {
        ExecBelow(p, h, k, w, limit, more, i, fuel - 1, fuel' - 1, env, ss[0].body);
        var flow := Exec(p, h, w, limit, i, fuel - 1, env, ss[0].body);
        if flow.Next? { ExecBelow(p, h, k, w, limit, more, i, fuel - 1, fuel' - 1, flow.env, ss); }
      }
    }
  }

  /** A result stays the same in a language that defines more, and with loops that may go round more often. */
  lemma {:induction false} RunBelow(p: Program, h: Effect, k: Effect, w: Globals, limit: nat, more: nat, i: nat,
                                    vs: seq<Value>)
    requires Bounded(p, h, k, limit, more, i)
    ensures Below(Run(p, h, w, limit, i, vs), Run(p, k, w, more, i, vs))
    decreases i, 2
  {
    hide Refines, Exec, Bind;
    if |vs| == |p.shader.funcs[i].params| {
      ExecBelow(p, h, k, w, limit, more, i, limit, more, Bind(p.shader.funcs[i].params, vs), p.bodies[i]);
    }
  }

  // ---------------------------------------------------------------------------------------------------------
  // Results, however often loops go round

  ghost predicate Yields(p: Program, h: Effect, w: Globals, i: nat, vs: seq<Value>, v: Value)
    requires i < |p.bodies| == |p.shader.funcs|
  {
    exists limit: nat :: Run(p, h, w, limit, i, vs) == Some(v)
  }

  ghost predicate LYields(q: Lifted, g: Metal, i: nat, args: seq<Arg>, v: Value)
    requires i < |q.bodies| == |q.params| == |q.names|
  {
    exists limit: nat :: LRun(q, g, limit, i, args) == Some(v)
  }

  lemma RefinesSelf(h: Effect)
    ensures Refines(h, h)
  {
  }

  lemma YieldsOne(p: Program, h: Effect, w: Globals, i: nat, vs: seq<Value>, v: Value, u: Value)
    requires i < |p.bodies| == |p.shader.funcs| && Yields(p, h, w, i, vs, v) && Yields(p, h, w, i, vs, u)
    ensures v == u
  {
    hide Run;
    var a: nat :| Run(p, h, w, a, i, vs) == Some(v);
    var b: nat :| Run(p, h, w, b, i, vs) == Some(u);
    RefinesSelf(h);
    var c := a + b;
    RunBelow(p, h, h, w, a, c, i, vs);
    RunBelow(p, h, h, w, b, c, i, vs);
  }

  /** The emitted program yields what the program yields in the language as Metal realises it, and in every language
      that says no more than that. */
  lemma EmittedYields(p: Program, h: Effect, g: Metal, w: Globals, i: nat, vs: seq<Value>, v: Value)
    requires Setting(p, w, i)
    ensures var args := Vals(vs) + GlobalArgs(w, Extras(p.shader, i));
      && i < |p.bodies| == |p.shader.funcs|
      && (LYields(LiftProgram(p), g, i, args, v) <==> Yields(p, Induced(p.shader, g), w, i, vs, v))
      && (Refines(h, Induced(p.shader, g)) && Yields(p, h, w, i, vs, v) ==> LYields(LiftProgram(p), g, i, args, v))
  {
    Sizes(p, w, i);
    hide Setting, Run, LRun, Refines, Induced, Extras, LiftProgram, Vals, GlobalArgs;
    var k, args := Induced(p.shader, g), Vals(vs) + GlobalArgs(w, Extras(p.shader, i));
    forall limit: nat
      ensures LRun(LiftProgram(p), g, limit, i, args) == Run(p, k, w, limit, i, vs)
    {
      RunSame(p, g, w, limit, i, vs);
    }
    if Refines(h, k) && Yields(p, h, w, i, vs, v) {
      var limit: nat :| Run(p, h, w, limit, i, vs) == Some(v);
      RunBelow(p, h, k, w, limit, limit, i, vs);
      assert Run(p, k, w, limit, i, vs) == Some(v);
    }
  }
}
