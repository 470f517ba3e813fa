/** What a shader computes that uses its textures out of order, and what is computed by what is emitted for it. */
module MetalCounterexampleRun {
  import opened Options
  import opened MetalTranspiler
  import opened MetalScoping
  import opened MetalSyntax
  import opened MetalMachines
  import opened MetalMeaning
  import opened MetalOrder
  import opened MetalCounterexample
  import M = MetalText

  /** One sample minus another. */
  function Subtracted(g: Metal, minuend: nat, subtrahend: nat, sampler: nat, uv: Value): Option<Value> {
    var a :- g.call(minuend, "sample", [Arg.Sampler(sampler), Val(uv)]);
    var b :- g.call(subtrahend, "sample", [Arg.Sampler(sampler), Val(uv)]);
    g.apply("-", [a, b])
  }

  function World(picture: nat, video: nat, sampler: nat): Globals {
    Globals(map[], map["picture" := picture, "video" := video], map["smp" := sampler])
  }

  /** A function of one argument that returns an expression. */
  lemma ReturnRuns(p: Program, h: Effect, w: Globals, limit: nat, i: nat, v: Value, e: Expr)
    requires i < |p.bodies| == |p.shader.funcs| && p.shader.funcs[i].params == ["uv"] && p.bodies[i] == [Return(e)]
    ensures Run(p, h, w, limit, i, [v]) == Eval(p, h, w, limit, i, map["uv" := v], e)
  {
    assert Bind(["uv"][..0], [v][..0]) == map[];
    assert Bind(["uv"], [v]) == map["uv" := v];
    hide Eval;
  }

  lemma SampleEvaluates(p: Program, g: Metal, w: Globals, limit: nat, env: Env, uv: Value, t: string)
    requires 0 < |p.bodies| == |p.shader.funcs| && t in w.textures && "smp" in w.samplers
    requires "uv" in env && env["uv"] == uv
    ensures Eval(p, Induced(p.shader, g), w, limit, 0, env, SampleOf(t))
         == g.call(w.textures[t], "sample", [Arg.Sampler(w.samplers["smp"]), Val(uv)])
  {
    var h, args := Induced(p.shader, g), [Handle("smp"), Local("uv")];
    assert args[1..] == [Local("uv")];
    assert Eval(p, h, w, limit, 0, env, Local("uv")) == Some(uv);
    hide Induced;
    EvalOne(p, h, w, limit, 0, env, args[1..]);
    EvalSampled(p, g, w, limit, 0, env, SampleOf(t));
    hide Eval, EvalArgs;
  }

  lemma DifferenceEvaluates(p: Program, g: Metal, w: Globals, limit: nat, env: Env, uv: Value)
    requires 0 < |p.bodies| == |p.shader.funcs| && "picture" in w.textures && "video" in w.textures
    requires "smp" in w.samplers && "uv" in env && env["uv"] == uv
    ensures Eval(p, Induced(p.shader, g), w, limit, 0, env, Difference())
         == Subtracted(g, w.textures["video"], w.textures["picture"], w.samplers["smp"], uv)
  {
    SampleEvaluates(p, g, w, limit, env, uv, "video");
    SampleEvaluates(p, g, w, limit, env, uv, "picture");
    hide Induced, SampleOf;
    var h := Induced(p.shader, g);
    var a, b := Eval(p, h, w, limit, 0, env, SampleOf("video")), Eval(p, h, w, limit, 0, env, SampleOf("picture"));
    if a.Some? && b.Some? {
      SameName(p.shader, g, "-", [a.value, b.value]);
    }
  }

  lemma CallEvaluates(p: Program, h: Effect, w: Globals, limit: nat, uv: Value)
    requires 2 == |p.bodies| == |p.shader.funcs| && p.shader.funcs[0].name == "shade"
    ensures Eval(p, h, w, limit, 1, map["uv" := uv], Call("shade", [Local("uv")])) == Run(p, h, w, limit, 0, [uv])
  {
    var env := map["uv" := uv];
    assert Eval(p, h, w, limit, 1, env, Local("uv")) == Some(uv);
    EvalOne(p, h, w, limit, 1, env, [Local("uv")]);
    assert FunctionNames(p.shader)[0] == "shade";
    assert IndexOf(FunctionNames(p.shader), "shade") == 0;
    hide Run, EvalArgs;
  }

  /** The program subtracts the picture from the video. */
  lemma SourceRuns(g: Metal, limit: nat, picture: nat, video: nat, sampler: nat, uv: Value)
    ensures |Swapped().bodies| == |Swapped().shader.funcs| == 2
    ensures Run(Swapped(), Induced(Swapped().shader, g), World(picture, video, sampler), limit, 1, [uv])
         == Subtracted(g, video, picture, sampler, uv)
  {
    hide *;
    Shape();
    var p, w := Swapped(), World(picture, video, sampler);
    BodiesAre();
    WorldIs(picture, video, sampler);
    ReturnRuns(p, Induced(p.shader, g), w, limit, 0, uv, Difference());
    ReturnRuns(p, Induced(p.shader, g), w, limit, 1, uv, Call("shade", [Local("uv")]));
    CallEvaluates(p, Induced(p.shader, g), w, limit, uv);
    DifferenceEvaluates(p, g, w, limit, map["uv" := uv], uv);
  }

  lemma BodiesAre()
    ensures Helper() == [Return(Difference())] && Main() == [Return(Call("shade", [Local("uv")]))]
  {
  }

  lemma WorldIs(picture: nat, video: nat, sampler: nat)
    ensures var w := World(picture, video, sampler);
      && "picture" in w.textures && w.textures["picture"] == picture && "video" in w.textures
      && w.textures["video"] == video && "smp" in w.samplers && w.samplers["smp"] == sampler
  {
    assert "picture"[0] != "video"[0];
  }

  // ---------------------------------------------------------------------------------------------------------
  // The lifted program

  ghost predicate IsLifted(q: Lifted) {
    && |q.names| == |q.params| == |q.bodies| == 2 && IndexOf(q.names, "shade") == 0
    && q.params[0] == q.params[1] == ["uv", "picture", "video", "smp"]
    && q.bodies[0] == [M.Return(M.Infix("-", LiftedSample("video"), LiftedSample("picture")))]
    && q.bodies[1] == [M.Return(LiftedCall())]
  }

  function Arguments(uv: Value, first: nat, second: nat, sampler: nat): seq<Arg> {
    [Val(uv), Texture(first), Texture(second), Arg.Sampler(sampler)]
  }

  ghost predicate Holds(env: Frame, uv: Value, picture: nat, video: nat, sampler: nat) {
    && "uv" in env && env["uv"] == Val(uv)
    && "picture" in env && env["picture"] == Texture(picture)
    && "video" in env && env["video"] == Texture(video)
    && "smp" in env && env["smp"] == Arg.Sampler(sampler)
  }

  lemma BindFour(uv: Value, picture: nat, video: nat, sampler: nat)
    ensures Holds(Bind(["uv", "picture", "video", "smp"], Arguments(uv, picture, video, sampler)), uv, picture, video,
                  sampler)
  {
    var names, args := ["uv", "picture", "video", "smp"], Arguments(uv, picture, video, sampler);
    FourNames();
    hide Bind;
    BindAt(names, args, 0);
    BindAt(names, args, 1);
    BindAt(names, args, 2);
    BindAt(names, args, 3);
  }

  lemma FourNames()
    ensures Distinct(["uv", "picture", "video", "smp"])
  {
    assert "uv"[0] != "picture"[0] && "uv"[0] != "video"[0] && "uv"[0] != "smp"[0];
    assert "picture"[0] != "video"[0] && "picture"[0] != "smp"[0] && "video"[0] != "smp"[0];
  }

  lemma LiftedSampleEvaluates(q: Lifted, g: Metal, limit: nat, env: Frame, t: string, id: nat, uv: Value, sampler: nat)
    requires |q.bodies| == |q.params| == |q.names| == 2 && t in env && env[t] == Texture(id)
    requires "uv" in env && env["uv"] == Val(uv) && "smp" in env && env["smp"] == Arg.Sampler(sampler)
    ensures LValue(q, g, limit, 0, env, LiftedSample(t)) == g.call(id, "sample", [Arg.Sampler(sampler), Val(uv)])
  {
    NameIs(q, g, limit, 0, env, "smp");
    NameIs(q, g, limit, 0, env, "uv");
    hide LEval, LEvalArgs, LValue;
    PairOf(q, g, limit, 0, env, M.Name("smp"), M.Name("uv"));
    MethodCall(q, g, limit, 0, env, t, id, "sample", [M.Name("smp"), M.Name("uv")]);
    ValueIs(q, g, limit, 0, env, LiftedSample(t), g.call(id, "sample", [Arg.Sampler(sampler), Val(uv)]));
  }

  lemma LiftedReturn(q: Lifted, g: Metal, limit: nat, i: nat, args: seq<Arg>, e: M.Expr)
    requires |q.bodies| == |q.params| == |q.names| == 2 && i < 2 && |args| == |q.params[i]|
    requires q.bodies[i] == [M.Return(e)]
    ensures LRun(q, g, limit, i, args) == LValue(q, g, limit, i, Bind(q.params[i], args), e)
  {
    hide LValue, Bind;
  }

  lemma LiftedHelperRuns(q: Lifted, g: Metal, limit: nat, uv: Value, picture: nat, video: nat, sampler: nat)
    requires IsLifted(q)
    ensures LRun(q, g, limit, 0, Arguments(uv, picture, video, sampler)) == Subtracted(g, video, picture, sampler, uv)
  {
    var args := Arguments(uv, picture, video, sampler);
    var e := M.Infix("-", LiftedSample("video"), LiftedSample("picture"));
    var env := Bind(q.params[0], args);
    BindFour(uv, picture, video, sampler);
    LiftedReturn(q, g, limit, 0, args, e);
    LiftedSampleEvaluates(q, g, limit, env, "video", video, uv, sampler);
    LiftedSampleEvaluates(q, g, limit, env, "picture", picture, uv, sampler);
    hide Bind, LiftedSample, LRun;
    InfixIs(q, g, limit, env, LiftedSample("video"), LiftedSample("picture"));
    hide LEval, LValue;
  }

  lemma InfixIs(q: Lifted, g: Metal, limit: nat, env: Frame, a: M.Expr, b: M.Expr)
    requires |q.bodies| == |q.params| == |q.names| == 2
    ensures LValue(q, g, limit, 0, env, M.Infix("-", a, b))
         == Applied2(g, "-", LValue(q, g, limit, 0, env, a), LValue(q, g, limit, 0, env, b))
  {
  }

  /** The lifted program hands the helper the video as the picture and the picture as the video. */
  lemma LiftedMainRuns(q: Lifted, g: Metal, limit: nat, uv: Value, picture: nat, video: nat, sampler: nat)
    requires IsLifted(q)
    ensures LRun(q, g, limit, 1, Arguments(uv, picture, video, sampler)) == Subtracted(g, picture, video, sampler, uv)
  {
    var args, swapped := Arguments(uv, picture, video, sampler), Arguments(uv, video, picture, sampler);
    var env := Bind(q.params[1], args);
    BindFour(uv, picture, video, sampler);
    LiftedReturn(q, g, limit, 1, args, LiftedCall());
    LiftedHelperRuns(q, g, limit, uv, video, picture, sampler);
    hide Bind, Subtracted, LRun;
    assert LEvalArgs(q, g, limit, 1, env, LiftedCall().args) == Some(swapped) by {
      FourArgs(q, g, limit, env, uv, picture, video, sampler);
    }
    CallIsRun(q, g, limit, env, swapped);
    ValueIs(q, g, limit, 1, env, LiftedCall(), Subtracted(g, picture, video, sampler, uv));
    hide LEval, LValue;
  }

  lemma FourArgs(q: Lifted, g: Metal, limit: nat, env: Frame, uv: Value, picture: nat, video: nat, sampler: nat)
    requires |q.bodies| == |q.params| == |q.names| == 2 && Holds(env, uv, picture, video, sampler)
    ensures LEvalArgs(q, g, limit, 1, env, LiftedCall().args) == Some(Arguments(uv, video, picture, sampler))
  {
    NameIs(q, g, limit, 1, env, "uv");
    NameIs(q, g, limit, 1, env, "video");
    NameIs(q, g, limit, 1, env, "picture");
    NameIs(q, g, limit, 1, env, "smp");
    hide LEval, LEvalArgs;
    var args := LiftedCall().args;
    TripleOf(q, g, limit, 1, env, M.Name("video"), M.Name("picture"), M.Name("smp"));
    assert args[1..] == [M.Name("video"), M.Name("picture"), M.Name("smp")];
    ArgsStep(q, g, limit, 1, env, args);
    var handles := [Texture(video), Texture(picture), Arg.Sampler(sampler)];
    assert [Val(uv)] + handles == Arguments(uv, video, picture, sampler);
  }

  lemma CallIsRun(q: Lifted, g: Metal, limit: nat, env: Frame, args: seq<Arg>)
    requires IsLifted(q) && LEvalArgs(q, g, limit, 1, env, LiftedCall().args) == Some(args)
    ensures LEval(q, g, limit, 1, env, LiftedCall()) == AsArg(LRun(q, g, limit, 0, args))
  {
    hide LEvalArgs, LRun, LiftedSample;
  }

  lemma SwappedIsLifted()
    ensures |Swapped().bodies| == |Swapped().shader.funcs| == 2 && IsLifted(LiftProgram(Swapped()))
  {
    hide *;
    Shape();
    LiftedSwapped();
    LiftedHere(LiftProgram(Swapped()));
  }

  lemma LiftedHere(q: Lifted)
    requires |q.names| == |q.params| == |q.bodies| == 2 && q.names == ["shade", "main"]
    requires q.params[0] == q.params[1] == ["uv", "picture", "video", "smp"]
    requires q.bodies[0] == [M.Return(M.Infix("-", LiftedSample("video"), LiftedSample("picture")))]
    requires q.bodies[1] == [M.Return(LiftedCall())]
    ensures IsLifted(q)
  {
    hide LiftedSample, LiftedCall;
  }

  lemma ArgumentsAre(uv: Value, picture: nat, video: nat, sampler: nat)
    ensures Vals([uv]) + GlobalArgs(World(picture, video, sampler), DECLARED) == Arguments(uv, picture, video, sampler)
  {
    WorldIs(picture, video, sampler);
    assert "smp"[0] != "picture"[0] && "smp"[0] != "video"[0];
    var w := World(picture, video, sampler);
    assert GlobalArg(w, "picture") == Texture(picture) && GlobalArg(w, "video") == Texture(video);
    assert GlobalArg(w, "smp") == Arg.Sampler(sampler);
    hide GlobalArg, World;
  }

  /** A machine on which a texture is as bright as its number. */
  function Numbers(): Metal {
    Metal(
      n => Value([]),
      (f: string, vs: seq<Value>) => if f == "-" && |vs| == 2 && |vs[0].components| == 1 == |vs[1].components|
                 then Some(Value([vs[0].components[0] - vs[1].components[0]])) else None,
      (t: nat, f: string, args: seq<Arg>) => Some(Value([t as real])),
      v => false,
      (t, v) => Some(v),
      t => Value([]),
      (v, fields, u) => Some(u))
  }

  /** The emitted program computes another value than the program, for any limit on its loops. */
  lemma SwappedDiffers(limit: nat, uv: Value)
    ensures var p, w := Swapped(), World(1, 2, 3);
      && |p.bodies| == |p.shader.funcs| == 2 && Fits(p.shader, w)
      && Run(p, Induced(p.shader, Numbers()), w, limit, 1, [uv]) == Some(Value([1.0]))
      && LRun(LiftProgram(p), Numbers(), limit, 1, Vals([uv]) + GlobalArgs(w, Extras(p.shader, 1)))
         == Some(Value([-1.0]))
  {
    hide *;
    Shape();
    SwappedIsLifted();
    ExtrasAre(1);
    ArgumentsAre(uv, 1, 2, 3);
    SourceRuns(Numbers(), limit, 1, 2, 3, uv);
    LiftedMainRuns(LiftProgram(Swapped()), Numbers(), limit, uv, 1, 2, 3);
    NumbersSubtract(1, 2, uv);
    NumbersSubtract(2, 1, uv);
    NamesOfGlobals();
    FitsHere(Swapped().shader);
  }

  lemma NumbersSubtract(a: nat, b: nat, uv: Value)
    ensures Subtracted(Numbers(), a, b, 3, uv) == Some(Value([a as real - b as real]))
  {
  }

  lemma FitsHere(sh: Shader)
    requires UniformNames(sh) == [] && Declared(sh, Textures) == ["picture", "video"] && Declared(sh, Samplers)
         == ["smp"]
    ensures Fits(sh, World(1, 2, 3))
  {
    hide UniformNames, Declared;
  }
}
