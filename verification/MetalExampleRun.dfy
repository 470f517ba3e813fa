/** What the vertex shader computes. */
module MetalExampleRun {
  import opened Options
  import opened MetalMachines
  import opened MetalMeaning
  import opened MetalExample
  import M = MetalText

  /** The position of the output, in terms of the operations of Metal. */
  function ProjectedValue(g: Metal, vertex: Value, projection: Value): Option<Value> {
    var pos :- g.apply(".pos", [vertex]);
    var xyz :- g.apply(".xyz", [pos]);
    var position :- g.apply("float4", [xyz, g.literal("1.0")]);
    g.apply("*", [position, projection])
  }

  /** The output, with its two fields. */
  function VertexValue(g: Metal, vertex: Value, projection: Value): Option<Value> {
    var projected :- ProjectedValue(g, vertex, projection);
    var output :- g.update(g.initial("VertInOut_Out"), ["pos"], projected);
    var uv :- g.apply(".uv", [vertex]);
    g.update(output, ["uv"], uv)
  }

  /** A program with the signatures and bodies of the lifted example. */
  ghost predicate IsLifted(q: Lifted) {
    && |q.names| == |q.params| == |q.bodies| == 2
    && IndexOf(q.names, "VSDefault") == 0 && IndexOf(q.names, "float4") == 2
    && q.params[0] == q.params[1] == ["vert_in", "uniforms"]
    && q.bodies[0] == LiftedHelper()
    && q.bodies[1] == [M.Return(M.Call("VSDefault", [M.Name("vert_in"), M.Name("uniforms")]))]
  }

  function Arguments(vertex: Value, projection: Value): seq<Arg> {
    [Val(vertex), Buffer(map["ViewProj" := projection])]
  }

  function Start(vertex: Value, projection: Value): Frame {
    map["vert_in" := Val(vertex), "uniforms" := Buffer(map["ViewProj" := projection])]
  }

  lemma BindTwo(vertex: Value, projection: Value)
    ensures Bind(["vert_in", "uniforms"], Arguments(vertex, projection)) == Start(vertex, projection)
  {
    var names, args := ["vert_in", "uniforms"], Arguments(vertex, projection);
    assert names[..1] == ["vert_in"] && args[..1] == [Val(vertex)];
    assert ["vert_in"][..0] == [] && [Val(vertex)][..0] == [];
    assert Bind(["vert_in"], [Val(vertex)]) == map["vert_in" := Val(vertex)];
  }

  lemma MemberIs(q: Lifted, g: Metal, limit: nat, env: Frame, e: M.Expr, r: Option<Value>, f: string)
    requires |q.bodies| == |q.params| == |q.names| == 2 && LEval(q, g, limit, 0, env, e) == AsArg(r)
    ensures LEval(q, g, limit, 0, env, M.Member(e, f)) == AsArg(Applied(g, "." + f, r))
  {
  }

  lemma PositionEvaluates(q: Lifted, g: Metal, limit: nat, env: Frame, vertex: Value, projection: Value)
    requires IsLifted(q)
    requires "vert_in" in env && env["vert_in"] == Val(vertex)
    requires "uniforms" in env && env["uniforms"] == Buffer(map["ViewProj" := projection])
    ensures LEval(q, g, limit, 0, env, LiftedProduct()) == AsArg(ProjectedValue(g, vertex, projection))
  {
    var v, one, u := M.Name("vert_in"), M.Literal("1.0"), M.Member(M.Name("uniforms"), "ViewProj");
    var pos := M.Member(v, "pos");
    var xyz := M.Member(pos, "xyz");
    assert LEval(q, g, limit, 0, env, v) == AsArg(Some(vertex));
    assert LEval(q, g, limit, 0, env, one) == AsArg(Some(g.literal("1.0")));
    assert LEval(q, g, limit, 0, env, M.Name("uniforms")) == Some(Buffer(map["ViewProj" := projection]));
    assert LEval(q, g, limit, 0, env, u) == AsArg(Some(projection));
    hide LEval, LiftedHelper;
    assert "." + "pos" == ".pos" && "." + "xyz" == ".xyz";
    var r := Applied(g, ".pos", Some(vertex));
    var s := Applied(g, ".xyz", r);
    MemberIs(q, g, limit, env, v, Some(vertex), "pos");
    MemberIs(q, g, limit, env, pos, r, "xyz");
    CallTwo(q, g, limit, 0, env, "float4", xyz, one, s, Some(g.literal("1.0")));
    var t := Applied2(g, "float4", s, Some(g.literal("1.0")));
    InfixOf(q, g, limit, 0, env, "*", LiftedPosition(), u, t, Some(projection));
  }

  lemma UvEvaluates(q: Lifted, g: Metal, limit: nat, env: Frame, vertex: Value)
    requires |q.bodies| == |q.params| == |q.names| == 2 && "vert_in" in env && env["vert_in"] == Val(vertex)
    ensures LValue(q, g, limit, 0, env, M.Member(M.Name("vert_in"), "uv")) == g.apply(".uv", [vertex])
  {
    assert LEval(q, g, limit, 0, env, M.Name("vert_in")) == AsArg(Some(vertex));
    MemberIs(q, g, limit, env, M.Name("vert_in"), Some(vertex), "uv");
    assert "." + "uv" == ".uv";
    ValueIs(q, g, limit, 0, env, M.Member(M.Name("vert_in"), "uv"), g.apply(".uv", [vertex]));
    hide LEval, LValue;
  }

  /** A step that is no branch, no loop and no return. */
  lemma ExecStep(q: Lifted, g: Metal, limit: nat, env: Frame, s: M.Stmt, ss: seq<M.Stmt>)
    requires |q.bodies| == |q.params| == |q.names| == 2 && (s.Let? || s.Declare? || s.Assign?)
    ensures var next := LAssigned(q, g, limit, 0, env, s);
      LExec(q, g, limit, 0, limit, env, [s] + ss)
      == if next.Some? then LExec(q, g, limit, 0, limit, next.value, ss) else Stuck
  {
    hide LAssigned;
    assert ([s] + ss)[1..] == ss;
  }

  lemma HelperExecutes(q: Lifted, g: Metal, limit: nat, vertex: Value, projection: Value)
    requires IsLifted(q)
    ensures var out := VertexValue(g, vertex, projection);
      LExec(q, g, limit, 0, limit, Start(vertex, projection), LiftedHelper())
      == if out.Some? then Returned(out.value) else Stuck
  {
    var env := Start(vertex, projection)["vert_out" := Val(g.initial("VertInOut_Out"))];
    var ss := LiftedHelper();
    var last := [M.Return(M.Name("vert_out"))];
    assert ss == [ss[0]] + ([ss[1]] + ([ss[2]] + last));
    assert LAssigned(q, g, limit, 0, Start(vertex, projection), ss[0]) == Some(env);
    hide LAssigned, LExec, VertexValue, ProjectedValue;
    ExecStep(q, g, limit, Start(vertex, projection), ss[0], [ss[1]] + ([ss[2]] + last));
    ExecStep(q, g, limit, env, ss[1], [ss[2]] + last);
    PositionAssigned(q, g, limit, env, vertex, projection);
    var output := LAssigned(q, g, limit, 0, env, ss[1]);
    if output.Some? {
      ExecStep(q, g, limit, output.value, ss[2], last);
      UvAssigned(q, g, limit, output.value, vertex);
      var next := LAssigned(q, g, limit, 0, output.value, ss[2]);
      if next.Some? {
        ReturnOutput(q, g, limit, next.value);
      }
    }
    VertexIs(g, vertex, projection);
  }

  lemma VertexIs(g: Metal, vertex: Value, projection: Value)
    ensures VertexValue(g, vertex, projection)
         == UvOf(g, vertex, PositionOf(g, g.initial("VertInOut_Out"), ProjectedValue(g, vertex, projection)))
  {
    hide ProjectedValue;
  }

  /** The two assignments, by what they make of the output. */
  function PositionOf(g: Metal, output: Value, projected: Option<Value>): Option<Value> {
    if projected.Some? then g.update(output, ["pos"], projected.value) else None
  }

  function UvOf(g: Metal, vertex: Value, output: Option<Value>): Option<Value> {
    var o :- output;
    var uv :- g.apply(".uv", [vertex]);
    g.update(o, ["uv"], uv)
  }

  ghost predicate Holds(env: Frame, vertex: Value, output: Value) {
    "vert_in" in env && env["vert_in"] == Val(vertex) && "vert_out" in env && env["vert_out"] == Val(output)
  }

  lemma PositionAssigned(q: Lifted, g: Metal, limit: nat, env: Frame, vertex: Value, projection: Value)
    requires IsLifted(q) && Holds(env, vertex, g.initial("VertInOut_Out"))
    requires "uniforms" in env && env["uniforms"] == Buffer(map["ViewProj" := projection])
    ensures var next := LAssigned(q, g, limit, 0, env, M.Assign("vert_out", ["pos"], "=", LiftedProduct()));
      var out := PositionOf(g, g.initial("VertInOut_Out"), ProjectedValue(g, vertex, projection));
      (next.Some? <==> out.Some?) && (out.Some? ==> Holds(next.value, vertex, out.value))
  {
    PositionEvaluates(q, g, limit, env, vertex, projection);
    ValueIs(q, g, limit, 0, env, LiftedProduct(), ProjectedValue(g, vertex, projection));
    hide LValue, LEval, LiftedProduct, ProjectedValue;
  }

  lemma UvAssigned(q: Lifted, g: Metal, limit: nat, env: Frame, vertex: Value)
    requires |q.bodies| == |q.params| == |q.names| == 2 && "vert_out" in env && env["vert_out"].Val?
    requires Holds(env, vertex, env["vert_out"].value)
    ensures var next := LAssigned(q, g, limit, 0, env,
                                  M.Assign("vert_out", ["uv"], "=", M.Member(M.Name("vert_in"), "uv")));
      var out := UvOf(g, vertex, Some(env["vert_out"].value));
      (next.Some? <==> out.Some?) && (out.Some? ==> Holds(next.value, vertex, out.value))
  {
    UvEvaluates(q, g, limit, env, vertex);
    hide LValue;
  }

  lemma ReturnOutput(q: Lifted, g: Metal, limit: nat, env: Frame)
    requires |q.bodies| == |q.params| == |q.names| == 2 && "vert_out" in env && env["vert_out"].Val?
    ensures LExec(q, g, limit, 0, limit, env, [M.Return(M.Name("vert_out"))]) == Returned(env["vert_out"].value)
  {
    assert LEval(q, g, limit, 0, env, M.Name("vert_out")) == Some(env["vert_out"]);
  }

  lemma HelperRuns(q: Lifted, g: Metal, limit: nat, vertex: Value, projection: Value)
    requires IsLifted(q)
    ensures LRun(q, g, limit, 0, Arguments(vertex, projection)) == VertexValue(g, vertex, projection)
  {
    BindTwo(vertex, projection);
    HelperExecutes(q, g, limit, vertex, projection);
    hide LExec, VertexValue, LiftedHelper, Bind;
  }

  lemma MainRuns(q: Lifted, g: Metal, limit: nat, vertex: Value, projection: Value)
    requires IsLifted(q)
    ensures LRun(q, g, limit, 1, Arguments(vertex, projection)) == VertexValue(g, vertex, projection)
  {
    var env, call := Start(vertex, projection), M.Call("VSDefault", [M.Name("vert_in"), M.Name("uniforms")]);
    HelperRuns(q, g, limit, vertex, projection);
    BindTwo(vertex, projection);
    hide VertexValue, LiftedHelper, Bind, LRun;
    assert LEval(q, g, limit, 1, env, M.Name("vert_in")) == Some(Val(vertex));
    assert LEval(q, g, limit, 1, env, M.Name("uniforms")) == Some(Buffer(map["ViewProj" := projection]));
    PairOf(q, g, limit, 1, env, M.Name("vert_in"), M.Name("uniforms"));
    assert LEval(q, g, limit, 1, env, call) == AsArg(VertexValue(g, vertex, projection)) by { hide LEvalArgs; }
    ValueIs(q, g, limit, 1, env, call, VertexValue(g, vertex, projection));
    hide LEval, LValue, LExec;
    MainReturns(q, g, limit, vertex, projection);
  }

  lemma MainReturns(q: Lifted, g: Metal, limit: nat, vertex: Value, projection: Value)
    requires IsLifted(q)
    ensures LRun(q, g, limit, 1, Arguments(vertex, projection))
         == LValue(q, g, limit, 1, Start(vertex, projection), q.bodies[1][0].value)
  {
    BindTwo(vertex, projection);
    hide LValue, Bind, LiftedHelper;
  }

  lemma ExampleIsLifted()
    ensures IsLifted(LiftProgram(Example()))
  {
    hide *;
    Shape();
    LiftedExample();
    NamesAre(Example());
    LiftedHere(LiftProgram(Example()));
  }

  lemma NamesAre(p: Program)
    requires |p.bodies| == |p.shader.funcs| == 2
    requires p.shader.funcs[0].name == "VSDefault" && p.shader.funcs[1].name == "main"
    ensures LiftProgram(p).names == ["VSDefault", "main"]
  {
  }

  lemma LiftedHere(q: Lifted)
    requires |q.names| == |q.params| == |q.bodies| && q.names == ["VSDefault", "main"]
    requires q.params[0] == q.params[1] == ["vert_in", "uniforms"] && q.bodies[0] == LiftedHelper()
    requires q.bodies[1] == [M.Return(M.Call("VSDefault", [M.Name("vert_in"), M.Name("uniforms")]))]
    ensures IsLifted(q)
  {
    assert "float4" != "VSDefault" && "float4" != "main";
    assert IndexOf(["VSDefault", "main"][1..][1..], "float4") == 0;
    hide LiftedHelper;
  }

  lemma ArgumentsAre(vertex: Value, projection: Value)
    ensures Vals([vertex]) + GlobalArgs(World(projection), ["uniforms"]) == Arguments(vertex, projection)
  {
    assert GlobalArg(World(projection), "uniforms") == Buffer(map["ViewProj" := projection]);
    hide GlobalArg;
  }

  /** The emitted program computes this, whatever Metal's operations are, and so does the program itself when the effect
      language is the one that Metal realises. */
  lemma ExampleRuns(g: Metal, limit: nat, vertex: Value, projection: Value)
    ensures |Example().bodies| == |Example().shader.funcs| == 2
    ensures LRun(LiftProgram(Example()), g, limit, 1, Arguments(vertex, projection))
         == VertexValue(g, vertex, projection)
    ensures Run(Example(), Induced(Example().shader, g), World(projection), limit, 1, [vertex])
         == VertexValue(g, vertex, projection)
  {
    hide *;
    Shape();
    ExampleIsLifted();
    MainRuns(LiftProgram(Example()), g, limit, vertex, projection);
    ExampleSetting(projection, 1);
    ExtrasAre(1);
    ArgumentsAre(vertex, projection);
    RunSame(Example(), g, World(projection), limit, 1, [vertex]);
  }
}
