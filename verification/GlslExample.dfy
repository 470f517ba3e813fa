/** Two expressions that the theorem about values applies to, in the languages of `GlslLanguages`. */
module GlslExample {
  import opened ShaderTokens
  import opened GlslWriter
  import opened GlslPieces
  import opened GlslMeaning
  import opened GlslValues
  import opened GlslLanguages

  const ENV := Env([Param("image", "texture2d"), Param("ViewProj", "float4x4")], ["def_sampler"])

  /** `image.Load(int3(pos, 0.0))` */
  const LOAD := [Other("."), Name("Load"), OPEN]
  const LOADED := Sampled("image", LOAD, [Call("int3", [Atom(Name("pos")), Atom(Number("0.0"))])])

  /** `mul(ViewProj, saturate(lerp(pos, 1.0, frac(t))))` */
  const MIXED := Call("lerp", [Atom(Name("pos")), Atom(Number("1.0")), Call("frac", [Atom(Name("t"))])])
  const PROJECTED := MulCall(Atom(Name("ViewProj")), SaturateCall(MIXED))

  lemma EnvIs()
    ensures NoSamplerTypes(ENV.params)
    ensures TypeOf(ENV.params, "image") == "texture2d" && TypeOf(ENV.params, "ViewProj") == "float4x4"
    ensures TypeOf(ENV.params, "pos") == TypeOf(ENV.params, "t") == ""
  {
    assert ENV.params[1..] == [Param("ViewProj", "float4x4")] && ENV.params[1..][1..] == [];
  }

  lemma NamesAreOwn()
    ensures Spelled("pos") == "pos" && Spelled("t") == "t" && Spelled("ViewProj") == "ViewProj"
    ensures "int3" !in UNLIKE && "lerp" !in UNLIKE && "frac" !in UNLIKE
  {
  }

  lemma LeadIsProper(bound: map<string, nat>)
    ensures BoundTo(ENV, bound, "image", LOAD) && Method(LOAD) == "Load" && Sampler(LOAD) == ""
  {
    EnvIs();
    assert LOAD[1..] == [Name("Load"), OPEN] && LOAD[1..][1..] == [OPEN] && LOAD[1..][1..][1..] == [];
    assert Squeezed(LOAD[1..][1..]) == [OPEN];
    assert Squeezed(LOAD[1..]) == [Name("Load")] + [OPEN];
    assert Squeezed(LOAD) == [Other(".")] + ([Name("Load")] + [OPEN]);
    assert FunctionOf("texture2d", "Load") == TextureFunction("obs_load_2d", false);
    hide FunctionOf, TypeOf;
  }

  lemma OnePortable<V>(h: Machine<V>, bound: map<string, nat>, e: Expr)
    requires Portable(h, ENV, bound, UNLIKE, e)
    ensures AllPortable(h, ENV, bound, UNLIKE, [e])
  {
    assert [e][1..] == [];
  }

  lemma TwoPortable<V>(h: Machine<V>, bound: map<string, nat>, e: Expr, es: seq<Expr>)
    requires Portable(h, ENV, bound, UNLIKE, e) && AllPortable(h, ENV, bound, UNLIKE, es)
    ensures AllPortable(h, ENV, bound, UNLIKE, [e] + es)
  {
    assert ([e] + es)[1..] == es;
  }

  lemma EvalTwo<V>(m: Machine<V>, a: Expr, b: Expr)
    ensures EvalAll(m, [a, b]) == [Eval(m, a), Eval(m, b)]
  {
    assert [a, b][1..] == [b] && [b][1..] == [];
    assert EvalAll(m, [b]) == [Eval(m, b)];
  }

  lemma EvalOne<V>(m: Machine<V>, a: Expr)
    ensures EvalAll(m, [a]) == [Eval(m, a)]
  {
    assert [a][1..] == [];
  }

  lemma CoordinateIs(p: Primitives, bound: map<string, nat>, x: real, y: real)
    requires p.variable(Name("pos")) == Vector([x, y])
    ensures var h := Effect(p, ENV, bound);
      Eval(h, LOADED.args[0]) == Vector([p.toInt(x), p.toInt(y), p.toInt(0.0)])
  {
    var h, a, b := Effect(p, ENV, bound), Atom(Name("pos")), Atom(Number("0.0"));
    EnvIs();
    assert Eval(h, a) == Vector([x, y]) && Eval(h, b) == Vector([0.0]);
    EvalTwo(h, a, b);
    CoordinateBuilt(p, x, y);
    assert EffectMeaning("int3") == Ints(3);
    hide EvalAll, EffectAtom, Built, EffectMeaning;
  }

  lemma CoordinateBuilt(p: Primitives, x: real, y: real)
    ensures Built(p.toInt, 3, [Vector([x, y]), Vector([0.0])]) == Vector([p.toInt(x), p.toInt(y), p.toInt(0.0)])
  {
    var args := [Vector([x, y]), Vector([0.0])];
    assert args[1..] == [Vector([0.0])] && args[1..][1..] == [];
    assert Components(args[1..]) == [0.0];
    assert Components(args) == [x, y, 0.0];
  }

  /** The written call reads the texel at the position, whatever the machine has. */
  lemma LoadIsPortable(p: Primitives, bound: map<string, nat>, x: real, y: real)
    requires p.variable(Name("pos")) == Vector([x, y])
    ensures var h, g := Effect(p, ENV, bound), Gl(p, ENV, bound);
      && Agree(h, g, ENV, bound, UNLIKE) && Portable(h, ENV, bound, UNLIKE, LOADED)
      && Translate(ENV, LOADED)
         == Call("obs_load_2d", [Atom(Name("image")),
                                 Call("ivec3", [Atom(Name("pos")), Atom(Number("0.0"))])])
      && Eval(g, Translate(ENV, LOADED)) == p.texel("image", [p.toInt(x), p.toInt(y)], p.toInt(0.0))
  {
    var h, g := Effect(p, ENV, bound), Gl(p, ENV, bound);
    hide *;
    EnvIs();
    LanguagesAgree(p, ENV, bound);
    LoadPortable(h, bound);
    LoadTranslated();
    LoadValue(p, bound, x, y);
    TranslationKeepsValue(h, g, ENV, bound, UNLIKE, LOADED);
  }

  lemma LoadPortable<V>(h: Machine<V>, bound: map<string, nat>)
    ensures Portable(h, ENV, bound, UNLIKE, LOADED)
  {
    var a, b := Atom(Name("pos")), Atom(Number("0.0"));
    NamesAreOwn();
    LeadIsProper(bound);
    hide BoundTo, Spelled, UNLIKE;
    assert Portable(h, ENV, bound, UNLIKE, a) && Portable(h, ENV, bound, UNLIKE, b);
    OnePortable(h, bound, b);
    TwoPortable(h, bound, a, [b]);
    assert [a] + [b] == [a, b];
    OnePortable(h, bound, Call("int3", [a, b]));
  }

  lemma LoadTranslated()
    ensures Translate(ENV, LOADED)
         == Call("obs_load_2d", [Atom(Name("image")), Call("ivec3", [Atom(Name("pos")), Atom(Number("0.0"))])])
  {
    var a, b := Atom(Name("pos")), Atom(Number("0.0"));
    var coordinate := Call("int3", [a, b]);
    EnvIs();
    NamesAreOwn();
    LeadIsProper(map[]);
    assert CallOf(ENV, "image", LOAD) == "obs_load_2d" && Spelled("int3") == "ivec3";
    hide CallOf, Spelled;
    assert Translate(ENV, a) == a && Translate(ENV, b) == b;
    assert [a, b][1..] == [b] && [b][1..] == [] && [coordinate][1..] == [];
    assert TranslateAll(ENV, [b]) == [b];
    assert TranslateAll(ENV, [a, b]) == [a] + [b];
    assert Translate(ENV, coordinate) == Call("ivec3", [a, b]);
    assert TranslateAll(ENV, [coordinate]) == [Call("ivec3", [a, b])];
  }

  lemma LoadValue(p: Primitives, bound: map<string, nat>, x: real, y: real)
    requires p.variable(Name("pos")) == Vector([x, y])
    ensures Eval(Effect(p, ENV, bound), LOADED) == p.texel("image", [p.toInt(x), p.toInt(y)], p.toInt(0.0))
  {
    var h := Effect(p, ENV, bound);
    EnvIs();
    LeadIsProper(bound);
    CoordinateIs(p, bound, x, y);
    EvalOne(h, LOADED.args[0]);
    assert EffectAtom(p, ENV, Name("image")) == Handle("image", Flat);
    var at := [p.toInt(x), p.toInt(y), p.toInt(0.0)];
    assert at[..2] == [p.toInt(x), p.toInt(y)];
    hide EvalAll, EffectAtom, Method, Sampler, BoundTo;
  }

  /** The written product is that of the matrix and what is mixed and clamped, whatever the machine has. */
  lemma ExampleIsPortable(p: Primitives, bound: map<string, nat>, columns: seq<seq<real>>, pos: seq<real>, t: real)
    requires p.variable(Name("ViewProj")) == Matrix(columns) && p.variable(Name("pos")) == Vector(pos)
    requires p.variable(Name("t")) == Vector([t])
    ensures var h, g := Effect(p, ENV, bound), Gl(p, ENV, bound);
      && Agree(h, g, ENV, bound, UNLIKE) && Portable(h, ENV, bound, UNLIKE, PROJECTED)
      && var mixed := Blend(Vector(pos), Vector([1.0]), Vector([t - t.Floor as real]));
      Eval(g, Translate(ENV, PROJECTED))
      == Linear(Matrix(columns), Between(mixed, Vector([0.0]), Vector([1.0])))
  {
    var h, g := Effect(p, ENV, bound), Gl(p, ENV, bound);
    hide *;
    EnvIs();
    LanguagesAgree(p, ENV, bound);
    ValuesAre(p, bound, columns, pos, t);
    ProductPortable(h, bound);
    TranslationKeepsValue(h, g, ENV, bound, UNLIKE, PROJECTED);
  }

  lemma ValuesAre(p: Primitives, bound: map<string, nat>, columns: seq<seq<real>>, pos: seq<real>, t: real)
    requires p.variable(Name("ViewProj")) == Matrix(columns) && p.variable(Name("pos")) == Vector(pos)
    requires p.variable(Name("t")) == Vector([t])
    ensures var h := Effect(p, ENV, bound);
      && h.matrix(Eval(h, Atom(Name("ViewProj"))))
      && var mixed := Blend(Vector(pos), Vector([1.0]), Vector([t - t.Floor as real]));
      Eval(h, PROJECTED) == Linear(Matrix(columns), Between(mixed, Vector([0.0]), Vector([1.0])))
  {
    var h := Effect(p, ENV, bound);
    var mixed := Blend(Vector(pos), Vector([1.0]), Vector([t - t.Floor as real]));
    hide *;
    AtomsAre(p, bound, columns, pos, t);
    MixedIs(p, bound, pos, t);
    ProductIs(p, bound, columns, mixed);
  }

  lemma AtomsAre(p: Primitives, bound: map<string, nat>, columns: seq<seq<real>>, pos: seq<real>, t: real)
    requires p.variable(Name("ViewProj")) == Matrix(columns) && p.variable(Name("pos")) == Vector(pos)
    requires p.variable(Name("t")) == Vector([t])
    ensures var h := Effect(p, ENV, bound);
      && Eval(h, Atom(Name("pos"))) == Vector(pos) && Eval(h, Atom(Number("1.0"))) == Vector([1.0])
      && Eval(h, Atom(Name("t"))) == Vector([t]) && Eval(h, Atom(Name("ViewProj"))) == Matrix(columns)
      && h.matrix(Eval(h, Atom(Name("ViewProj"))))
  {
    EnvIs();
    assert "0.0"[0] != "1.0"[0];
  }

  lemma MixedIs(p: Primitives, bound: map<string, nat>, pos: seq<real>, t: real)
    requires var h := Effect(p, ENV, bound);
      && Eval(h, Atom(Name("pos"))) == Vector(pos) && Eval(h, Atom(Number("1.0"))) == Vector([1.0])
      && Eval(h, Atom(Name("t"))) == Vector([t])
    ensures Eval(Effect(p, ENV, bound), MIXED) == Blend(Vector(pos), Vector([1.0]), Vector([t - t.Floor as real]))
  {
    var h, x := Effect(p, ENV, bound), Atom(Name("t"));
    hide EffectAtom, Blend, EvalAll, Each;
    EvalOne(h, x);
    FractionOf(t);
    assert EffectMeaning("frac") == Fraction && EffectMeaning("lerp") == Mixed;
    assert Eval(h, Call("frac", [x])) == Vector([t - t.Floor as real]);
    EvalThree(h, Atom(Name("pos")), Atom(Number("1.0")), Call("frac", [x]));
  }

  lemma ProductIs(p: Primitives, bound: map<string, nat>, columns: seq<seq<real>>, mixed: Datum)
    requires var h := Effect(p, ENV, bound);
      Eval(h, MIXED) == mixed && Eval(h, Atom(Name("ViewProj"))) == Matrix(columns)
    ensures Eval(Effect(p, ENV, bound), PROJECTED)
         == Linear(Matrix(columns), Between(mixed, Vector([0.0]), Vector([1.0])))
  {
    hide EffectAtom, Linear, Between, MIXED;
  }

  lemma FractionOf(t: real)
    ensures Each((x: real) => x - x.Floor as real, Vector([t])) == Vector([t - t.Floor as real])
  {
  }

  lemma ProductPortable<V>(h: Machine<V>, bound: map<string, nat>)
    requires h.matrix(Eval(h, Atom(Name("ViewProj"))))
    ensures Portable(h, ENV, bound, UNLIKE, PROJECTED)
  {
    var a, b, x := Atom(Name("pos")), Atom(Number("1.0")), Atom(Name("t"));
    var fraction := Call("frac", [x]);
    NamesAreOwn();
    hide Spelled, UNLIKE, Eval;
    OnePortable(h, bound, x);
    assert Portable(h, ENV, bound, UNLIKE, fraction);
    OnePortable(h, bound, fraction);
    TwoPortable(h, bound, b, [fraction]);
    TwoPortable(h, bound, a, [b] + [fraction]);
    assert [a] + ([b] + [fraction]) == MIXED.args;
    assert Portable(h, ENV, bound, UNLIKE, MIXED);
    assert Portable(h, ENV, bound, UNLIKE, SaturateCall(MIXED));
    assert Portable(h, ENV, bound, UNLIKE, Atom(Name("ViewProj")));
  }
}
