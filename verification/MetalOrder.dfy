/** Where the order of first uses matters: a helper gets the globals it asks for exactly when they are in order. */
module MetalOrder {
  import opened MetalTranspiler
  import opened MetalAnalysis
  import opened MetalSignatures
  import opened MetalScoping
  import opened MetalSyntax
  import opened MetalRendering
  import opened MetalMachines
  import opened MetalMeaning

  /** Different globals are different things. */
  ghost predicate Apart(w: Globals) {
    && (forall a, b :: a in w.textures && b in w.textures && w.textures[a] == w.textures[b] ==> a == b)
    && (forall a, b :: a in w.samplers && b in w.samplers && w.samplers[a] == w.samplers[b] ==> a == b)
  }

  lemma {:induction false} BindAt<T>(names: seq<string>, args: seq<T>, k: nat)
    requires |names| == |args| && Distinct(names) && k < |names|
    ensures names[k] in Bind(names, args) && Bind(names, args)[names[k]] == args[k]
  {
    var n := |names| - 1;
    if k < n {
      BindAt(names[..n], args[..n], k);
    }
  }

  /** The frame a helper runs in binds each extra parameter to the global of that name exactly when the arguments
      come in the order of the signature. */
  lemma FrameIsRight(w: Globals, locals: seq<string>, vs: seq<Value>, params: seq<string>, args: seq<string>)
    requires |locals| == |vs| && |params| == |args| && Distinct(locals + params)
    requires forall g, h :: g in args && h in params && GlobalArg(w, g) == GlobalArg(w, h) ==> g == h
    ensures Bind(locals + params, Vals(vs) + GlobalArgs(w, args)) == FrameOf(Bind(locals, vs), w, params)
       <==> args == params
  {
    var names, all := locals + params, Vals(vs) + GlobalArgs(w, args);
    BindExtras(locals, vs, w, params);
    if Bind(names, all) == FrameOf(Bind(locals, vs), w, params) {
      forall k | 0 <= k < |args|
        ensures args[k] == params[k]
      {
        BindAt(names, all, |locals| + k);
        FrameLookup(Bind(locals, vs), w, params, params[k]);
        assert names[|locals| + k] == params[k] && all[|locals| + k] == GlobalArg(w, args[k]);
        assert args[k] in args && params[k] in params;
      }
    }
  }

  lemma PartsEqual(a: seq<string>, b: seq<string>, c: seq<string>, a': seq<string>, b': seq<string>, c': seq<string>)
    requires |a| == |a'| && |b| == |b'| && |c| == |c'|
    ensures a + b + c == a' + b' + c' <==> a == a' && b == b' && c == c'
  {
    var all, all' := a + b + c, a' + b' + c';
    assert all[..|a|] == a && all[|a|..|a| + |b|] == b && all[|a| + |b|..] == c;
    assert all'[..|a|] == a' && all'[|a|..|a| + |b|] == b' && all'[|a| + |b|..] == c';
  }

  /** The arguments a helper is passed and its extra parameters are the same names; the same lists, if in order. */
  lemma ArgumentsAgainstExtras(sh: Shader, j: nat)
    requires WellFormed(sh) && j < |sh.funcs| && sh.funcs[j].name != "main"
    ensures |FinalData(sh, j).AdditionalArguments()| == |Extras(sh, j)|
    ensures forall g :: g in FinalData(sh, j).AdditionalArguments() <==> g in Extras(sh, j)
    ensures FinalData(sh, j).AdditionalArguments() == Extras(sh, j)
       <==> forall kind :: FirstUsesInOrder(Declared(sh, kind), Uses(sh, j, kind))
  {
    hide WellFormed, FinalData, FirstUsesInOrder, Declared, Uses, ExtraParameters;
    var fd := FinalData(sh, j);
    SamePart(sh, j, Uniforms);
    SamePart(sh, j, Textures);
    SamePart(sh, j, Samplers);
    PartsEqual(fd.Needs(Uniforms), fd.Needs(Textures), fd.Needs(Samplers), ExtraParameters(sh, fd, false, Uniforms),
               ExtraParameters(sh, fd, false, Textures), ExtraParameters(sh, fd, false, Samplers));
    if fd.AdditionalArguments() == Extras(sh, j) {
      forall kind: Kind
        ensures FirstUsesInOrder(Declared(sh, kind), Uses(sh, j, kind))
      {
        match kind case Uniforms => case Textures => case Samplers =>
      }
    }
  }

  lemma SamePart(sh: Shader, j: nat, kind: Kind)
    requires WellFormed(sh) && j < |sh.funcs|
    ensures var args, params := FinalData(sh, j).Needs(kind), ExtraParameters(sh, FinalData(sh, j), false, kind);
            |args| == |params| && (forall g :: g in args <==> g in params)
            && (args == params <==> FirstUsesInOrder(Declared(sh, kind), Uses(sh, j, kind)))
  {
    hide WellFormed, FinalData, FirstUsesInOrder, Declared, Uses, ExtraParameters;
    CallPassesSignature(sh, j, kind);
    CallMatchesSignature(sh, j, kind);
    var args, params := FinalData(sh, j).Needs(kind), ExtraParameters(sh, FinalData(sh, j), false, kind);
    assert |multiset(args)| == |args| && |multiset(params)| == |params|;
    assert forall g :: g in args <==> g in multiset(args);
    assert forall g :: g in params <==> g in multiset(params);
  }

  lemma DistinctJoin(a: seq<string>, b: seq<string>)
    requires Distinct(a) && Distinct(b) && forall x :: x in a ==> x !in b
    ensures Distinct(a + b)
  {
    forall i, j | 0 <= i < j < |a + b|
      ensures (a + b)[i] != (a + b)[j]
    {
      if i < |a| <= j {
        assert a[i] in a && b[j - |a|] in b;
      }
    }
  }

  lemma SignatureDistinct(p: Program, j: nat)
    requires Proper(p) && j < |p.bodies| && p.shader.funcs[j].name != "main" && Distinct(p.shader.funcs[j].params)
    ensures Distinct(p.shader.funcs[j].params + Extras(p.shader, j))
  {
    hide FinalData, Distinct, Uses, ExtraParameters, UniformNames, TextureNames, FirstUsesInOrder, PlainName;
    KindsAreDisjoint(p, "");
    var sh, fd := p.shader, FinalData(p.shader, j);
    var u, t, s := ExtraParameters(sh, fd, false, Uniforms), ExtraParameters(sh, fd, false, Textures),
                   ExtraParameters(sh, fd, false, Samplers);
    CallPassesSignature(sh, j, Uniforms);
    CallPassesSignature(sh, j, Textures);
    CallPassesSignature(sh, j, Samplers);
    forall x
      ensures x in u ==> x !in t && x !in s
      ensures x in t ==> x !in s
    {
      KindsAreDisjoint(p, x);
      ExtraIsDeclared(sh, j, Uniforms, x);
      ExtraIsDeclared(sh, j, Textures, x);
      ExtraIsDeclared(sh, j, Samplers, x);
    }
    DistinctJoin(u, t);
    DistinctJoin(u + t, s);
    forall x | x in sh.funcs[j].params
      ensures x !in Extras(sh, j)
    {
      LocalIsNoExtra(sh, j, x);
    }
    DistinctJoin(sh.funcs[j].params, u + t + s);
  }

  /** A helper gets the globals it asks for, whatever they are, exactly when its first uses are in order. */
  lemma HelperGetsItsGlobals(p: Program, w: Globals, j: nat, vs: seq<Value>)
    requires Proper(p) && Fits(p.shader, w) && Apart(w)
    requires j < |p.bodies| && p.shader.funcs[j].name != "main"
    requires Distinct(p.shader.funcs[j].params) && |vs| == |p.shader.funcs[j].params|
    ensures |FinalData(p.shader, j).AdditionalArguments()| == |Extras(p.shader, j)|
    ensures Bind(Signature(p.shader, FinalData(p.shader, j), p.shader.funcs[j]),
                 Vals(vs) + GlobalArgs(w, FinalData(p.shader, j).AdditionalArguments()))
         == FrameOf(Bind(p.shader.funcs[j].params, vs), w, Extras(p.shader, j))
       <==> forall kind :: FirstUsesInOrder(Declared(p.shader, kind), Uses(p.shader, j, kind))
  {
    var sh, fd := p.shader, FinalData(p.shader, j);
    KindsAreDisjoint(p, "uniforms");
    SignatureDistinct(p, j);
    hide Bind, FrameOf, Distinct, Apart, Proper, WellFormed, FinalData, Uses, Extras, Signature, Vals, GlobalArgs,
         GlobalArg, UniformNames, TextureNames, FirstUsesInOrder, Declared;
    ArgumentsAgainstExtras(sh, j);
    SignatureEndsWithExtras(sh, j);
    forall g, h | g in fd.AdditionalArguments() && h in Extras(sh, j) && GlobalArg(w, g) == GlobalArg(w, h)
      ensures g == h
    {
      ExtrasApart(sh, w, j, g, h);
    }
    FrameIsRight(w, sh.funcs[j].params, vs, Extras(sh, j), fd.AdditionalArguments());
  }

  lemma ExtrasApart(sh: Shader, w: Globals, j: nat, g: string, h: string)
    requires Fits(sh, w) && Apart(w) && j < |sh.funcs|
    requires g in Extras(sh, j) && h in Extras(sh, j) && GlobalArg(w, g) == GlobalArg(w, h)
    ensures g == h
  {
    hide FinalData, ExtraParameters;
    ExtraIsDeclared(sh, j, Uniforms, g);
    ExtraIsDeclared(sh, j, Textures, g);
    ExtraIsDeclared(sh, j, Samplers, g);
    ExtraIsDeclared(sh, j, Uniforms, h);
    ExtraIsDeclared(sh, j, Textures, h);
    ExtraIsDeclared(sh, j, Samplers, h);
  }

  // ---------------------------------------------------------------------------------------------------------
  // A shape of source text that comes out wrong

  /** Appending to an argument list leaves a comma in front of it exactly when a helper with needs takes no argument. */
  lemma AppendedToNothing(data: Analysis, f: string, args: seq<Piece>)
    requires f != "int3" && (args == [] || args[0] != Text(","))
    ensures CallArguments(data, f, args).Ok?
    ensures CallArguments(data, f, args).value != [] && CallArguments(data, f, args).value[0] == Text(",")
       <==> args == [] && DataOf(data, f).AdditionalArguments() != []
  {
    NoExtraArgs(DataOf(data, f).AdditionalArguments());
  }
}
