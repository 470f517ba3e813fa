/** Every uniform, texture and sampler that an emitted function body refers to, and every extra argument it passes on,
    is a parameter of that function. Comparisons that are printed from raw tokens are treated in `MetalComparisons`. */
module MetalScoping {
  import opened ShaderTokens
  import opened MetalTranspiler
  import opened MetalAnalysis
  import opened MetalSignatures
  import opened MetalBodies

  /** Where the globals of an emitted piece come from: a name among the tokens `ctx`, or the call of one. The text
      of a comparison is not followed: there the source copies a token without looking at it. */
  ghost predicate Sourced(sh: Shader, data: Analysis, ctx: set<Token>, p: Piece) {
    match p
    case UniformRef(n) => n in UniformNames(sh) && Name(n) in ctx
    case TextureRef(n) => n in TextureNames(sh) && Name(n) in ctx
    case Copied(n) => Name(n) in ctx
    case ExtraArg(a) => exists t :: InContext(t, ctx) && a in DataOf(data, t.text).AdditionalArguments()
    case _ => true
  }

  ghost predicate InContext(t: Token, ctx: set<Token>) {
    t == NONE || t in ctx
  }

  ghost predicate AllSourced(sh: Shader, data: Analysis, ctx: set<Token>, ps: seq<Piece>) {
    forall p :: p in ps ==> Sourced(sh, data, ctx, p)
  }

  /** All tokens of `ts` but the last `left` ones are in `ctx`. */
  ghost predicate Covered(ts: seq<Token>, left: nat, ctx: set<Token>) {
    forall k :: 0 <= k < |ts| - left ==> ts[k] in ctx
  }

  lemma CoveredSuffix(rest: seq<Token>, ts: seq<Token>, left: nat, ctx: set<Token>)
    requires Suffix(rest, ts) && Covered(ts, left, ctx)
    ensures Covered(rest, left, ctx)
  {
    forall k | 0 <= k < |rest| - left
      ensures rest[k] in ctx
    {
      assert rest[k] == ts[|ts| - |rest| + k];
    }
  }

  lemma {:induction false} ExtraArgsSourced(sh: Shader, data: Analysis, ctx: set<Token>, t: Token, names: seq<string>)
    requires InContext(t, ctx) && forall a :: a in names ==> a in DataOf(data, t.text).AdditionalArguments()
    ensures AllSourced(sh, data, ctx, ExtraArgs(names))
  {
    if names != [] {
      assert names[0] in names;
      ExtraArgsSourced(sh, data, ctx, t, names[1..]);
    }
  }

  lemma {:induction false} SplitSourced(sh: Shader, data: Analysis, ctx: set<Token>, ps: seq<Piece>, cuts: nat,
                                        part: seq<Piece>)
    requires AllSourced(sh, data, ctx, ps) && AllSourced(sh, data, ctx, part)
    ensures forall i :: 0 <= i < |Split(ps, cuts, part)| ==> AllSourced(sh, data, ctx, Split(ps, cuts, part)[i])
    decreases |ps|
  {
    if ps != [] {
      if ps[0] == Text(",") && cuts > 0 {
        SplitSourced(sh, data, ctx, ps[1..], if part == [] then cuts else cuts - 1, []);
      } else {
        SplitSourced(sh, data, ctx, ps[1..], cuts, part + [ps[0]]);
      }
    }
  }

  lemma IntArgumentsSourced(sh: Shader, data: Analysis, ctx: set<Token>, ps: seq<Piece>)
    requires AllSourced(sh, data, ctx, ps)
    ensures IntArguments(ps).Ok? ==> AllSourced(sh, data, ctx, IntArguments(ps).value)
  {
    SplitSourced(sh, data, ctx, ps, 3, []);
  }

  lemma ReadCallSourced(sh: Shader, data: Analysis, ctx: set<Token>, ps: seq<Piece>)
    requires AllSourced(sh, data, ctx, ps)
    ensures ReadCall(ps).Ok? ==> AllSourced(sh, data, ctx, ReadCall(ps).value)
  {
    if |ps| >= 3 {
      SplitSourced(sh, data, ctx, ps[2..|ps| - 1], 3, []);
    }
  }

  /** The claim of this module about one walk from behind `prev` over `ts`: if it leaves at least `left` tokens,
      everything it emits comes from the tokens in `ctx`. */
  ghost predicate Claim(sh: Shader, data: Analysis, ts: seq<Token>, r: Result<Chunk>, left: nat, ctx: set<Token>) {
    r.Ok? ==>
      && Suffix(r.value.rest, ts)
      && (|r.value.rest| >= left ==> InContext(r.value.last, ctx) && AllSourced(sh, data, ctx, r.value.out))
  }

  /** The claim for a walk that goes on where another one stopped. */
  lemma {:induction false} Continue(sh: Shader, data: Analysis, last: Token, rest: seq<Token>, ts: seq<Token>,
                                    end: string, left: nat, ctx: set<Token>)
    requires Suffix(rest, ts) && Covered(ts, left, ctx)
    requires |rest| >= left ==> InContext(last, ctx)
    ensures Claim(sh, data, ts, Transpile(sh, data, last, rest, end), left, ctx)
    decreases |rest|, 4
  {
    if |rest| >= left {
      CoveredSuffix(rest, ts, left, ctx);
      TranspileScoped(sh, data, last, rest, end, left, ctx);
    } else {
      TranspileScoped(sh, data, last, rest, end, |rest|, {last});
    }
    var r := Transpile(sh, data, last, rest, end);
    if r.Ok? {
      SuffixTransitive(r.value.rest, rest, ts);
    }
  }

  lemma {:induction false} TranspileScoped(sh: Shader, data: Analysis, prev: Token, ts: seq<Token>, end: string,
                                           left: nat, ctx: set<Token>)
    requires InContext(prev, ctx) && Covered(ts, left, ctx)
    ensures Claim(sh, data, ts, Transpile(sh, data, prev, ts, end), left, ctx)
    decreases |ts|, 3
  {
    if ts != [] && ts[0].text != end {
      StepScoped(sh, data, prev, ts, left, ctx);
      var step := Step(sh, data, prev, ts);
      if step.Ok? {
        Continue(sh, data, step.value.last, step.value.rest, ts, end, left, ctx);
      }
    }
  }

  lemma {:induction false} StepScoped(sh: Shader, data: Analysis, prev: Token, ts: seq<Token>, left: nat,
                                      ctx: set<Token>)
    requires ts != [] && InContext(prev, ctx) && Covered(ts, left, ctx)
    ensures Claim(sh, data, ts, Step(sh, data, prev, ts), left, ctx)
    decreases |ts|, 2
  {
    hide Transpile, StepName, CallArguments;
    var t := ts[0];
    if t.Name? {
      StepNameScoped(sh, data, prev, ts, left, ctx);
    } else if t == Other("{") {
      Continue(sh, data, t, ts[1..], ts, "}", left, ctx);
    } else if t == Other("(") {
      Continue(sh, data, t, ts[1..], ts, ")", left, ctx);
      var inner := Transpile(sh, data, t, ts[1..], ")");
      if inner.Ok? && |inner.value.rest| >= left {
        CallArgumentsSourced(sh, data, ctx, prev, inner.value.out);
      }
    }
  }

  lemma CallArgumentsSourced(sh: Shader, data: Analysis, ctx: set<Token>, callee: Token, ps: seq<Piece>)
    requires InContext(callee, ctx) && AllSourced(sh, data, ctx, ps)
    ensures var r := CallArguments(data, callee.text, ps);
            r.Ok? ==> AllSourced(sh, data, ctx, r.value)
  {
    IntArgumentsSourced(sh, data, ctx, ps);
    ExtraArgsSourced(sh, data, ctx, callee, DataOf(data, callee.text).AdditionalArguments());
  }

  lemma {:induction false} StepNameScoped(sh: Shader, data: Analysis, prev: Token, ts: seq<Token>, left: nat,
                                          ctx: set<Token>)
    requires ts != [] && ts[0].Name? && InContext(prev, ctx) && Covered(ts, left, ctx)
    ensures Claim(sh, data, ts, StepName(sh, data, prev, ts), left, ctx)
    decreases |ts|, 1
  {
    hide Multiplication, MultiplyAdd, SamplerCall, SkipBlanks, UniformNames, TextureNames;
    var s := ts[0].text;
    assert ts[0] == Name(s);
    if s == "mul" {
      MultiplicationScoped(sh, data, ts, left, ctx);
    } else if s == "mad" {
      MultiplyAddScoped(sh, data, ts, left, ctx);
    } else if s in TextureNames(sh) {
      SamplerCallScoped(sh, data, ts, left, ctx);
    }
  }

  lemma OpenCallSuffix(ts: seq<Token>, name: seq<Token>)
    requires Suffix(ts, name) && OpenCall(ts) != []
    ensures Suffix(OpenCall(ts), name) && Suffix(OpenCall(ts)[1..], name)
  {
    SkipBlanksSuffix(ts);
    SuffixTransitive(SkipBlanks(ts), ts, name);
  }

  lemma {:induction false} MultiplicationScoped(sh: Shader, data: Analysis, ts: seq<Token>, left: nat, ctx: set<Token>)
    requires ts != [] && Covered(ts, left, ctx)
    ensures Claim(sh, data, ts, Multiplication(sh, data, ts), left, ctx)
    decreases |ts|, 0
  {
    hide Transpile, SkipBlanks, OpenCall, SecondFactor;
    var args := OpenCall(ts[1..]);
    if args != [] {
      OpenCallSuffix(ts[1..], ts);
      CoveredSuffix(args, ts, left, ctx);
      Continue(sh, data, args[0], args[1..], ts, ",", left, ctx);
      var a := Transpile(sh, data, args[0], args[1..], ",");
      if a.Ok? {
        SecondFactorScoped(sh, data, a.value.last, a.value.rest, ts, left, ctx);
      }
    }
  }

  lemma {:induction false} SecondFactorScoped(sh: Shader, data: Analysis, last: Token, rest: seq<Token>,
                                              ts: seq<Token>, left: nat, ctx: set<Token>)
    requires Suffix(rest, ts) && Covered(ts, left, ctx)
    requires |rest| >= left ==> InContext(last, ctx)
    ensures Claim(sh, data, ts, SecondFactor(sh, data, last, rest), left, ctx)
    decreases |rest|, 5
  {
    hide Transpile, SkipBlanks;
    SkipBlanksSuffix(rest);
    SuffixTransitive(SkipBlanks(rest), rest, ts);
    if |rest| >= left {
      CoveredSuffix(rest, ts, left, ctx);
    }
    Continue(sh, data, BeforeOperand(last, rest), SkipBlanks(rest), ts, ")", left, ctx);
  }

  lemma {:induction false} MultiplyAddScoped(sh: Shader, data: Analysis, ts: seq<Token>, left: nat, ctx: set<Token>)
    requires ts != [] && Covered(ts, left, ctx)
    ensures Claim(sh, data, ts, MultiplyAdd(sh, data, ts), left, ctx)
    decreases |ts|, 0
  {
    hide Transpile, SkipBlanks, OpenCall;
    var args := OpenCall(ts[1..]);
    if args != [] {
      OpenCallSuffix(ts[1..], ts);
      CoveredSuffix(args, ts, left, ctx);
      Continue(sh, data, args[0], args[1..], ts, ",", left, ctx);
      var a := Transpile(sh, data, args[0], args[1..], ",");
      if a.Ok? {
        Continue(sh, data, a.value.last, a.value.rest, ts, ",", left, ctx);
        var b := Transpile(sh, data, a.value.last, a.value.rest, ",");
        if b.Ok? {
          Continue(sh, data, b.value.last, b.value.rest, ts, ")", left, ctx);
        }
      }
    }
  }

  lemma NextSuffix(ts: seq<Token>, whole: seq<Token>)
    requires Suffix(ts, whole) && ts != []
    ensures Suffix(SkipBlanks(ts[1..]), whole)
  {
    SkipBlanksSuffix(ts[1..]);
    SuffixTransitive(SkipBlanks(ts[1..]), ts[1..], whole);
  }

  lemma {:induction false} SamplerCallScoped(sh: Shader, data: Analysis, ts: seq<Token>, left: nat, ctx: set<Token>)
    requires ts != [] && ts[0] == Name(ts[0].text) && ts[0].text in TextureNames(sh) && Covered(ts, left, ctx)
    ensures Claim(sh, data, ts, SamplerCall(sh, data, ts), left, ctx)
    decreases |ts|, 0
  {
    hide SkipBlanks, OpenCall, TextureCall, TextureNames;
    var dot := SkipBlanks(ts[1..]);
    NextSuffix(ts, ts);
    if dot != [] {
      var call := SkipBlanks(dot[1..]);
      NextSuffix(dot, ts);
      if call != [] && OpenCall(call[1..]) != [] {
        OpenCallSuffix(call[1..], ts);
        TextureCallScoped(sh, data, call[0].text, OpenCall(call[1..]), ts, left, ctx);
      }
    }
  }

  lemma {:induction false} TextureCallScoped(sh: Shader, data: Analysis, call: string, args: seq<Token>,
                                             ts: seq<Token>, left: nat, ctx: set<Token>)
    requires args != [] && Suffix(args, ts) && Covered(ts, left, ctx)
    ensures Claim(sh, data, ts, TextureCall(sh, data, call, args), left, ctx)
    decreases |args|, 1
  {
    hide Transpile, SkipBlanks, ReadCall;
    CoveredSuffix(args, ts, left, ctx);
    if call == "Load" {
      Continue(sh, data, args[0], args[1..], ts, ")", left, ctx);
      var a := Transpile(sh, data, args[0], args[1..], ")");
      if a.Ok? && |a.value.rest| >= left {
        ReadCallSourced(sh, data, ctx, a.value.out);
      }
    } else {
      Continue(sh, data, args[0], args[1..], ts, ",", left, ctx);
      var a := Transpile(sh, data, args[0], args[1..], ",");
      if a.Ok? {
        if call == "Sample" {
          Continue(sh, data, a.value.last, a.value.rest, ts, ")", left, ctx);
        } else {
          LongSampleScoped(sh, data, call, args, a.value, ts, left, ctx);
        }
      }
    }
  }

  /** The sampling calls with more than two arguments; `a` is the first one. */
  lemma {:induction false} LongSampleScoped(sh: Shader, data: Analysis, call: string, args: seq<Token>, a: Chunk,
                                            ts: seq<Token>, left: nat, ctx: set<Token>)
    requires args != [] && Covered(ts, left, ctx) && call != "Load" && call != "Sample"
    requires Transpile(sh, data, args[0], args[1..], ",") == Ok(a) && Claim(sh, data, ts, Ok(a), left, ctx)
    ensures Claim(sh, data, ts, TextureCall(sh, data, call, args), left, ctx)
    decreases |args|, 0
  {
    hide Transpile, SkipBlanks;
    Continue(sh, data, a.last, a.rest, ts, ",", left, ctx);
    var b := Transpile(sh, data, a.last, a.rest, ",");
    if b.Ok? {
      if call == "SampleGrad" {
        Continue(sh, data, b.value.last, b.value.rest, ts, ",", left, ctx);
        var c := Transpile(sh, data, b.value.last, b.value.rest, ",");
        if c.Ok? {
          Continue(sh, data, c.value.last, c.value.rest, ts, ")", left, ctx);
        }
      } else {
        Continue(sh, data, b.value.last, b.value.rest, ts, ")", left, ctx);
      }
    }
  }

  // ---------------------------------------------------------------------------------------------------------
  // The emitted functions

  /** The body of a function as it is emitted. */
  function EmittedBody(sh: Shader, i: nat): Result<Chunk>
    requires i < |sh.funcs|
  {
    Transpile(sh, FinalAnalysis(sh), Other("{"), sh.funcs[i].body, "}")
  }

  /** Only names are spelled like functions. */
  ghost predicate CallsByName(sh: Shader, i: nat)
    requires i < |sh.funcs|
  {
    && (forall t, f :: t in Body(sh.funcs[i]) && f in sh.funcs && t.text == f.name ==> t.Name?)
    && (forall f :: f in sh.funcs ==> f.name != "" && f.name != "{")
  }

  /** A name that is printed as it is: no uniform, which would need the buffer in front, and a texture or a sampler only
      if it is a parameter. */
  ghost predicate RawInScope(sh: Shader, params: seq<string>, n: string) {
    && n !in UniformNames(sh)
    && (n in Declared(sh, Textures) || n in Declared(sh, Samplers) ==> n in params)
  }

  ghost predicate InScope(sh: Shader, params: seq<string>, p: Piece) {
    match p
    case UniformRef(_) => "uniforms" in params
    case TextureRef(n) => n in params
    case ExtraArg(a) => a in params
    case Copied(n) => n in Declared(sh, Samplers) ==> n in params
    case Compare(l, _, r) => RawInScope(sh, params, l) && RawInScope(sh, params, r)
    case Text(_) => true
  }

  /** All extra parameters of a function, in the order of its signature. */
  function Extras(sh: Shader, i: nat): seq<string>
    requires i < |sh.funcs|
  {
    var isMain, fd := sh.funcs[i].name == "main", FinalData(sh, i);
    ExtraParameters(sh, fd, isMain, Uniforms) + ExtraParameters(sh, fd, isMain, Textures)
    + ExtraParameters(sh, fd, isMain, Samplers)
  }

  lemma NeedIsExtra(sh: Shader, i: nat, kind: Kind, g: string)
    requires WellFormed(sh) && i < |sh.funcs| && g in FinalData(sh, i).Needs(kind)
    ensures g in Extras(sh, i)
  {
    NeedsAreDeclared(sh, i, kind, g);
    KeepElements(Declared(sh, kind), FinalData(sh, i).Needs(kind));
    assert g in ExtraParameters(sh, FinalData(sh, i), sh.funcs[i].name == "main", kind);
  }

  lemma OwnIsExtra(sh: Shader, i: nat, kind: Kind, n: string, g: string)
    requires WellFormed(sh) && i < |sh.funcs| && Mentions(sh, i, n) && g in Own(sh, kind, n)
    ensures g in Extras(sh, i)
  {
    SourceIsNeed(sh, i, kind, n, g);
    NeedIsExtra(sh, i, kind, g);
  }

  lemma PassedIsExtra(sh: Shader, i: nat, n: string, g: string)
    requires WellFormed(sh) && i < |sh.funcs| && Mentions(sh, i, n)
    requires g in DataOf(FinalAnalysis(sh), n).AdditionalArguments()
    ensures g in Extras(sh, i)
  {
    if forall k :: 0 <= k < |sh.funcs| ==> sh.funcs[k].name != n {
      EntryEmpty(sh, |sh.funcs|, n);
    }
    var j :| 0 <= j < |sh.funcs| && sh.funcs[j].name == n;
    var kind :| g in FinalData(sh, j).Needs(kind);
    NeedsOfCallee(sh, i, j, kind, g);
    NeedIsExtra(sh, i, kind, g);
  }

  lemma SignatureEndsWithExtras(sh: Shader, i: nat)
    requires i < |sh.funcs|
    ensures Signature(sh, FinalData(sh, i), sh.funcs[i]) == sh.funcs[i].params + Extras(sh, i)
  {
  }

  /** If the emitted body ends where the analysed body ends, all globals that it refers to are parameters. */
  lemma EndedBodyInScope(sh: Shader, i: nat, p: Piece)
    requires WellFormed(sh) && i < |sh.funcs| && CallsByName(sh, i)
    requires EmittedBody(sh, i).Ok? && EmittedBody(sh, i).value.rest == SkipTo(sh.funcs[i].body, "}")
    requires p in EmittedBody(sh, i).value.out && !p.Compare?
    ensures InScope(sh, Signature(sh, FinalData(sh, i), sh.funcs[i]), p)
  {
    hide Transpile, SkipTo, FinalAnalysis, FinalData, WellFormed, UniformNames, TextureNames;
    var f, data := sh.funcs[i], FinalAnalysis(sh);
    var body, left := Body(f), |SkipTo(f.body, "}")|;
    var ctx := (set t | t in body) + {Other("{")};
    TranspileScoped(sh, data, Other("{"), f.body, "}", left, ctx);
    assert Sourced(sh, data, ctx, p);
    SignatureEndsWithExtras(sh, i);
    match p {
      case UniformRef(n) => OwnIsExtra(sh, i, Uniforms, n, "uniforms");
      case TextureRef(n) => OwnIsExtra(sh, i, Textures, n, n);
      case Copied(n) => if n in Declared(sh, Samplers) { OwnIsExtra(sh, i, Samplers, n, n); }
      case ExtraArg(a) =>
        var t :| InContext(t, ctx) && a in DataOf(data, t.text).AdditionalArguments();
        CalleeIsNamed(sh, i, t, a);
        PassedIsExtra(sh, i, t.text, a);
      case _ =>
    }
  }

  /** All globals that an emitted body refers to are parameters, if every call that is taken apart has its operands
      between its parentheses. */
  lemma EmittedBodyInScope(sh: Shader, i: nat)
    requires WellFormed(sh) && i < |sh.funcs| && CallsByName(sh, i)
    requires Lexical(sh.funcs[i].body) && Complete(sh, sh.funcs[i].body, "}")
    ensures EmittedBody(sh, i).Ok? ==>
        forall p :: p in EmittedBody(sh, i).value.out && !p.Compare?
          ==> InScope(sh, Signature(sh, FinalData(sh, i), sh.funcs[i]), p)
  {
    hide *;
    BodyEnds(sh, i);
    if EmittedBody(sh, i).Ok? {
      forall p | p in EmittedBody(sh, i).value.out && !p.Compare?
        ensures InScope(sh, Signature(sh, FinalData(sh, i), sh.funcs[i]), p)
      {
        EndedBodyInScope(sh, i, p);
      }
    }
  }

  /** The translation of a complete body stops where the analysis stops. */
  lemma BodyEnds(sh: Shader, i: nat)
    requires i < |sh.funcs| && Lexical(sh.funcs[i].body) && Complete(sh, sh.funcs[i].body, "}")
    ensures EmittedBody(sh, i).Ok? ==> EmittedBody(sh, i).value.rest == SkipTo(sh.funcs[i].body, "}")
  {
    hide Lexical, Complete, Transpile, SkipTo, FinalAnalysis;
    WalkEnds(sh, FinalAnalysis(sh), Other("{"), sh.funcs[i].body, "}");
  }

  lemma CalleeIsNamed(sh: Shader, i: nat, t: Token, a: string)
    requires WellFormed(sh) && i < |sh.funcs| && CallsByName(sh, i)
    requires t in Body(sh.funcs[i]) || t == Other("{") || t == NONE
    requires a in DataOf(FinalAnalysis(sh), t.text).AdditionalArguments()
    ensures Mentions(sh, i, t.text)
  {
    if forall k :: 0 <= k < |sh.funcs| ==> sh.funcs[k].name != t.text {
      EntryEmpty(sh, |sh.funcs|, t.text);
    }
    var j :| 0 <= j < |sh.funcs| && sh.funcs[j].name == t.text;
    assert sh.funcs[j] in sh.funcs;
    assert t == Name(t.text);
  }
}
