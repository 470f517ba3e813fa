/** What the analysis computes: exactly the globals a function reaches through its calls. Hence every call passes
    what the callee's signature asks for, and in the right order exactly when first uses follow the declarations. */
module MetalAnalysis {
  import opened ShaderTokens
  import opened MetalTranspiler

  /** The tokens of a function's body. */
  function Body(f: Func): seq<Token> { Scanned(f.body, "}") }

  function FinalAnalysis(sh: Shader): Analysis { Analyze(sh, |sh.funcs|) }

  function FinalData(sh: Shader, i: nat): FunctionData
    requires i < |sh.funcs|
  {
    DataOf(FinalAnalysis(sh), sh.funcs[i].name)
  }

  ghost predicate UniqueFunctions(sh: Shader) {
    forall i, j :: 0 <= i < j < |sh.funcs| ==> sh.funcs[i].name != sh.funcs[j].name
  }

  ghost predicate Mentions(sh: Shader, i: nat, n: string)
    requires i < |sh.funcs|
  {
    Name(n) in Body(sh.funcs[i])
  }

  /** What the effect language demands: a function names only functions defined before it. */
  ghost predicate DefinedBeforeUse(sh: Shader) {
    forall i, j :: 0 <= i < |sh.funcs| && 0 <= j < |sh.funcs| && Mentions(sh, i, sh.funcs[j].name) ==> j < i
  }

  ghost predicate WellFormed(sh: Shader) {
    && UniqueFunctions(sh)
    && DefinedBeforeUse(sh)
    && (forall i :: 0 <= i < |sh.funcs| ==> Lexed(sh.funcs[i].body))
    && (forall kind :: Distinct(Declared(sh, kind)))
  }

  // ---------------------------------------------------------------------------------------------------------
  // The needs of one function, occurrence by occurrence

  function TokenNeeds(sh: Shader, data: Analysis, kind: Kind, t: Token): seq<string> {
    if t.Name? then DataOf(data, t.text).Needs(kind) + Own(sh, kind, t.text) else []
  }

  /** Every need of the given kind in the order the scan meets it, a callee's needs at the callee's name. */
  function Occurrences(sh: Shader, data: Analysis, kind: Kind, ts: seq<Token>): seq<string> {
    if ts == [] then []
    else Occurrences(sh, data, kind, ts[..|ts| - 1]) + TokenNeeds(sh, data, kind, ts[|ts| - 1])
  }

  lemma {:induction false} OccurrencesElements(sh: Shader, data: Analysis, kind: Kind, ts: seq<Token>, g: string)
    ensures g in Occurrences(sh, data, kind, ts) <==> exists t :: t in ts && g in TokenNeeds(sh, data, kind, t)
  {
    if ts != [] {
      var init, t := ts[..|ts| - 1], ts[|ts| - 1];
      OccurrencesElements(sh, data, kind, init, g);
      assert ts == init + [t];
    }
  }

  lemma {:induction false} UniqueOfConstant(xs: seq<string>, c: string)
    requires forall x :: x in xs ==> x == c
    ensures Unique(xs) == if xs == [] then [] else [c]
  {
    if xs != [] {
      var init := xs[..|xs| - 1];
      assert forall x :: x in init ==> x in xs;
      UniqueOfConstant(init, c);
      assert xs[|xs| - 1] in xs;
    }
  }

  lemma {:induction false} ScanUniforms(sh: Shader, data: Analysis, ts: seq<Token>)
    ensures Scan(sh, data, NO_NEEDS, ts).requiresUniformBuffers <==> Occurrences(sh, data, Uniforms, ts) != []
    ensures forall g :: g in Occurrences(sh, data, Uniforms, ts) ==> g == "uniforms"
  {
    if ts != [] {
      var init, t := ts[..|ts| - 1], ts[|ts| - 1];
      ScanUniforms(sh, data, init);
      assert forall g :: g in TokenNeeds(sh, data, Uniforms, t) ==> g == "uniforms";
    }
  }

  lemma {:induction false} ScanTextures(sh: Shader, data: Analysis, ts: seq<Token>)
    ensures Scan(sh, data, NO_NEEDS, ts).textures == Occurrences(sh, data, Textures, ts)
  {
    if ts != [] {
      ScanTextures(sh, data, ts[..|ts| - 1]);
    }
  }

  lemma {:induction false} ScanSamplers(sh: Shader, data: Analysis, ts: seq<Token>)
    ensures Scan(sh, data, NO_NEEDS, ts).samplers == Occurrences(sh, data, Samplers, ts)
  {
    if ts != [] {
      ScanSamplers(sh, data, ts[..|ts| - 1]);
    }
  }

  lemma FuncDataNeeds(sh: Shader, data: Analysis, f: Func, kind: Kind)
    requires Lexed(f.body)
    ensures FuncData(sh, data, f).Needs(kind) == Unique(Occurrences(sh, data, kind, Body(f)))
  {
    ScanIsFlat(sh, data, NO_NEEDS, f.body, "}");
    match kind
    case Textures => ScanTextures(sh, data, Body(f));
    case Samplers => ScanSamplers(sh, data, Body(f));
    case Uniforms =>
      ScanUniforms(sh, data, Body(f));
      UniqueOfConstant(Occurrences(sh, data, Uniforms, Body(f)), "uniforms");
  }

  // ---------------------------------------------------------------------------------------------------------
  // The dictionary while the analysis runs

  lemma {:induction false} UnanalyzedNeeds(funcs: seq<Func>, n: string)
    ensures DataOf(Unanalyzed(funcs), n) == NO_NEEDS
  {
    if funcs != [] {
      UnanalyzedNeeds(funcs[..|funcs| - 1], n);
    }
  }

  lemma {:induction false} EntryEmpty(sh: Shader, m: nat, n: string)
    requires m <= |sh.funcs| && forall k :: 0 <= k < m ==> sh.funcs[k].name != n
    ensures DataOf(Analyze(sh, m), n) == NO_NEEDS
  {
    if m == 0 {
      UnanalyzedNeeds(sh.funcs, n);
    } else {
      EntryEmpty(sh, m - 1, n);
      EntryKept(sh, m, n);
    }
  }

  lemma {:induction false} EntryFinal(sh: Shader, m: nat, i: nat)
    requires i < m <= |sh.funcs| && forall k :: i < k < m ==> sh.funcs[k].name != sh.funcs[i].name
    ensures DataOf(Analyze(sh, m), sh.funcs[i].name) == FuncData(sh, Analyze(sh, i), sh.funcs[i])
  {
    if i < m - 1 {
      EntryFinal(sh, m - 1, i);
      EntryKept(sh, m, sh.funcs[i].name);
    } else {
      EntryAdded(sh, i);
    }
  }

  lemma EntryAdded(sh: Shader, i: nat)
    requires i < |sh.funcs|
    ensures DataOf(Analyze(sh, i + 1), sh.funcs[i].name) == FuncData(sh, Analyze(sh, i), sh.funcs[i])
  {
  }

  /** After `m` functions, the entry of a function is final if it is one of them, and empty otherwise. */
  lemma EntryOf(sh: Shader, m: nat, i: nat)
    requires UniqueFunctions(sh) && m <= |sh.funcs| && i < |sh.funcs|
    ensures DataOf(Analyze(sh, m), sh.funcs[i].name)
         == if i < m then FuncData(sh, Analyze(sh, i), sh.funcs[i]) else NO_NEEDS
  {
    if i < m {
      EntryFinal(sh, m, i);
    } else {
      EntryEmpty(sh, m, sh.funcs[i].name);
    }
  }

  lemma EntryKept(sh: Shader, m: nat, n: string)
    requires 0 < m <= |sh.funcs| && sh.funcs[m - 1].name != n
    ensures DataOf(Analyze(sh, m), n) == DataOf(Analyze(sh, m - 1), n)
  {
  }

  // ---------------------------------------------------------------------------------------------------------
  // The analysis is the closure under calls

  /** A chain of functions, each of which names the next one. */
  ghost predicate CallPath(sh: Shader, p: seq<nat>) {
    && p != []
    && (forall k :: 0 <= k < |p| ==> p[k] < |sh.funcs|)
    && (forall k :: 0 < k < |p| ==> Mentions(sh, p[k - 1], sh.funcs[p[k]].name))
  }

  /** The last function of the chain names something that needs `g`. */
  ghost predicate PathNeeds(sh: Shader, p: seq<nat>, kind: Kind, g: string) {
    CallPath(sh, p) && exists n :: Mentions(sh, p[|p| - 1], n) && g in Own(sh, kind, n)
  }

  /** A need of a function comes from a name in its body: as its own, or through an earlier function. */
  lemma NeedHasSource(sh: Shader, i: nat, kind: Kind, g: string) returns (n: string)
    requires WellFormed(sh) && i < |sh.funcs| && g in FinalData(sh, i).Needs(kind)
    ensures Mentions(sh, i, n)
    ensures g in Own(sh, kind, n) || g in DataOf(Analyze(sh, i), n).Needs(kind)
  {
    var f, data := sh.funcs[i], Analyze(sh, i);
    EntryOf(sh, |sh.funcs|, i);
    FuncDataNeeds(sh, data, f, kind);
    UniqueElements(Occurrences(sh, data, kind, Body(f)));
    OccurrencesElements(sh, data, kind, Body(f), g);
    var t :| t in Body(f) && g in TokenNeeds(sh, data, kind, t);
    assert t == Name(t.text);
    n := t.text;
  }

  lemma SourceIsNeed(sh: Shader, i: nat, kind: Kind, n: string, g: string)
    requires WellFormed(sh) && i < |sh.funcs| && Mentions(sh, i, n)
    requires g in Own(sh, kind, n) || g in DataOf(Analyze(sh, i), n).Needs(kind)
    ensures g in FinalData(sh, i).Needs(kind)
  {
    var f, data := sh.funcs[i], Analyze(sh, i);
    assert g in TokenNeeds(sh, data, kind, Name(n));
    OccurrencesElements(sh, data, kind, Body(f), g);
    FuncDataNeeds(sh, data, f, kind);
    UniqueElements(Occurrences(sh, data, kind, Body(f)));
    EntryOf(sh, |sh.funcs|, i);
  }

  /** Only an earlier function has an entry that is not empty, and that entry is final. */
  lemma EntryIsEarlier(sh: Shader, i: nat, kind: Kind, n: string) returns (j: nat)
    requires WellFormed(sh) && i < |sh.funcs| && DataOf(Analyze(sh, i), n).Needs(kind) != []
    ensures j < i && sh.funcs[j].name == n && FinalData(sh, j) == DataOf(Analyze(sh, i), n)
  {
    if forall k :: 0 <= k < |sh.funcs| ==> sh.funcs[k].name != n {
      EntryEmpty(sh, i, n);
    }
    j :| 0 <= j < |sh.funcs| && sh.funcs[j].name == n;
    EntryOf(sh, i, j);
    EntryOf(sh, |sh.funcs|, j);
  }

  lemma {:induction false} NeedHasPath(sh: Shader, i: nat, kind: Kind, g: string) returns (p: seq<nat>)
    requires WellFormed(sh) && i < |sh.funcs| && g in FinalData(sh, i).Needs(kind)
    ensures PathNeeds(sh, p, kind, g) && p[0] == i
    decreases i
  {
    var n := NeedHasSource(sh, i, kind, g);
    if g in Own(sh, kind, n) {
      p := [i];
    } else {
      var j := EntryIsEarlier(sh, i, kind, n);
      var q := NeedHasPath(sh, j, kind, g);
      p := [i] + q;
      PathExtended(sh, i, q, kind, g);
    }
  }

  lemma PathExtended(sh: Shader, i: nat, q: seq<nat>, kind: Kind, g: string)
    requires PathNeeds(sh, q, kind, g) && i < |sh.funcs| && Mentions(sh, i, sh.funcs[q[0]].name)
    ensures PathNeeds(sh, [i] + q, kind, g)
  {
    var p := [i] + q;
    assert p[|p| - 1] == q[|q| - 1];
  }

  lemma {:induction false} PathIsNeeded(sh: Shader, p: seq<nat>, kind: Kind, g: string)
    requires WellFormed(sh) && PathNeeds(sh, p, kind, g)
    ensures g in FinalData(sh, p[0]).Needs(kind)
    decreases |p|
  {
    var i := p[0];
    if |p| == 1 {
      var n :| Mentions(sh, i, n) && g in Own(sh, kind, n);
      SourceIsNeed(sh, i, kind, n, g);
    } else {
      var j, q := p[1], p[1..];
      assert q[|q| - 1] == p[|p| - 1];
      assert Mentions(sh, p[0], sh.funcs[p[1]].name);
      PathIsNeeded(sh, q, kind, g);
      EntryOf(sh, |sh.funcs|, j);
      EntryOf(sh, i, j);
      SourceIsNeed(sh, i, kind, sh.funcs[j].name, g);
    }
  }

  /** The analysis finds exactly the globals that are named by the function itself or by a function it reaches. */
  lemma AnalysisIsClosure(sh: Shader, i: nat, kind: Kind, g: string)
    requires WellFormed(sh) && i < |sh.funcs|
    ensures g in FinalData(sh, i).Needs(kind) <==> exists p :: PathNeeds(sh, p, kind, g) && p[0] == i
  {
    if g in FinalData(sh, i).Needs(kind) {
      var p := NeedHasPath(sh, i, kind, g);
    }
    forall p | PathNeeds(sh, p, kind, g) && p[0] == i
      ensures g in FinalData(sh, i).Needs(kind)
    {
      PathIsNeeded(sh, p, kind, g);
    }
  }

  /** What a callee needs, its caller needs. */
  lemma NeedsOfCallee(sh: Shader, i: nat, j: nat, kind: Kind, g: string)
    requires WellFormed(sh) && i < |sh.funcs| && j < |sh.funcs|
    requires Mentions(sh, i, sh.funcs[j].name) && g in FinalData(sh, j).Needs(kind)
    ensures g in FinalData(sh, i).Needs(kind)
  {
    EntryOf(sh, |sh.funcs|, j);
    EntryOf(sh, i, j);
    SourceIsNeed(sh, i, kind, sh.funcs[j].name, g);
  }

  lemma NeedsAreDeclared(sh: Shader, i: nat, kind: Kind, g: string)
    requires WellFormed(sh) && i < |sh.funcs| && g in FinalData(sh, i).Needs(kind)
    ensures g in Declared(sh, kind)
  {
    var p := NeedHasPath(sh, i, kind, g);
  }
}
