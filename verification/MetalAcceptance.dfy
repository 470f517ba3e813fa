/** When the translation of a body succeeds: it does for every complete body whose brackets match, unless an argument
    list that is split at its commas has too many of them. */
module MetalAcceptance {
  import opened ShaderTokens
  import opened MetalTranspiler
  import opened MetalAnalysis
  import opened MetalBodies
  import opened MetalScoping

  // ---------------------------------------------------------------------------------------------------------
  // Counting commas

  function CommaTokens(ts: seq<Token>): nat {
    if ts == [] then 0 else (if ts[0].text == "," then 1 else 0) + CommaTokens(ts[1..])
  }

  function CommaPieces(ps: seq<Piece>): nat {
    if ps == [] then 0 else (if ps[0] == Text(",") then 1 else 0) + CommaPieces(ps[1..])
  }

  lemma {:induction false} TokensConcat(a: seq<Token>, b: seq<Token>)
    ensures CommaTokens(a + b) == CommaTokens(a) + CommaTokens(b)
  {
    if a == [] {
      assert a + b == b;
    } else {
      assert (a + b)[1..] == a[1..] + b;
      TokensConcat(a[1..], b);
    }
  }

  lemma {:induction false} PiecesConcat(a: seq<Piece>, b: seq<Piece>)
    ensures CommaPieces(a + b) == CommaPieces(a) + CommaPieces(b)
  {
    if a == [] {
      assert a + b == b;
    } else {
      assert (a + b)[1..] == a[1..] + b;
      PiecesConcat(a[1..], b);
    }
  }

  lemma FewerBehind(rest: seq<Token>, ts: seq<Token>)
    requires Suffix(rest, ts)
    ensures CommaTokens(rest) <= CommaTokens(ts)
  {
    assert ts == ts[..|ts| - |rest|] + rest;
    TokensConcat(ts[..|ts| - |rest|], rest);
  }

  function CommasIn(parts: seq<seq<Piece>>): nat {
    if parts == [] then 0 else CommaPieces(parts[0]) + CommasIn(parts[1..])
  }

  /** Every cut uses up a comma. */
  lemma {:induction false} CutsUseCommas(ps: seq<Piece>, cuts: nat, part: seq<Piece>)
    ensures var parts := Split(ps, cuts, part);
      |parts| + CommasIn(parts) <= CommaPieces(ps) + CommaPieces(part) + 1
    decreases |ps|
  {
    if ps == [] {
      assert CommasIn([part]) == CommaPieces(part) + CommasIn([part][1..]);
    } else if ps[0] == Text(",") && cuts > 0 {
      if part == [] {
        CutsUseCommas(ps[1..], cuts, []);
      } else {
        var more := Split(ps[1..], cuts - 1, []);
        CutsUseCommas(ps[1..], cuts - 1, []);
        assert ([part] + more)[1..] == more;
      }
    } else {
      CutsUseCommas(ps[1..], cuts, part + [ps[0]]);
      PiecesConcat(part, [ps[0]]);
    }
  }

  /** Something besides commas leaves a part. */
  lemma {:induction false} SomePart(ps: seq<Piece>, cuts: nat, part: seq<Piece>)
    requires part != [] || exists k :: 0 <= k < |ps| && ps[k] != Text(",")
    ensures Split(ps, cuts, part) != []
    decreases |ps|
  {
    if ps != [] {
      if ps[0] == Text(",") && cuts > 0 {
        if part == [] {
          var k :| 0 <= k < |ps| && ps[k] != Text(",");
          assert ps[1..][k - 1] != Text(",");
          SomePart(ps[1..], cuts, []);
        }
      } else {
        SomePart(ps[1..], cuts, part + [ps[0]]);
      }
    }
  }

  lemma ConversionCommas(open: string, part: seq<Piece>)
    requires open != ","
    ensures CommaPieces(Converted(open, part)) == CommaPieces(part)
  {
    PiecesConcat([Text(open)] + part, [Text(")")]);
    PiecesConcat([Text(open)], part);
  }

  /** An `int3` constructor has no more commas than its arguments had. */
  lemma IntCommas(ps: seq<Piece>)
    requires IntArguments(ps).Ok?
    ensures CommaPieces(IntArguments(ps).value) <= CommaPieces(ps)
  {
    var parts := Split(ps, 3, []);
    CutsUseCommas(ps, 3, []);
    hide Split, Converted;
    if |parts| == 3 {
      InEach(parts);
      JoinedCommas(Converted("int(", parts[0]), Converted("int(", parts[1]));
      JoinedCommas(Converted("int(", parts[0]) + SEPARATOR + Converted("int(", parts[1]), Converted("int(", parts[2]));
      ConversionCommas("int(", parts[0]);
      ConversionCommas("int(", parts[1]);
      ConversionCommas("int(", parts[2]);
    } else if |parts| == 2 {
      InEach(parts);
      JoinedCommas(Converted("int2(", parts[0]), Converted("int(", parts[1]));
      ConversionCommas("int2(", parts[0]);
      ConversionCommas("int(", parts[1]);
    } else {
      assert CommasIn(parts) == CommaPieces(parts[0]);
      BracketedCommas("[\"", parts[0], "\"]");
    }
  }

  lemma InEach(parts: seq<seq<Piece>>)
    requires 2 <= |parts| <= 3
    ensures CommasIn(parts) == CommaPieces(parts[0]) + CommaPieces(parts[1])
                             + if |parts| == 3 then CommaPieces(parts[2]) else 0
  {
    var more := parts[1..];
    assert CommasIn(more) == CommaPieces(more[0]) + CommasIn(more[1..]);
    if |parts| == 3 {
      assert CommasIn(more[1..]) == CommaPieces(more[1..][0]) + CommasIn(more[1..][1..]);
    }
  }

  lemma BracketedCommas(open: string, part: seq<Piece>, close: string)
    requires open != "," && close != ","
    ensures CommaPieces([Text(open)] + part + [Text(close)]) == CommaPieces(part)
  {
    PiecesConcat([Text(open)] + part, [Text(close)]);
    PiecesConcat([Text(open)], part);
  }

  lemma JoinedCommas(a: seq<Piece>, b: seq<Piece>)
    ensures CommaPieces(a + SEPARATOR + b) == CommaPieces(a) + 1 + CommaPieces(b)
  {
    PiecesConcat(a + SEPARATOR, b);
    PiecesConcat(a, SEPARATOR);
    assert SEPARATOR == [Text(",")] + [Text(" ")];
    PiecesConcat([Text(",")], [Text(" ")]);
  }

  /** Two commas, and something besides them: one to three parts. */
  lemma PartsFit(ps: seq<Piece>)
    requires CommaPieces(ps) <= 2 && exists k :: 0 <= k < |ps| && ps[k] != Text(",")
    ensures 1 <= |Split(ps, 3, [])| <= 3
  {
    CutsUseCommas(ps, 3, []);
    SomePart(ps, 3, []);
  }

  // ---------------------------------------------------------------------------------------------------------
  // Where nothing is passed on, a walk prints no more commas than it reads

  /** A token that adds no comma to what is printed. */
  ghost predicate Harmless(sh: Shader, data: Analysis, t: Token) {
    t.text !in TextureNames(sh) && DataOf(data, t.text) == NO_NEEDS
  }

  ghost predicate Mild(sh: Shader, data: Analysis, ctx: set<Token>) {
    forall t :: InContext(t, ctx) ==> Harmless(sh, data, t)
  }

  ghost predicate Few(ts: seq<Token>, r: Result<Chunk>, left: nat) {
    r.Ok? && |r.value.rest| >= left ==> CommaPieces(r.value.out) + CommaTokens(r.value.rest) <= CommaTokens(ts)
  }

  /** A walk that goes on where another one stopped. */
  lemma {:induction false} GoesOnFew(sh: Shader, data: Analysis, last: Token, rest: seq<Token>, ts: seq<Token>,
                                     end: string, left: nat, ctx: set<Token>)
    requires Suffix(rest, ts) && Covered(ts, left, ctx) && Mild(sh, data, ctx)
    requires |rest| >= left ==> InContext(last, ctx)
    ensures var r := Transpile(sh, data, last, rest, end);
      Few(rest, r, left) && Claim(sh, data, ts, r, left, ctx)
    decreases |rest|, 4
  {
    Continue(sh, data, last, rest, ts, end, left, ctx);
    if |rest| >= left {
      CoveredSuffix(rest, ts, left, ctx);
      WalkFew(sh, data, last, rest, end, left, ctx);
    }
    hide Transpile, Covered, AllSourced;
  }

  lemma {:induction false} WalkFew(sh: Shader, data: Analysis, prev: Token, ts: seq<Token>, end: string, left: nat,
                                   ctx: set<Token>)
    requires InContext(prev, ctx) && Covered(ts, left, ctx) && Mild(sh, data, ctx)
    ensures Few(ts, Transpile(sh, data, prev, ts, end), left)
    decreases |ts|, 3
  {
    hide Step, Mild, InContext, AllSourced;
    if ts != [] && ts[0].text == end {
      FewerBehind(ts[1..], ts);
    } else if ts != [] {
      StepFew(sh, data, prev, ts, left, ctx);
      StepScoped(sh, data, prev, ts, left, ctx);
      var step := Step(sh, data, prev, ts);
      if step.Ok? {
        GoesOnFew(sh, data, step.value.last, step.value.rest, ts, end, left, ctx);
        var more := Transpile(sh, data, step.value.last, step.value.rest, end);
        if more.Ok? {
          PiecesConcat(step.value.out, more.value.out);
        }
      }
    }
  }

  lemma {:induction false} StepFew(sh: Shader, data: Analysis, prev: Token, ts: seq<Token>, left: nat, ctx: set<Token>)
    requires ts != [] && InContext(prev, ctx) && Covered(ts, left, ctx) && Mild(sh, data, ctx)
    ensures Few(ts, Step(sh, data, prev, ts), left)
    decreases |ts|, 2
  {
    hide *;
    FewMembers(ts);
    if ts[0].Name? {
      if |ts| > left {
        FirstIsHarmless(sh, data, ts, left, ctx);
      }
      NameFew(sh, data, prev, ts, left, ctx);
      StepIsName(sh, data, prev, ts);
    } else if ts[0] == BEGIN || ts[0] == OPEN {
      var close := if ts[0] == BEGIN then "}" else ")";
      if |ts| > left {
        FirstIsHarmless(sh, data, ts, left, ctx);
      }
      SuffixOfItself(ts);
      GoesOnFew(sh, data, ts[0], ts[1..], ts, close, left, ctx);
      BracketFew(sh, data, prev, ts, close, left, ctx);
    } else {
      SingleFew(sh, data, prev, ts, left);
    }
  }

  lemma SuffixOfItself(ts: seq<Token>)
    requires ts != []
    ensures Suffix(ts[1..], ts) && Suffix(ts, ts) && |ts[1..]| == |ts| - 1
  {
  }

  lemma FewMembers(ts: seq<Token>)
    requires ts != []
    ensures CommaTokens(ts) == (if ts[0].text == "," then 1 else 0) + CommaTokens(ts[1..])
  {
  }

  lemma FirstIsHarmless(sh: Shader, data: Analysis, ts: seq<Token>, left: nat, ctx: set<Token>)
    requires ts != [] && |ts| > left && Covered(ts, left, ctx) && Mild(sh, data, ctx)
    ensures InContext(ts[0], ctx) && Harmless(sh, data, ts[0])
  {
    hide Harmless;
  }

  lemma StepIsName(sh: Shader, data: Analysis, prev: Token, ts: seq<Token>)
    requires ts != [] && ts[0].Name?
    ensures Step(sh, data, prev, ts) == StepName(sh, data, prev, ts)
  {
    hide StepName, Transpile;
  }

  lemma BracketFew(sh: Shader, data: Analysis, prev: Token, ts: seq<Token>, close: string, left: nat, ctx: set<Token>)
    requires ts != [] && ((ts[0] == BEGIN && close == "}") || (ts[0] == OPEN && close == ")"))
    requires InContext(prev, ctx) && Mild(sh, data, ctx)
    requires Few(ts[1..], Transpile(sh, data, ts[0], ts[1..], close), left)
    ensures Few(ts, Step(sh, data, prev, ts), left)
  {
    hide Transpile, CallArguments, Harmless, CommaPieces, InContext;
    FewMembers(ts);
    var r, inner := Step(sh, data, prev, ts), Transpile(sh, data, ts[0], ts[1..], close);
    if r.Ok? {
      var args := if ts[0] == BEGIN then inner.value.out else CallArguments(data, prev.text, inner.value.out).value;
      if ts[0] == OPEN {
        ArgumentsFew(sh, data, prev, inner.value.out);
      }
      BracketedCommas(if ts[0] == BEGIN then "{" else "(", args, if ts[0] == BEGIN then "}" else ")");
    }
  }

  lemma ArgumentsFew(sh: Shader, data: Analysis, callee: Token, ps: seq<Piece>)
    requires Harmless(sh, data, callee)
    ensures var r := CallArguments(data, callee.text, ps);
      r.Ok? ==> CommaPieces(r.value) <= CommaPieces(ps)
  {
    hide IntArguments, TextureNames, CommaPieces;
    if callee.text == "int3" && IntArguments(ps).Ok? {
      IntCommas(ps);
    }
    assert NO_NEEDS.AdditionalArguments() == [];
  }

  lemma SingleFew(sh: Shader, data: Analysis, prev: Token, ts: seq<Token>, left: nat)
    requires ts != [] && !ts[0].Name? && ts[0] != BEGIN && ts[0] != OPEN
    ensures Few(ts, Step(sh, data, prev, ts), left)
  {
    assert CommaPieces([Text(ts[0].text)][1..]) == 0;
    hide Transpile, StepName, CallArguments;
  }

  lemma {:induction false} NameFew(sh: Shader, data: Analysis, prev: Token, ts: seq<Token>, left: nat, ctx: set<Token>)
    requires ts != [] && ts[0].Name? && Covered(ts, left, ctx) && Mild(sh, data, ctx)
    requires |ts| > left ==> InContext(ts[0], ctx) && Harmless(sh, data, ts[0])
    ensures Few(ts, StepName(sh, data, prev, ts), left)
    decreases |ts|, 1
  {
    hide *;
    if ts[0].text == "mul" {
      ProductFew(sh, data, ts, left, ctx);
    } else if ts[0].text == "mad" {
      SumFew(sh, data, ts, left, ctx);
    }
    NameIs(sh, data, prev, ts);
    if ts[0].text != "mul" && ts[0].text != "mad" {
      WordFew(sh, data, prev, ts, left);
    }
  }

  lemma NameIs(sh: Shader, data: Analysis, prev: Token, ts: seq<Token>)
    requires ts != [] && ts[0].Name?
    ensures ts[0].text == "mul" ==> StepName(sh, data, prev, ts) == Multiplication(sh, data, ts)
    ensures ts[0].text == "mad" ==> StepName(sh, data, prev, ts) == MultiplyAdd(sh, data, ts)
  {
    hide Multiplication, MultiplyAdd, SamplerCall, TextureNames;
  }

  /** A name that is no call of this kind prints as one piece. */
  lemma WordFew(sh: Shader, data: Analysis, prev: Token, ts: seq<Token>, left: nat)
    requires ts != [] && ts[0].Name? && ts[0].text != "mul" && ts[0].text != "mad"
    requires |ts| > left ==> Harmless(sh, data, ts[0])
    ensures Few(ts, StepName(sh, data, prev, ts), left)
  {
    hide Multiplication, MultiplyAdd, SamplerCall, TextureNames, DataOf, CommaPieces, CommaTokens, SkipBlanks;
    var r := StepName(sh, data, prev, ts);
    if r.Ok? && |r.value.rest| >= left {
      FewMembers(ts);
      assert |r.value.out| == 1 && r.value.rest == ts[1..];
      NoCommaMade(sh, data, prev, ts);
      OnePiece(r.value.out);
    }
  }

  lemma OnePiece(ps: seq<Piece>)
    requires |ps| == 1 && ps[0] != Text(",")
    ensures CommaPieces(ps) == 0
  {
  }

  lemma NoCommaMade(sh: Shader, data: Analysis, prev: Token, ts: seq<Token>)
    requires ts != [] && ts[0].Name? && StepName(sh, data, prev, ts).Ok?
    ensures StepName(sh, data, prev, ts).value.out != [] && StepName(sh, data, prev, ts).value.out[0] != Text(",")
  {
    hide SkipBlanks, TextureNames, UniformNames, OpenCall, Transpile, TextureCall, SecondFactor;
    assert forall s: string :: |s + "_Out"| >= 4;
    var r := StepName(sh, data, prev, ts);
    var s := ts[0].text;
  }

  lemma ProductCommas(a: seq<Piece>, b: seq<Piece>, open: string)
    requires open != ","
    ensures CommaPieces([Text(open)] + a + [Text(") * (")] + b + [Text(")")]) == CommaPieces(a) + CommaPieces(b)
  {
    var front := [Text(open)] + a;
    PiecesConcat([Text(open)], a);
    PiecesConcat(front, [Text(") * (")]);
    PiecesConcat(front + [Text(") * (")], b);
    PiecesConcat(front + [Text(") * (")] + b, [Text(")")]);
  }

  lemma SumCommas(a: seq<Piece>, b: seq<Piece>, c: seq<Piece>)
    ensures CommaPieces([Text("((")] + a + [Text(") * (")] + b + [Text(")) + (")] + c + [Text(")")])
         == CommaPieces(a) + CommaPieces(b) + CommaPieces(c)
  {
    var front := [Text("((")] + a + [Text(") * (")] + b;
    ProductCommas(a, b, "((");
    PiecesConcat(front, [Text(")")]);
    PiecesConcat(front, [Text(")) + (")]);
    PiecesConcat(front + [Text(")) + (")], c);
    PiecesConcat(front + [Text(")) + (")] + c, [Text(")")]);
  }

  lemma {:induction false} ProductFew(sh: Shader, data: Analysis, ts: seq<Token>, left: nat, ctx: set<Token>)
    requires ts != [] && Covered(ts, left, ctx) && Mild(sh, data, ctx)
    ensures Few(ts, Multiplication(sh, data, ts), left)
    decreases |ts|, 0
  {
    hide Transpile, SkipBlanks, OpenCall, SecondFactor, CommaPieces, CommaTokens, Mild, AllSourced;
    var args := OpenCall(ts[1..]);
    if args != [] {
      OpenCallSuffix(ts[1..], ts);
      CoveredSuffix(args, ts, left, ctx);
      FewerBehind(args[1..], ts);
      GoesOnFew(sh, data, args[0], args[1..], ts, ",", left, ctx);
      var a := Transpile(sh, data, args[0], args[1..], ",");
      if a.Ok? {
        SecondFew(sh, data, a.value.last, a.value.rest, ts, left, ctx);
        var b := SecondFactor(sh, data, a.value.last, a.value.rest);
        if b.Ok? {
          ProductCommas(a.value.out, b.value.out, "(");
        }
      }
    }
  }

  lemma {:induction false} SecondFew(sh: Shader, data: Analysis, last: Token, rest: seq<Token>, ts: seq<Token>,
                                     left: nat, ctx: set<Token>)
    requires Suffix(rest, ts) && Covered(ts, left, ctx) && Mild(sh, data, ctx)
    requires |rest| >= left ==> InContext(last, ctx)
    ensures Few(rest, SecondFactor(sh, data, last, rest), left)
    decreases |rest|, 5
  {
    hide Transpile, SkipBlanks, CommaPieces, CommaTokens, Mild, AllSourced;
    SkipBlanksSuffix(rest);
    SuffixTransitive(SkipBlanks(rest), rest, ts);
    FewerBehind(SkipBlanks(rest), rest);
    if |rest| >= left {
      CoveredSuffix(rest, ts, left, ctx);
    }
    GoesOnFew(sh, data, BeforeOperand(last, rest), SkipBlanks(rest), ts, ")", left, ctx);
  }

  lemma {:induction false} SumFew(sh: Shader, data: Analysis, ts: seq<Token>, left: nat, ctx: set<Token>)
    requires ts != [] && Covered(ts, left, ctx) && Mild(sh, data, ctx)
    ensures Few(ts, MultiplyAdd(sh, data, ts), left)
    decreases |ts|, 0
  {
    hide Transpile, SkipBlanks, OpenCall, CommaPieces, CommaTokens, Mild, AllSourced;
    var args := OpenCall(ts[1..]);
    if args != [] {
      OpenCallSuffix(ts[1..], ts);
      CoveredSuffix(args, ts, left, ctx);
      FewerBehind(args[1..], ts);
      GoesOnFew(sh, data, args[0], args[1..], ts, ",", left, ctx);
      var a := Transpile(sh, data, args[0], args[1..], ",");
      if a.Ok? {
        GoesOnFew(sh, data, a.value.last, a.value.rest, ts, ",", left, ctx);
        var b := Transpile(sh, data, a.value.last, a.value.rest, ",");
        if b.Ok? {
          GoesOnFew(sh, data, b.value.last, b.value.rest, ts, ")", left, ctx);
          var c := Transpile(sh, data, b.value.last, b.value.rest, ")");
          if c.Ok? {
            SumCommas(a.value.out, b.value.out, c.value.out);
          }
        }
      }
    }
  }

  // ---------------------------------------------------------------------------------------------------------
  // Argument lists that are split at their commas

  /** No function and no texture is called like the end of a file or an opening parenthesis. */
  ghost predicate MarksAreHarmless(sh: Shader, data: Analysis) {
    Harmless(sh, data, NONE) && Harmless(sh, data, OPEN)
  }

  /** An argument list with at most two commas, inner ones included, in which nothing is passed on and nothing is
      sampled. `ts` starts behind the opening parenthesis. */
  ghost predicate Short(sh: Shader, data: Analysis, ts: seq<Token>) {
    && ts != [] && ts[0].text != "," && ts[0].text != ")"
    && CommaTokens(Scanned(ts, ")")) <= 2
    && forall t :: t in Scanned(ts, ")") ==> Harmless(sh, data, t)
  }

  /** What stands in front of `ts` has a short argument list if that list is split. */
  ghost predicate SplitsWell(sh: Shader, data: Analysis, ts: seq<Token>)
    requires ts != []
  {
    && (ts[0].text == "int3" ==> ts[0].Name? && (|ts| > 1 && ts[1] == OPEN ==> Short(sh, data, ts[2..])))
    && (FormOf(sh, ts).Call? && FormOf(sh, ts).commas == 0 ==> Short(sh, data, FormOf(sh, ts).args))
  }

  /** The same for all but the last `left` tokens. */
  ghost predicate AllSplitWell(sh: Shader, data: Analysis, ts: seq<Token>, left: nat) {
    forall k :: 0 <= k < |ts| - left ==> SplitsWell(sh, data, ts[k..])
  }

  lemma SplitWellSuffix(sh: Shader, data: Analysis, rest: seq<Token>, ts: seq<Token>, left: nat)
    requires Suffix(rest, ts) && AllSplitWell(sh, data, ts, left)
    ensures AllSplitWell(sh, data, rest, left)
  {
    hide SplitsWell;
    forall k | 0 <= k < |rest| - left
      ensures SplitsWell(sh, data, rest[k..])
    {
      assert rest[k..] == ts[|ts| - |rest| + k..];
    }
  }

  /** Between the parentheses of a short list, a walk prints at most two commas and something else first. */
  lemma ShortPrintsFew(sh: Shader, data: Analysis, ts: seq<Token>)
    requires Short(sh, data, ts) && Lexical(ts) && Complete(sh, ts, ")") && MarksAreHarmless(sh, data)
    requires Transpile(sh, data, OPEN, ts, ")").Ok?
    ensures var out := Transpile(sh, data, OPEN, ts, ")").value.out;
      CommaPieces(out) <= 2 && out != [] && out[0] != Text(",")
  {
    hide Transpile, Lexical, Complete, SkipTo, CommaTokens, CommaPieces, Harmless;
    var rest, ctx := SkipTo(ts, ")"), (set t | t in Scanned(ts, ")")) + {OPEN};
    WalkEnds(sh, data, OPEN, ts, ")");
    SkipToSuffix(ts, ")");
    assert Covered(ts, |rest|, ctx) by { assert forall k :: 0 <= k < |ts| - |rest| ==> Scanned(ts, ")")[k] == ts[k]; }
    WalkFew(sh, data, OPEN, ts, ")", |rest|, ctx);
    assert ts == Scanned(ts, ")") + rest;
    TokensConcat(Scanned(ts, ")"), rest);
    StartsPlainly(sh, data, OPEN, ts, ")");
  }

  lemma StartsPlainly(sh: Shader, data: Analysis, prev: Token, ts: seq<Token>, end: string)
    requires ts != [] && ts[0].text != "," && ts[0].text != end && Transpile(sh, data, prev, ts, end).Ok?
    ensures var out := Transpile(sh, data, prev, ts, end).value.out;
      out != [] && out[0] != Text(",") && Step(sh, data, prev, ts).Ok? && Step(sh, data, prev, ts).value.out != []
      && out[0] == Step(sh, data, prev, ts).value.out[0]
  {
    hide Step;
    StepPrints(sh, data, prev, ts);
  }

  lemma StepPrints(sh: Shader, data: Analysis, prev: Token, ts: seq<Token>)
    requires ts != [] && ts[0].text != "," && Step(sh, data, prev, ts).Ok?
    ensures Step(sh, data, prev, ts).value.out != [] && Step(sh, data, prev, ts).value.out[0] != Text(",")
  {
    hide StepName, Transpile, CallArguments;
    if ts[0].Name? {
      NoCommaMade(sh, data, prev, ts);
    }
  }

  /** The constructor of a short list is accepted. */
  lemma IntsAreAccepted(sh: Shader, data: Analysis, ts: seq<Token>)
    requires Short(sh, data, ts) && Lexical(ts) && Complete(sh, ts, ")") && MarksAreHarmless(sh, data)
    requires Transpile(sh, data, OPEN, ts, ")").Ok?
    ensures CallArguments(data, "int3", Transpile(sh, data, OPEN, ts, ")").value.out).Ok?
  {
    hide *;
    ShortPrintsFew(sh, data, ts);
    IntsFit(data, Transpile(sh, data, OPEN, ts, ")").value.out);
  }

  lemma IntsFit(data: Analysis, ps: seq<Piece>)
    requires CommaPieces(ps) <= 2 && ps != [] && ps[0] != Text(",")
    ensures IntArguments(ps).Ok? && CallArguments(data, "int3", ps).Ok?
  {
    hide Split, DataOf, CommaPieces;
    PartsFit(ps);
  }

  /** The read of a short list is accepted. */
  lemma ReadIsAccepted(sh: Shader, data: Analysis, ts: seq<Token>)
    requires Short(sh, data, ts) && Lexical(ts) && Complete(sh, ts, ")") && MarksAreHarmless(sh, data)
    requires Transpile(sh, data, OPEN, ts, ")").Ok?
    ensures ReadCall(Transpile(sh, data, OPEN, ts, ")").value.out).Ok?
  {
    hide *;
    var out := Transpile(sh, data, OPEN, ts, ")").value.out;
    ShortPrintsFew(sh, data, ts);
    if |out| >= 3 && out[0] == Copied("int3") && out[1] == Text("(") {
      ShortStarts(sh, data, ts);
      CoordinatesStay(sh, data, ts);
      ReadFits(out);
    } else {
      ReadsPlainly(out);
    }
  }

  lemma ShortStarts(sh: Shader, data: Analysis, ts: seq<Token>)
    requires Short(sh, data, ts)
    ensures ts != [] && ts[0].text != "," && ts[0].text != ")"
  {
    hide CommaTokens, Scanned;
  }

  lemma ReadsPlainly(out: seq<Piece>)
    requires |out| < 3 || out[0] != Copied("int3") || out[1] != Text("(")
    ensures ReadCall(out).Ok?
  {
    hide Split;
  }

  ghost predicate HasPlain(ps: seq<Piece>) {
    exists k :: 0 <= k < |ps| && ps[k] != Text(",")
  }

  lemma ReadFits(out: seq<Piece>)
    requires CommaPieces(out) <= 2 && |out| >= 3 && HasPlain(out[2..|out| - 1])
    ensures ReadCall(out).Ok?
  {
    var ps := out[2..|out| - 1];
    assert out == out[..2] + ps + out[|out| - 1..];
    PiecesConcat(out[..2] + ps, out[|out| - 1..]);
    PiecesConcat(out[..2], ps);
    PartsFit(ps);
    ReadOfParts(out);
  }

  lemma ReadOfParts(out: seq<Piece>)
    requires |out| >= 3 && 1 <= |Split(out[2..|out| - 1], 3, [])| <= 3
    ensures ReadCall(out).Ok?
  {
    hide Split;
  }

  /** Behind the name of an `int3` constructor and its parenthesis comes something else than commas. */
  lemma CoordinatesStay(sh: Shader, data: Analysis, ts: seq<Token>)
    requires ts != [] && ts[0].text != "," && ts[0].text != ")" && Lexical(ts)
    requires Transpile(sh, data, OPEN, ts, ")").Ok?
    requires var out := Transpile(sh, data, OPEN, ts, ")").value.out;
      |out| >= 3 && out[0] == Copied("int3") && out[1] == Text("(")
    ensures var out := Transpile(sh, data, OPEN, ts, ")").value.out; HasPlain(out[2..|out| - 1])
  {
    hide *;
    var out := Transpile(sh, data, OPEN, ts, ")").value.out;
    WalkPrints(sh, data, OPEN, ts, ")");
    FirstIsCopied(sh, data, OPEN, ts, "int3");
    var us := ts[1..];
    var more := Transpile(sh, data, ts[0], us, ")").value.out;
    assert more == out[1..];
    WalkPrints(sh, data, ts[0], us, ")");
    LexicalSuffix(us, ts) by { assert Suffix(us, ts) by { SuffixOfItself(ts); } }
    var step := Step(sh, data, ts[0], us).value.out;
    OpensPlainly(sh, data, ts[0], us);
    var j :| 1 <= j < |step| - 1 && step[j] != Text(",");
    assert out[j + 1] == step[j] && out[2..|out| - 1][j - 1] == out[j + 1];
    PlainAt(out[2..|out| - 1], j - 1);
  }

  lemma PlainAt(ps: seq<Piece>, k: nat)
    requires k < |ps| && ps[k] != Text(",")
    ensures HasPlain(ps)
  {
  }

  /** Something printed comes from a first step and a walk behind it. */
  lemma WalkPrints(sh: Shader, data: Analysis, prev: Token, ts: seq<Token>, end: string)
    requires var r := Transpile(sh, data, prev, ts, end); r.Ok? && r.value.out != []
    ensures ts != [] && ts[0].text != end && Step(sh, data, prev, ts).Ok? && Step(sh, data, prev, ts).value.out != []
    ensures var step := Step(sh, data, prev, ts).value;
      var more := Transpile(sh, data, step.last, step.rest, end);
      more.Ok? && Transpile(sh, data, prev, ts, end).value.out == step.out + more.value.out
  {
    hide Step;
    if ts[0].text == "," {
      CommaIsPrinted(sh, data, prev, ts);
    } else {
      StepPrints(sh, data, prev, ts);
    }
  }

  lemma CommaIsPrinted(sh: Shader, data: Analysis, prev: Token, ts: seq<Token>)
    requires ts != [] && ts[0].text == "," && Step(sh, data, prev, ts).Ok?
    ensures Step(sh, data, prev, ts).value.out != []
  {
    hide StepName, Transpile, CallArguments;
    if ts[0].Name? {
      NoCommaMade(sh, data, prev, ts);
    }
  }

  lemma FirstIsCopied(sh: Shader, data: Analysis, prev: Token, ts: seq<Token>, n: string)
    requires ts != [] && Step(sh, data, prev, ts).Ok? && Step(sh, data, prev, ts).value.out != []
    requires Step(sh, data, prev, ts).value.out[0] == Copied(n)
    ensures Step(sh, data, prev, ts) == Ok(Chunk([Copied(n)], ts[0], ts[1..])) && ts[0] == Name(n)
  {
    hide *;
    if ts[0].Name? {
      NameOut(sh, data, prev, ts);
    } else {
      MarkOut(sh, data, prev, ts);
    }
  }

  /** What a name prints first. */
  lemma NameOut(sh: Shader, data: Analysis, prev: Token, ts: seq<Token>)
    requires ts != [] && ts[0].Name? && Step(sh, data, prev, ts).Ok?
    ensures var step := Step(sh, data, prev, ts).value;
      && step.out != []
      && (step.out[0].Copied? ==> step == Chunk([step.out[0]], ts[0], ts[1..]) && ts[0].text == step.out[0].name)
      && (step.out[0] == Text("(") ==> ts[0] == Name("mul"))
  {
    hide *;
    if ts[0] == Name("mul") {
      ProductStep(sh, data, prev, ts);
      ProductOut(sh, data, ts);
    } else if ts[0] == Name("mad") {
      SumStep(sh, data, prev, ts);
      SumOut(sh, data, ts);
    } else if SamplesHere(sh, ts[0].text) {
      SamplingStep(sh, data, prev, ts);
      SamplingOut(sh, data, ts);
    } else {
      WordOut(sh, data, prev, ts);
    }
  }

  lemma ProductOut(sh: Shader, data: Analysis, ts: seq<Token>)
    requires ts != [] && Multiplication(sh, data, ts).Ok?
    ensures var out := Multiplication(sh, data, ts).value.out;
      |out| >= 3 && out[0] == Text("(") && exists j :: 1 <= j < |out| - 1 && out[j] != Text(",")
  {
    hide Transpile, SecondFactor, OpenCall;
    var args := OpenCall(ts[1..]);
    var a := Transpile(sh, data, args[0], args[1..], ",").value.out;
    assert Multiplication(sh, data, ts).value.out[|a| + 1] == Text(") * (");
  }

  lemma SumOut(sh: Shader, data: Analysis, ts: seq<Token>)
    requires ts != [] && MultiplyAdd(sh, data, ts).Ok?
    ensures var out := MultiplyAdd(sh, data, ts).value.out; out != [] && out[0] == Text("((")
  {
    hide Transpile, SkipBlanks, OpenCall;
  }

  lemma SamplingOut(sh: Shader, data: Analysis, ts: seq<Token>)
    requires ts != [] && SamplerCall(sh, data, ts).Ok?
    ensures var out := SamplerCall(sh, data, ts).value.out; out != [] && out[0].TextureRef?
  {
    hide TextureCall, SkipBlanks, OpenCall;
  }

  lemma WordOut(sh: Shader, data: Analysis, prev: Token, ts: seq<Token>)
    requires ts != [] && ts[0].Name? && Step(sh, data, prev, ts).Ok?
    requires ts[0] != Name("mul") && ts[0] != Name("mad") && !SamplesHere(sh, ts[0].text)
    ensures var step := Step(sh, data, prev, ts).value;
      && |step.out| == 1 && step.out[0] != Text("(") && step.last == ts[0] && step.rest == ts[1..]
      && (step.out[0].Copied? ==> ts[0].text == step.out[0].name)
  {
    hide Multiplication, MultiplyAdd, SamplerCall, TextureNames, UniformNames, SkipBlanks;
    assert forall s: string :: |s + "_Out"| >= 4;
  }

  /** What anything else prints first. */
  lemma MarkOut(sh: Shader, data: Analysis, prev: Token, ts: seq<Token>)
    requires ts != [] && !ts[0].Name? && Step(sh, data, prev, ts).Ok?
    ensures var out := Step(sh, data, prev, ts).value.out;
      out != [] && (out[0] == Text("{") || out[0] == Text("(") || out[0] == Text(ts[0].text))
      && (ts[0] != OPEN && out[0] == Text("(") ==> ts[0].text == "(")
  {
    hide Transpile, CallArguments, StepName;
  }

  /** What begins with an opening parenthesis behind an `int3` prints more than commas in front of its last piece. */
  lemma OpensPlainly(sh: Shader, data: Analysis, prev: Token, us: seq<Token>)
    requires us != [] && Lexical(us) && prev.text == "int3" && Step(sh, data, prev, us).Ok?
    requires Step(sh, data, prev, us).value.out != [] && Step(sh, data, prev, us).value.out[0] == Text("(")
    ensures var out := Step(sh, data, prev, us).value.out;
      exists j :: 1 <= j < |out| - 1 && out[j] != Text(",")
  {
    hide *;
    if us[0].Name? {
      NameOut(sh, data, prev, us);
      ProductStep(sh, data, prev, us);
      ProductOut(sh, data, us);
    } else {
      MarkOut(sh, data, prev, us);
      OnlyOpens(us);
      GroupOut(sh, data, prev, us);
    }
  }

  lemma OnlyOpens(us: seq<Token>)
    requires us != [] && Lexical(us)
    ensures us[0].text == "(" ==> us[0] == OPEN
  {
  }

  lemma GroupOut(sh: Shader, data: Analysis, prev: Token, us: seq<Token>)
    requires us != [] && us[0] == OPEN && prev.text == "int3" && Step(sh, data, prev, us).Ok?
    ensures var out := Step(sh, data, prev, us).value.out;
      exists j :: 1 <= j < |out| - 1 && out[j] != Text(",")
  {
    hide Transpile, CallArguments, StepName;
    var inner := Transpile(sh, data, OPEN, us[1..], ")").value.out;
    IntsStart(data, inner);
    var args := CallArguments(data, prev.text, inner).value;
    assert Step(sh, data, prev, us).value.out == [Text("(")] + args + [Text(")")];
    assert Step(sh, data, prev, us).value.out[1] == args[0];
  }

  lemma IntsStart(data: Analysis, ps: seq<Piece>)
    requires CallArguments(data, "int3", ps).Ok?
    ensures CallArguments(data, "int3", ps).value != [] && CallArguments(data, "int3", ps).value[0] != Text(",")
  {
    hide Split, DataOf;
  }

  // ---------------------------------------------------------------------------------------------------------
  // Walks that succeed

  /** The tokens up to `end` can be translated; `left` tokens belong to nothing that is walked over. */
  ghost predicate Translatable(sh: Shader, data: Analysis, ts: seq<Token>, end: string, left: nat) {
    && Lexical(ts) && Delimits(end) && Complete(sh, ts, end) && Closed(ts, end) && |SkipTo(ts, end)| >= left
    && AllSplitWell(sh, data, ts, left) && MarksAreHarmless(sh, data)
  }

  /** If `ts` begins with the argument list of an `int3` constructor, it is a short one. */
  ghost predicate Ready(sh: Shader, data: Analysis, prev: Token, ts: seq<Token>) {
    prev.text == "int3" && ts != [] && ts[0] == OPEN ==> Short(sh, data, ts[1..])
  }

  /** A walk that succeeds and stops at the token it looks for. */
  ghost predicate Arrives(r: Result<Chunk>, rest: seq<Token>, end: string) {
    r.Ok? && r.value.rest == rest && r.value.last.text == end
  }

  lemma ReadyUnless(sh: Shader, data: Analysis, prev: Token, ts: seq<Token>)
    requires prev.text != "int3"
    ensures Ready(sh, data, prev, ts)
  {
    hide Short;
  }

  lemma {:induction false} WalkArrives(sh: Shader, data: Analysis, prev: Token, ts: seq<Token>, end: string, left: nat)
    requires Translatable(sh, data, ts, end, left) && Ready(sh, data, prev, ts)
    ensures Arrives(Transpile(sh, data, prev, ts, end), SkipTo(ts, end), end)
    decreases |ts|, 3
  {
    hide *;
    Parts(sh, data, ts, end, left);
    if ts[0].text == end {
      ArrivesAtOnce(sh, data, prev, ts, end);
      return;
    }
    NothingBroken(sh, ts, end);
    var inner, close := FirstThing(sh, ts);
    var step := Step(sh, data, prev, ts);
    if Plain(sh, ts) {
      PlainArrives(sh, data, prev, ts, end, left);
    } else {
      InnerIsTranslatable(sh, data, ts, inner, close, end, left);
      StepArrives(sh, data, prev, ts, inner, close, left);
      StepGoesOn(sh, data, prev, ts, inner, close);
    }
    WalkArrives(sh, data, step.value.last, step.value.rest, end, left);
    WalkGoesOn(sh, data, prev, ts, end);
    ArrivesPrefixed(step.value.out, Transpile(sh, data, step.value.last, step.value.rest, end), SkipTo(ts, end), end);
  }

  lemma ArrivesPrefixed(out: seq<Piece>, r: Result<Chunk>, rest: seq<Token>, end: string)
    requires Arrives(r, rest, end)
    ensures Arrives(Prefixed(out, r), rest, end)
  {
  }

  lemma ArrivesAtOnce(sh: Shader, data: Analysis, prev: Token, ts: seq<Token>, end: string)
    requires ts != [] && ts[0].text == end
    ensures Arrives(Transpile(sh, data, prev, ts, end), SkipTo(ts, end), end)
  {
  }

  lemma Parts(sh: Shader, data: Analysis, ts: seq<Token>, end: string, left: nat)
    requires Translatable(sh, data, ts, end, left)
    ensures Lexical(ts) && Delimits(end) && Complete(sh, ts, end) && Closed(ts, end) && ts != []
    ensures |SkipTo(ts, end)| >= left && AllSplitWell(sh, data, ts, left) && MarksAreHarmless(sh, data)
    ensures |ts| > left && SplitsWell(sh, data, ts)
  {
    hide Complete, SkipTo, SplitsWell, Lexical, MarksAreHarmless;
    assert |SkipTo(ts, end)| < |ts|;
    assert ts[0..] == ts;
  }

  lemma Whole(sh: Shader, data: Analysis, rest: seq<Token>, ts: seq<Token>, end: string, other: string, left: nat)
    requires Translatable(sh, data, ts, other, left) && Suffix(rest, ts)
    requires Lexical(rest) && Delimits(end) && Complete(sh, rest, end) && Closed(rest, end)
    requires |SkipTo(rest, end)| >= left
    ensures Translatable(sh, data, rest, end, left)
  {
    SplitWellSuffix(sh, data, rest, ts, left);
    hide Complete, SkipTo, Lexical, Closed, AllSplitWell, MarksAreHarmless;
  }

  lemma PlainArrives(sh: Shader, data: Analysis, prev: Token, ts: seq<Token>, end: string, left: nat)
    requires Translatable(sh, data, ts, end, left) && ts != [] && ts[0].text != end && Plain(sh, ts)
    ensures var step := Step(sh, data, prev, ts);
      && step.Ok? && step.value.rest == ts[1..]
      && Translatable(sh, data, ts[1..], end, left) && Ready(sh, data, step.value.last, ts[1..])
      && SkipTo(ts[1..], end) == SkipTo(ts, end) && |ts[1..]| < |ts|
  {
    hide *;
    Parts(sh, data, ts, end, left);
    CompletePlain(sh, ts, end);
    PlainSkips(sh, ts, end);
    PlainCloses(sh, ts, end);
    SuffixOfItself(ts);
    Whole(sh, data, ts[1..], ts, end, end, left);
    if ts[0].Name? && |ts| > 1 && ts[1].Other? && ts[1].text in COMPARATORS {
      OperandFollows(sh, ts, end);
    }
    PlainStepSucceeds(sh, data, prev, ts);
    BecomesReady(sh, data, ts);
  }

  lemma PlainCloses(sh: Shader, ts: seq<Token>, end: string)
    requires ts != [] && ts[0].text != end && Plain(sh, ts) && Closed(ts, end)
    ensures Closed(ts[1..], end)
  {
    hide FormOf;
  }

  /** A comparison has an operand. */
  lemma OperandFollows(sh: Shader, ts: seq<Token>, end: string)
    requires |ts| > 1 && ts[1].text in COMPARATORS && Lexical(ts) && Closed(ts[1..], end) && Delimits(end)
    ensures SkipBlanks(ts[2..]) != []
  {
    assert ts[1..][0] == ts[1] && ts[1..][1..] == ts[2..];
    assert Closed(ts[2..], end);
    LexicalSuffix(ts[2..], ts);
    BlanksPassed(sh, ts[2..], end);
    hide SkipBlanks;
  }

  lemma PlainStepSucceeds(sh: Shader, data: Analysis, prev: Token, ts: seq<Token>)
    requires ts != [] && Plain(sh, ts)
    requires ts[0].Name? && |ts| > 1 && ts[1].Other? && ts[1].text in COMPARATORS ==> SkipBlanks(ts[2..]) != []
    ensures var step := Step(sh, data, prev, ts); step.Ok? && step.value.last == ts[0] && step.value.rest == ts[1..]
  {
    hide Transpile, Multiplication, MultiplyAdd, SamplerCall, OpenCall, MethodForm, SkipBlanks, TextureNames,
         UniformNames;
  }

  lemma BecomesReady(sh: Shader, data: Analysis, ts: seq<Token>)
    requires ts != [] && SplitsWell(sh, data, ts)
    ensures Ready(sh, data, ts[0], ts[1..])
  {
    hide Short, FormOf;
    assert |ts| > 1 ==> ts[1..][0] == ts[1] && ts[1..][1..] == ts[2..];
  }

  lemma InnerIsTranslatable(sh: Shader, data: Analysis, ts: seq<Token>, inner: seq<Token>, close: string, end: string,
                            left: nat)
    requires Translatable(sh, data, ts, end, left) && ts != [] && ts[0].text != end && Inner(sh, ts, inner, close)
    ensures Translatable(sh, data, inner, close, left) && Enough(sh, ts) && |inner| < |ts|
    ensures Translatable(sh, data, SkipTo(inner, close), end, left) && |SkipTo(inner, close)| < |ts|
    ensures SkipTo(SkipTo(inner, close), end) == SkipTo(ts, end) && SplitsWell(sh, data, ts)
  {
    hide *;
    Parts(sh, data, ts, end, left);
    SkipsOn(sh, ts, inner, close);
    CompleteInner(sh, ts, end, inner, close);
    var rest := SkipTo(inner, close);
    SkipsFrom(sh, ts, rest, end);
    ClosesOn(sh, ts, rest, end);
    InnerSuffix(inner, rest, ts);
    Whole(sh, data, rest, ts, end, end, left);
    Parts(sh, data, rest, end, left);
    Whole(sh, data, inner, ts, close, end, left);
  }

  lemma ClosesOn(sh: Shader, ts: seq<Token>, rest: seq<Token>, end: string)
    requires ts != [] && GoesOn(sh, ts, rest) && Delimits(end) && ts[0].text != end && Closed(ts, end)
    ensures Closed(rest, end)
  {
    hide Closed, Commas, SkipTo;
  }

  lemma InnerSuffix(inner: seq<Token>, rest: seq<Token>, ts: seq<Token>)
    requires ts != [] && Suffix(inner, ts[1..]) && Suffix(rest, ts[1..])
    ensures Suffix(inner, ts) && Suffix(rest, ts) && |inner| < |ts| && |rest| < |ts|
  {
  }

  lemma StepGoesOn(sh: Shader, data: Analysis, prev: Token, ts: seq<Token>, inner: seq<Token>, close: string)
    requires ts != [] && Arrives(Step(sh, data, prev, ts), SkipTo(inner, close), close) && Delimits(close)
    ensures var step := Step(sh, data, prev, ts);
      step.Ok? && step.value.rest == SkipTo(inner, close) && Ready(sh, data, step.value.last, step.value.rest)
  {
    hide Step, SkipTo, Short;
  }

  lemma {:induction false} StepArrives(sh: Shader, data: Analysis, prev: Token, ts: seq<Token>, inner: seq<Token>,
                                       close: string, left: nat)
    requires ts != [] && Lexical(ts) && Inner(sh, ts, inner, close) && Enough(sh, ts) && SplitsWell(sh, data, ts)
    requires Translatable(sh, data, inner, close, left) && Ready(sh, data, prev, ts)
    ensures Arrives(Step(sh, data, prev, ts), SkipTo(inner, close), close) && Delimits(close)
    decreases |ts|, 2
  {
    hide *;
    Parts(sh, data, inner, close, left);
    SkipsOn(sh, ts, inner, close);
    InnerIs(sh, ts, inner, close);
    if FormOf(sh, ts).Call? {
      EnoughCommas(sh, ts);
      if ts[0] == Name("mul") || ts[0] == Name("mad") {
        CallOf(sh, ts);
      }
      if ts[0] == Name("mul") {
        ProductArrives(sh, data, ts, left);
        ProductStep(sh, data, prev, ts);
      } else if ts[0] == Name("mad") {
        SumArrives(sh, data, ts, left);
        SumStep(sh, data, prev, ts);
      } else {
        SamplingArrives(sh, data, ts, left);
        SamplingStep(sh, data, prev, ts);
      }
    } else {
      MarksAre();
      ReadyUnless(sh, data, ts[0], inner);
      WalkArrives(sh, data, ts[0], inner, close, left);
      if ts[0] == OPEN && prev.text == "int3" {
        IsShort(sh, data, prev, ts);
        ArrivesOk(Transpile(sh, data, OPEN, inner, ")"), SkipTo(inner, ")"), ")");
        IntsAreAccepted(sh, data, inner);
      }
      BracketArrives(sh, data, prev, ts, inner, close);
    }
  }

  lemma MarksAre()
    ensures BEGIN.text == "{" && OPEN.text == "(" && BEGIN != OPEN
  {
  }

  lemma IsShort(sh: Shader, data: Analysis, prev: Token, ts: seq<Token>)
    requires Ready(sh, data, prev, ts) && prev.text == "int3" && ts != [] && ts[0] == OPEN
    ensures Short(sh, data, ts[1..])
  {
    hide Short;
  }

  lemma ArrivesOk(r: Result<Chunk>, rest: seq<Token>, end: string)
    requires Arrives(r, rest, end)
    ensures r.Ok? && r.value.rest == rest && r.value.last.text == end
  {
  }

  lemma BracketArrives(sh: Shader, data: Analysis, prev: Token, ts: seq<Token>, inner: seq<Token>, close: string)
    requires ts != [] && inner == ts[1..] && ((ts[0] == BEGIN && close == "}") || (ts[0] == OPEN && close == ")"))
    requires Arrives(Transpile(sh, data, ts[0], inner, close), SkipTo(inner, close), close)
    requires ts[0] == OPEN && prev.text == "int3" ==>
        CallArguments(data, "int3", Transpile(sh, data, OPEN, inner, ")").value.out).Ok?
    ensures Arrives(Step(sh, data, prev, ts), SkipTo(inner, close), close)
  {
    hide Transpile, StepName, SkipTo, IntArguments, DataOf;
  }

  // ---------------------------------------------------------------------------------------------------------
  // Calls that succeed

  /** An operand with a comma behind it, and what the next one starts from. */
  ghost predicate Next(sh: Shader, data: Analysis, ts: seq<Token>, a: Result<Chunk>, left: nat) {
    && a.Ok? && a.value.last.text == "," && |a.value.rest| < |ts| && SkipBlanks(a.value.rest) != []
    && Translatable(sh, data, a.value.rest, ")", left) && Commas(a.value.rest) + 1 == Commas(ts)
    && SkipTo(a.value.rest, ")") == SkipTo(ts, ")") && Ready(sh, data, a.value.last, a.value.rest)
  }

  lemma {:induction false} OperandArrives(sh: Shader, data: Analysis, prev: Token, ts: seq<Token>, left: nat)
    requires Translatable(sh, data, ts, ")", left) && Commas(ts) > 0 && Ready(sh, data, prev, ts)
    ensures Next(sh, data, ts, Transpile(sh, data, prev, ts, ","), left)
    decreases |ts|, 4
  {
    hide *;
    Delimiters();
    Parts(sh, data, ts, ")", left);
    FirstComma(sh, ts);
    var rest := SkipTo(ts, ",");
    SplitParts(sh, ts, rest);
    SuffixOfItself(ts);
    Whole(sh, data, rest, ts, ")", ")", left);
    Parts(sh, data, rest, ")", left);
    Whole(sh, data, ts, ts, ",", ")", left);
    WalkArrives(sh, data, prev, ts, ",", left);
    ArrivesOk(Transpile(sh, data, prev, ts, ","), rest, ",");
    ReadyUnless(sh, data, Transpile(sh, data, prev, ts, ",").value.last, rest);
    BlanksPassed(sh, rest, ")");
    ClosedSomewhere(SkipBlanks(rest), ")");
    NextIs(sh, data, ts, Transpile(sh, data, prev, ts, ","), left);
  }

  lemma NextIs(sh: Shader, data: Analysis, ts: seq<Token>, a: Result<Chunk>, left: nat)
    requires a.Ok? && a.value.last.text == "," && |a.value.rest| < |ts| && SkipBlanks(a.value.rest) != []
    requires Translatable(sh, data, a.value.rest, ")", left) && Commas(a.value.rest) + 1 == Commas(ts)
    requires SkipTo(a.value.rest, ")") == SkipTo(ts, ")") && Ready(sh, data, a.value.last, a.value.rest)
    ensures Next(sh, data, ts, a, left)
  {
    hide Translatable, SkipBlanks, SkipTo, Commas, Ready;
  }

  lemma NextParts(sh: Shader, data: Analysis, ts: seq<Token>, a: Result<Chunk>, left: nat)
    requires Next(sh, data, ts, a, left)
    ensures a.Ok? && a.value.last.text == "," && |a.value.rest| < |ts| && SkipBlanks(a.value.rest) != []
    ensures Translatable(sh, data, a.value.rest, ")", left) && Commas(a.value.rest) + 1 == Commas(ts)
    ensures SkipTo(a.value.rest, ")") == SkipTo(ts, ")") && Ready(sh, data, a.value.last, a.value.rest)
  {
    hide Translatable, SkipBlanks, SkipTo, Commas, Ready;
  }

  lemma ClosedSomewhere(ts: seq<Token>, end: string)
    requires Closed(ts, end)
    ensures ts != []
  {
  }

  lemma SplitParts(sh: Shader, ts: seq<Token>, rest: seq<Token>)
    requires SplitAt(sh, ts, rest) && Complete(sh, ts, ")") && Closed(ts, ")") && ts != [] && rest == SkipTo(ts, ",")
    ensures Suffix(rest, ts) && |rest| < |ts| && Lexical(rest) && Commas(rest) + 1 == Commas(ts)
    ensures SkipTo(rest, ")") == SkipTo(ts, ")") && Complete(sh, ts, ",") && Complete(sh, rest, ")")
    ensures Closed(ts, ",") && Closed(rest, ")") && |SkipTo(rest, ")")| <= |rest|
  {
    hide Complete, Closed, Commas, Lexical, SkipTo;
    assert |SkipTo(ts, ",")| < |ts|;
  }

  lemma CallOf(sh: Shader, ts: seq<Token>)
    requires ts != [] && FormOf(sh, ts).Call? && (ts[0] == Name("mul") || ts[0] == Name("mad"))
    ensures OpenCall(ts[1..]) != [] && FormOf(sh, ts).args == OpenCall(ts[1..])[1..]
    ensures FormOf(sh, ts).commas == if ts[0] == Name("mul") then 1 else 2
  {
    hide OpenCall;
  }

  /** The parenthesis in front of the arguments is no name. */
  lemma FirstReady(sh: Shader, data: Analysis, ts: seq<Token>)
    requires OpenCall(ts) != []
    ensures Ready(sh, data, OpenCall(ts)[0], OpenCall(ts)[1..])
  {
    hide Short, SkipBlanks;
  }

  lemma {:induction false} ProductArrives(sh: Shader, data: Analysis, ts: seq<Token>, left: nat)
    requires ts != [] && ts[0] == Name("mul") && FormOf(sh, ts).Call?
    requires var args := FormOf(sh, ts).args; Translatable(sh, data, args, ")", left) && Commas(args) >= 1
    ensures FormOf(sh, ts).commas == 1 && Arrives(Multiplication(sh, data, ts), SkipTo(FormOf(sh, ts).args, ")"), ")")
    decreases |ts|, 1
  {
    hide *;
    CallOf(sh, ts);
    var args := OpenCall(ts[1..]);
    FirstReady(sh, data, ts[1..]);
    OperandArrives(sh, data, args[0], args[1..], left);
    var a := Transpile(sh, data, args[0], args[1..], ",");
    NextParts(sh, data, args[1..], a, left);
    BlanksAreTranslatable(sh, data, a.value.last, a.value.rest, left);
    WalkArrives(sh, data, BeforeOperand(a.value.last, a.value.rest), SkipBlanks(a.value.rest), ")", left);
    ProductWorks(sh, data, ts, SkipTo(args[1..], ")"));
  }

  lemma ProductWorks(sh: Shader, data: Analysis, ts: seq<Token>, rest: seq<Token>)
    requires ts != [] && OpenCall(ts[1..]) != []
    requires var args := OpenCall(ts[1..]);
      var a := Transpile(sh, data, args[0], args[1..], ",");
      a.Ok? && SkipBlanks(a.value.rest) != []
      && Arrives(Transpile(sh, data, BeforeOperand(a.value.last, a.value.rest), SkipBlanks(a.value.rest), ")"),
                 rest, ")")
    ensures Arrives(Multiplication(sh, data, ts), rest, ")")
  {
    hide Transpile, OpenCall, SkipBlanks, BeforeOperand;
  }

  /** The blanks in front of a second factor. */
  lemma BlanksAreTranslatable(sh: Shader, data: Analysis, last: Token, ts: seq<Token>, left: nat)
    requires Translatable(sh, data, ts, ")", left) && last.text == ","
    ensures Translatable(sh, data, SkipBlanks(ts), ")", left) && SkipTo(SkipBlanks(ts), ")") == SkipTo(ts, ")")
    ensures Ready(sh, data, BeforeOperand(last, ts), SkipBlanks(ts)) && |SkipBlanks(ts)| <= |ts|
  {
    hide *;
    Parts(sh, data, ts, ")", left);
    Delimiters();
    BlanksPassed(sh, ts, ")");
    Whole(sh, data, SkipBlanks(ts), ts, ")", ")", left);
    Parts(sh, data, SkipBlanks(ts), ")", left);
    BeforeIsNoName(sh, data, last, ts, left);
    ReadyUnless(sh, data, BeforeOperand(last, ts), SkipBlanks(ts));
  }

  lemma BeforeIsNoName(sh: Shader, data: Analysis, last: Token, ts: seq<Token>, left: nat)
    requires AllSplitWell(sh, data, ts, left) && |SkipBlanks(ts)| >= left && last.text == ","
    ensures BeforeOperand(last, ts).text != "int3" && |SkipBlanks(ts)| <= |ts|
  {
    hide FormOf, Short;
    var k := |ts| - |SkipBlanks(ts)|;
    if k > 0 {
      SkippedIsBlank(ts, k - 1);
      assert SplitsWell(sh, data, ts[k - 1..]) && ts[k - 1..][0] == ts[k - 1];
    }
  }

  lemma SkippedIsBlank(ts: seq<Token>, k: nat)
    requires k < |ts| - |SkipBlanks(ts)|
    ensures ts[k].Blank?
  {
    if k > 0 {
      SkippedIsBlank(ts[1..], k - 1);
    }
  }

  lemma {:induction false} SumArrives(sh: Shader, data: Analysis, ts: seq<Token>, left: nat)
    requires ts != [] && ts[0] == Name("mad") && FormOf(sh, ts).Call?
    requires var args := FormOf(sh, ts).args; Translatable(sh, data, args, ")", left) && Commas(args) >= 2
    ensures FormOf(sh, ts).commas == 2 && Arrives(MultiplyAdd(sh, data, ts), SkipTo(FormOf(sh, ts).args, ")"), ")")
    decreases |ts|, 1
  {
    hide *;
    CallOf(sh, ts);
    var args := OpenCall(ts[1..]);
    FirstReady(sh, data, ts[1..]);
    OperandArrives(sh, data, args[0], args[1..], left);
    var a := Transpile(sh, data, args[0], args[1..], ",");
    NextParts(sh, data, args[1..], a, left);
    OperandArrives(sh, data, a.value.last, a.value.rest, left);
    var b := Transpile(sh, data, a.value.last, a.value.rest, ",");
    NextParts(sh, data, a.value.rest, b, left);
    WalkArrives(sh, data, b.value.last, b.value.rest, ")", left);
    SumWorks(sh, data, ts, SkipTo(args[1..], ")"));
  }

  lemma SumWorks(sh: Shader, data: Analysis, ts: seq<Token>, rest: seq<Token>)
    requires ts != [] && OpenCall(ts[1..]) != []
    requires var args := OpenCall(ts[1..]);
      var a := Transpile(sh, data, args[0], args[1..], ",");
      a.Ok? && SkipBlanks(a.value.rest) != [] &&
      var b := Transpile(sh, data, a.value.last, a.value.rest, ",");
      b.Ok? && SkipBlanks(b.value.rest) != []
      && Arrives(Transpile(sh, data, b.value.last, b.value.rest, ")"), rest, ")")
    ensures Arrives(MultiplyAdd(sh, data, ts), rest, ")")
  {
    hide Transpile, OpenCall, SkipBlanks;
  }

  lemma {:induction false} SamplingArrives(sh: Shader, data: Analysis, ts: seq<Token>, left: nat)
    requires ts != [] && ts[0].Name? && SamplesHere(sh, ts[0].text) && FormOf(sh, ts).Call? && SplitsWell(sh, data, ts)
    requires Lexical(ts)
    requires var form := FormOf(sh, ts);
      Translatable(sh, data, form.args, ")", left) && Commas(form.args) >= form.commas
    ensures Arrives(SamplerCall(sh, data, ts), SkipTo(FormOf(sh, ts).args, ")"), ")")
    decreases |ts|, 1
  {
    hide *;
    SamplingStep(sh, data, NONE, ts);
    var dot := SkipBlanks(ts[1..]);
    MethodParts(dot);
    var call := SkipBlanks(dot[1..]);
    var args := OpenCall(call[1..]);
    FirstReady(sh, data, call[1..]);
    ShortIfWanted(sh, data, ts);
    MethodOpens(sh, ts);
    AccessArrives(sh, data, call[0].text, args, left);
    ArrivesOk(TextureCall(sh, data, call[0].text, args), SkipTo(args[1..], ")"), ")");
    SamplingParts(sh, data, ts);
    ArrivesAlike(TextureCall(sh, data, call[0].text, args), SamplerCall(sh, data, ts), SkipTo(args[1..], ")"), ")");
  }

  lemma MethodOpens(sh: Shader, ts: seq<Token>)
    requires ts != [] && Lexical(ts) && MethodForm(SkipBlanks(ts[1..])).Call?
    ensures var dot := SkipBlanks(ts[1..]);
      dot != [] && var call := SkipBlanks(dot[1..]);
      call != [] && OpenCall(call[1..]) != [] && OpenCall(call[1..])[0] == OPEN
  {
    hide *;
    Delimiters();
    var dot := SkipBlanks(ts[1..]);
    MethodParts(dot);
    SuffixOfItself(ts);
    LexicalSuffix(ts[1..], ts);
    BlanksPassed(sh, ts[1..], ")");
    SuffixOfItself(dot);
    LexicalSuffix(dot[1..], dot);
    BlanksPassed(sh, dot[1..], ")");
    var call := SkipBlanks(dot[1..]);
    SuffixOfItself(call);
    LexicalSuffix(call[1..], call);
    OpenedPassed(sh, call[1..], ")");
  }

  lemma ShortIfWanted(sh: Shader, data: Analysis, ts: seq<Token>)
    requires ts != [] && SplitsWell(sh, data, ts) && FormOf(sh, ts).Call?
    ensures FormOf(sh, ts).commas == 0 ==> Short(sh, data, FormOf(sh, ts).args)
  {
    hide Short, FormOf;
  }

  lemma ArrivesAlike(a: Result<Chunk>, b: Result<Chunk>, rest: seq<Token>, end: string)
    requires Arrives(a, rest, end) && b.Ok? && b.value.rest == a.value.rest && b.value.last == a.value.last
    ensures Arrives(b, rest, end)
  {
  }

  lemma {:induction false} AccessArrives(sh: Shader, data: Analysis, call: string, args: seq<Token>, left: nat)
    requires args != [] && call in {"Load", "Sample", "SampleBias", "SampleLevel", "SampleGrad"}
    requires Translatable(sh, data, args[1..], ")", left) && Commas(args[1..]) >= Wanted(call)
    requires Ready(sh, data, args[0], args[1..]) && (Wanted(call) == 0 ==> Short(sh, data, args[1..]))
    requires args[0] == OPEN
    ensures Arrives(TextureCall(sh, data, call, args), SkipTo(args[1..], ")"), ")")
    decreases |args|, 1
  {
    hide *;
    var ts, rest := args[1..], SkipTo(args[1..], ")");
    WantedIs();
    if call == "Load" {
      WalkArrives(sh, data, args[0], ts, ")", left);
      ArrivesOk(Transpile(sh, data, args[0], ts, ")"), rest, ")");
      Parts(sh, data, ts, ")", left);
      ReadIsAccepted(sh, data, ts);
      LoadWorks(sh, data, args, rest);
      return;
    }
    OperandArrives(sh, data, args[0], ts, left);
    var a := Transpile(sh, data, args[0], ts, ",");
    NextParts(sh, data, ts, a, left);
    if call == "Sample" {
      WalkArrives(sh, data, a.value.last, a.value.rest, ")", left);
      SampleWorks(sh, data, args, rest);
      return;
    }
    OperandArrives(sh, data, a.value.last, a.value.rest, left);
    var b := Transpile(sh, data, a.value.last, a.value.rest, ",");
    NextParts(sh, data, a.value.rest, b, left);
    if call == "SampleGrad" {
      OperandArrives(sh, data, b.value.last, b.value.rest, left);
      var c := Transpile(sh, data, b.value.last, b.value.rest, ",");
      NextParts(sh, data, b.value.rest, c, left);
      WalkArrives(sh, data, c.value.last, c.value.rest, ")", left);
      GradWorks(sh, data, args, rest);
    } else {
      WalkArrives(sh, data, b.value.last, b.value.rest, ")", left);
      OptionWorks(sh, data, call, args, rest);
    }
  }

  lemma WantedIs()
    ensures Wanted("Load") == 0 && Wanted("Sample") == 1 && Wanted("SampleGrad") == 3
    ensures Wanted("SampleBias") == 2 && Wanted("SampleLevel") == 2
  {
  }

  lemma LoadWorks(sh: Shader, data: Analysis, args: seq<Token>, rest: seq<Token>)
    requires args != [] && Arrives(Transpile(sh, data, args[0], args[1..], ")"), rest, ")")
    requires ReadCall(Transpile(sh, data, args[0], args[1..], ")").value.out).Ok?
    ensures Arrives(TextureCall(sh, data, "Load", args), rest, ")")
  {
    hide Transpile, ReadCall;
  }

  lemma SampleWorks(sh: Shader, data: Analysis, args: seq<Token>, rest: seq<Token>)
    requires args != []
    requires var a := Transpile(sh, data, args[0], args[1..], ",");
      a.Ok? && SkipBlanks(a.value.rest) != []
      && Arrives(Transpile(sh, data, a.value.last, a.value.rest, ")"), rest, ")")
    ensures Arrives(TextureCall(sh, data, "Sample", args), rest, ")")
  {
    hide Transpile, SkipBlanks;
  }

  lemma OptionWorks(sh: Shader, data: Analysis, call: string, args: seq<Token>, rest: seq<Token>)
    requires args != [] && (call == "SampleBias" || call == "SampleLevel")
    requires var a := Transpile(sh, data, args[0], args[1..], ",");
      a.Ok? && SkipBlanks(a.value.rest) != [] &&
      var b := Transpile(sh, data, a.value.last, a.value.rest, ",");
      b.Ok? && SkipBlanks(b.value.rest) != []
      && Arrives(Transpile(sh, data, b.value.last, b.value.rest, ")"), rest, ")")
    ensures Arrives(TextureCall(sh, data, call, args), rest, ")")
  {
    hide Transpile, SkipBlanks;
  }

  lemma GradWorks(sh: Shader, data: Analysis, args: seq<Token>, rest: seq<Token>)
    requires args != []
    requires var a := Transpile(sh, data, args[0], args[1..], ",");
      a.Ok? && SkipBlanks(a.value.rest) != [] &&
      var b := Transpile(sh, data, a.value.last, a.value.rest, ",");
      b.Ok? && SkipBlanks(b.value.rest) != [] &&
      var c := Transpile(sh, data, b.value.last, b.value.rest, ",");
      c.Ok? && SkipBlanks(c.value.rest) != []
      && Arrives(Transpile(sh, data, c.value.last, c.value.rest, ")"), rest, ")")
    ensures Arrives(TextureCall(sh, data, "SampleGrad", args), rest, ")")
  {
    hide Transpile, SkipBlanks;
  }

  // ---------------------------------------------------------------------------------------------------------
  // Bodies

  /** The condition on the tokens of a function under which its body can be translated. */
  ghost predicate TranslatableBody(sh: Shader, i: nat)
    requires i < |sh.funcs|
  {
    var body := sh.funcs[i].body;
    && Lexical(body) && Closed(body, "}") && Complete(sh, body, "}")
    && AllSplitWell(sh, FinalAnalysis(sh), body, |SkipTo(body, "}")|) && MarksAreHarmless(sh, FinalAnalysis(sh))
  }

  /** The translation of such a body succeeds and stops at the closing brace where the analysis stops. */
  lemma BodyIsTranslated(sh: Shader, i: nat)
    requires i < |sh.funcs| && TranslatableBody(sh, i)
    ensures EmittedBody(sh, i).Ok? && EmittedBody(sh, i).value.last.text == "}"
    ensures EmittedBody(sh, i).value.rest == SkipTo(sh.funcs[i].body, "}")
  {
    var body := sh.funcs[i].body;
    hide Lexical, Closed, Complete, AllSplitWell, MarksAreHarmless, SkipTo, Transpile, FinalAnalysis, Short;
    WalkArrives(sh, FinalAnalysis(sh), BEGIN, body, "}", |SkipTo(body, "}")|);
  }
}
