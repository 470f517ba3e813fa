/** The transpiler object of the Metal back end: the analysis fills in its dictionaries, and the translation walks
    the shared token array with a cursor that every routine moves on. */
module MetalShader {
  import opened ShaderTokens
  import opened MetalTranspiler

  /** A routine that returns `r` with the cursor on `token` did what `spec` says. */
  ghost predicate Outcome(toks: seq<Token>, r: Result<seq<Piece>>, token: nat, spec: Result<Chunk>) {
    if spec.Thrown? then r.Thrown?
    else r == Ok(spec.value.out) && At(toks, token) == spec.value.last && After(toks, token) == spec.value.rest
  }

  /** Stepping back from the first token of the second operand lands on the token the translation starts behind. */
  lemma OperandStart(toks: seq<Token>, comma: nat, next: nat)
    requires comma < next < |toks| && SkipBlanks(After(toks, comma)) == toks[next..]
    ensures After(toks, next - 1) == toks[next..]
    ensures At(toks, next - 1) == BeforeOperand(toks[comma], After(toks, comma))
  {
  }

  class OBSShader {
    const toks: seq<Token>   // the token array of the whole file
    const starts: seq<nat>   // for each function, the position of its opening brace
    const shader: Shader
    var functions: Analysis
    var functionsOrder: seq<string>

    ghost predicate Valid() {
      && |starts| == |shader.funcs|
      && forall i :: 0 <= i < |starts| ==> starts[i] < |toks| && shader.funcs[i].body == After(toks, starts[i])
    }

    /** After `analyzeParameters`: every function is known, none has any needs yet. */
    constructor (toks: seq<Token>, starts: seq<nat>, shader: Shader)
      requires |starts| == |shader.funcs|
      requires forall i :: 0 <= i < |starts| ==> starts[i] < |toks| && shader.funcs[i].body == After(toks, starts[i])
      ensures Valid() && this.toks == toks && this.starts == starts && this.shader == shader
      ensures functions == Analyze(shader, 0) && functionsOrder == []
    {
      this.toks := toks;
      this.starts := starts;
      this.shader := shader;
      functionsOrder := [];
      functions := map[];
      new;
      for i := 0 to |shader.funcs|
        invariant functions == Unanalyzed(shader.funcs[..i])
        invariant functionsOrder == []
      {
        assert shader.funcs[..i + 1][..i] == shader.funcs[..i];
        functions := functions[shader.funcs[i].name := NO_NEEDS];
      }
      assert shader.funcs[..|shader.funcs|] == shader.funcs;
    }

    method AnalyzeFunctions()
      requires Valid()
      requires functions == Analyze(shader, 0) && functionsOrder == []
      modifies this
      ensures functions == Analyze(shader, |shader.funcs|)
      ensures functionsOrder == FuncNames(shader.funcs)
    {
      for i := 0 to |shader.funcs|
        invariant functions == Analyze(shader, i)
        invariant functionsOrder == FuncNames(shader.funcs[..i])
      {
        assert shader.funcs[..i + 1][..i] == shader.funcs[..i];
        AnalyzeNext(i);
      }
      assert shader.funcs[..|shader.funcs|] == shader.funcs;
    }

    method AnalyzeNext(i: nat)
      requires Valid() && i < |shader.funcs|
      modifies this
      ensures functions == old(functions)[shader.funcs[i].name := FuncData(shader, old(functions), shader.funcs[i])]
      ensures functionsOrder == old(functionsOrder) + [shader.funcs[i].name]
    {
      var f := shader.funcs[i];
      var functionData, _ := AnalyzeFunction(NO_NEEDS, starts[i], "}");
      functionData := functionData.(textures := Unique(functionData.textures));
      functionData := functionData.(samplers := Unique(functionData.samplers));
      functions := functions[f.name := functionData];
      functionsOrder := functionsOrder + [f.name];
    }

    /** Scans from behind `start` to the token `end`, recursing at every opening bracket. */
    method AnalyzeFunction(fd: FunctionData, start: nat, end: string) returns (functionData: FunctionData, token: nat)
      requires start < |toks|
      ensures start < token <= |toks|
      ensures (functionData, After(toks, token)) == ScanTo(shader, functions, fd, After(toks, start), end)
      decreases |toks| - start
    {
      functionData, token := fd, start;
      while token < |toks|
        invariant start <= token <= |toks|
        invariant ScanTo(shader, functions, fd, After(toks, start), end)
               == ScanTo(shader, functions, functionData, After(toks, token), end)
        decreases |toks| - token
      {
        token := token + 1;
        if token == |toks| || toks[token].text == end {
          break;
        }
        var t := toks[token];
        if t.Name? {
          functionData := ScanToken(shader, functions, functionData, t);
        } else if t == Other("{") {
          functionData, token := AnalyzeFunction(functionData, token, "}");
        } else if t == Other("(") {
          functionData, token := AnalyzeFunction(functionData, token, ")");
        }
      }
    }

    /** Translates from behind `start` to the token `end`. */
    method TranspileFunctionContent(start: nat, end: string) returns (r: Result<seq<Piece>>, token: nat)
      requires start <= |toks|
      ensures start <= token <= |toks| && (start < |toks| ==> start < token)
      ensures Outcome(toks, r, token, Transpile(shader, functions, At(toks, start), After(toks, start), end))
      decreases |toks| - start, 4
    {
      var content: seq<Piece> := [];
      token := start;
      ghost var result := Transpile(shader, functions, At(toks, start), After(toks, start), end);
      PrefixedNil(result);
      while token < |toks|
        invariant start <= token <= |toks|
        invariant result == Prefixed(content, Transpile(shader, functions, At(toks, token), After(toks, token), end))
        decreases |toks| - token
      {
        token := token + 1;
        if token == |toks| || toks[token].text == end {
          break;
        }
        assert After(toks, token - 1) == toks[token..];
        var piece: Result<seq<Piece>>;
        piece, token := TranspileToken(token);
        if piece.Thrown? {
          return Thrown, token;
        }
        PrefixedTwice(content, piece.value, Transpile(shader, functions, At(toks, token), After(toks, token), end));
        content := content + piece.value;
      }
      assert content + [] == content;
      r := Ok(content);
    }

    /** Translates the token under the cursor, with all that it opens. */
    method TranspileToken(start: nat) returns (r: Result<seq<Piece>>, token: nat)
      requires 0 < start < |toks|
      ensures start <= token <= |toks|
      ensures Outcome(toks, r, token, Step(shader, functions, toks[start - 1], toks[start..]))
      decreases |toks| - start, 5
    {
      assert toks[start..][1..] == After(toks, start);
      token := start;
      if toks[token].Name? {
        r, token := TranspileName(token);
      } else if toks[token] == Other("{") {
        var blockContent, close := TranspileFunctionContent(token, "}");
        r := if blockContent.Ok? then Ok([Text("{")] + blockContent.value + [Text("}")]) else Thrown;
        token := close;
      } else if toks[token] == Other("(") {
        var functionName := toks[token - 1].text;
        var parameters, close := TranspileFunctionContent(token, ")");
        if parameters.Thrown? {
          return Thrown, token;
        }
        var arguments := CallArguments(functions, functionName, parameters.value);
        r := if arguments.Ok? then Ok([Text("(")] + arguments.value + [Text(")")]) else Thrown;
        token := close;
      } else {
        r := Ok([Text(toks[token].text)]);
      }
    }

    /** Translates the name under the cursor. */
    method TranspileName(start: nat) returns (r: Result<seq<Piece>>, token: nat)
      requires 0 < start < |toks| && toks[start].Name?
      ensures start <= token <= |toks|
      ensures Outcome(toks, r, token, StepName(shader, functions, toks[start - 1], toks[start..]))
      decreases |toks| - start, 3
    {
      token := start;
      var stringToken := toks[token].text;
      var converted := ConvertType(stringToken);
      if converted.Thrown? {
        return Thrown, token;
      }
      if stringToken == "obs_glsl_compile" {
        return Ok([Text("false")]), token;
      }
      if converted.value != stringToken {
        return Ok([Text(converted.value)]), token;
      }
      var intrinsic := ConvertIntrinsic(stringToken);
      if intrinsic.Thrown? {
        return Thrown, token;
      }
      if intrinsic.value != "" {
        return Ok([Text(intrinsic.value)]), token;
      }
      assert toks[start..][1..] == After(toks, start);
      if stringToken == "mul" {
        r, token := ConvertToMTLMultiplication(start);
      } else if stringToken == "mad" {
        r, token := ConvertToMTLMultiplyAdd(start);
      } else if stringToken in TextureNames(shader) {
        r, token := CreateSampler(start);
      } else if stringToken in UniformNames(shader) && toks[token - 1].text != "." {
        r := Ok([UniformRef(stringToken)]);
      } else if stringToken in shader.inOutStructs {
        r := Ok([Text(stringToken + "_Out")]);
      } else if At(toks, token + 1).Other? && At(toks, token + 1).text in COMPARATORS {
        var next, _ := NextToken(toks, token);
        assert next == token + 1;
        var rhs, ok := NextToken(toks, next);
        assert toks[start..][2..] == After(toks, next);
        r := if ok then Ok([Compare(stringToken, toks[next].text, toks[rhs].text)]) else Thrown;
      } else {
        r := Ok([Copied(stringToken)]);
      }
    }

    method HasNextToken(token: nat) returns (ok: bool)
      requires token <= |toks|
      ensures ok <==> SkipBlanks(After(toks, token)) != []
    {
      var _, more := NextToken(toks, token);
      ok := more;
    }

    /** Finds the opening parenthesis of a call and checks that something follows it. */
    method FindOpenCall(start: nat) returns (paren: nat, ok: bool)
      requires start < |toks|
      ensures start <= paren <= |toks|
      ensures ok <==> OpenCall(After(toks, start)) != []
      ensures ok ==> start < paren < |toks| && OpenCall(After(toks, start)) == toks[paren..]
    {
      paren, ok := NextToken(toks, start);
      if ok && toks[paren].text == "(" {
        ok := HasNextToken(paren);
      } else {
        ok := false;
      }
    }

    method ConvertToMTLMultiplication(start: nat) returns (r: Result<seq<Piece>>, token: nat)
      requires start < |toks|
      ensures start <= token <= |toks|
      ensures Outcome(toks, r, token, Multiplication(shader, functions, toks[start..]))
      decreases |toks| - start, 2
    {
      token := start;
      assert toks[start..][1..] == After(toks, start);
      var paren, ok := FindOpenCall(start);
      if !ok {
        return Thrown, token;
      }
      var lhs, comma := TranspileFunctionContent(paren, ",");
      if lhs.Thrown? {
        return Thrown, token;
      }
      var rhs, close := SecondOperand(comma);
      if rhs.Thrown? {
        return Thrown, token;
      }
      r, token := Ok([Text("(")] + lhs.value + [Text(") * (")] + rhs.value + [Text(")")]), close;
    }

    method SecondOperand(comma: nat) returns (r: Result<seq<Piece>>, token: nat)
      requires comma <= |toks|
      ensures comma <= token <= |toks|
      ensures Outcome(toks, r, token, SecondFactor(shader, functions, At(toks, comma), After(toks, comma)))
      decreases |toks| - comma, 6
    {
      token := comma;
      var next, more := NextToken(toks, comma);
      if !more {
        return Thrown, token;
      }
      OperandStart(toks, comma, next);
      r, token := TranspileFunctionContent(next - 1, ")");
    }

    method ConvertToMTLMultiplyAdd(start: nat) returns (r: Result<seq<Piece>>, token: nat)
      requires start < |toks|
      ensures start <= token <= |toks|
      ensures Outcome(toks, r, token, MultiplyAdd(shader, functions, toks[start..]))
      decreases |toks| - start, 2
    {
      token := start;
      assert toks[start..][1..] == After(toks, start);
      var paren, ok := FindOpenCall(start);
      if !ok {
        return Thrown, token;
      }
      var first, comma := TranspileFunctionContent(paren, ",");
      if first.Thrown? {
        return Thrown, token;
      }
      var more := HasNextToken(comma);
      if !more {
        return Thrown, token;
      }
      var second, comma' := TranspileFunctionContent(comma, ",");
      if second.Thrown? {
        return Thrown, token;
      }
      more := HasNextToken(comma');
      if !more {
        return Thrown, token;
      }
      var third, close := TranspileFunctionContent(comma', ")");
      if third.Thrown? {
        return Thrown, token;
      }
      r := Ok([Text("((")] + first.value + [Text(") * (")] + second.value + [Text(")) + (")] + third.value
              + [Text(")")]);
      token := close;
    }

    method CreateSampler(start: nat) returns (r: Result<seq<Piece>>, token: nat)
      requires start < |toks|
      ensures start <= token <= |toks|
      ensures Outcome(toks, r, token, SamplerCall(shader, functions, toks[start..]))
      decreases |toks| - start, 2
    {
      token := start;
      var stringToken := toks[start].text;
      assert toks[start..][1..] == After(toks, start);
      var dot, ok := NextToken(toks, start);
      if !ok || toks[dot].text != "." {
        return Thrown, token;
      }
      var call, named := NextToken(toks, dot);
      if !named || !toks[call].Name? {
        return Thrown, token;
      }
      var paren, open := FindOpenCall(call);
      if !open {
        return Thrown, token;
      }
      assert SkipBlanks(After(toks, call)) == toks[paren..];
      var access, close := CreateTextureCall(toks[call].text, paren);
      if access.Thrown? {
        return Thrown, token;
      }
      r, token := Ok([TextureRef(stringToken), Text(".")] + access.value), close;
    }

    method CreateTextureCall(call: string, paren: nat) returns (r: Result<seq<Piece>>, token: nat)
      requires paren < |toks|
      ensures paren <= token <= |toks|
      ensures Outcome(toks, r, token, TextureCall(shader, functions, call, toks[paren..]))
      decreases |toks| - paren, 5
    {
      token := paren;
      assert toks[paren..][1..] == After(toks, paren);
      if call == "Load" {
        var first, close := TranspileFunctionContent(paren, ")");
        if first.Thrown? {
          return Thrown, token;
        }
        r, token := ReadCall(first.value), close;
        return;
      }
      if call !in {"Sample", "SampleBias", "SampleGrad", "SampleLevel"} {
        return Thrown, token;
      }
      var first, comma := TranspileFunctionContent(paren, ",");
      if first.Thrown? {
        return Thrown, token;
      }
      var more := HasNextToken(comma);
      if !more {
        return Thrown, token;
      }
      var second, stop := TranspileFunctionContent(comma, if call == "Sample" then ")" else ",");
      if second.Thrown? {
        return Thrown, token;
      }
      if call == "Sample" {
        r, token := Ok([Text("sample(")] + first.value + SEPARATOR + second.value + [Text(")")]), stop;
        return;
      }
      more := HasNextToken(stop);
      if !more {
        return Thrown, token;
      }
      var third, stop' := TranspileFunctionContent(stop, if call == "SampleGrad" then "," else ")");
      if third.Thrown? {
        return Thrown, token;
      }
      if call != "SampleGrad" {
        var option := if call == "SampleBias" then "bias(" else "level(";
        r := Ok([Text("sample(")] + first.value + SEPARATOR + second.value + SEPARATOR + [Text(option)] + third.value
                + [Text("))")]);
        token := stop';
        return;
      }
      more := HasNextToken(stop');
      if !more {
        return Thrown, token;
      }
      var fourth, close := TranspileFunctionContent(stop', ")");
      if fourth.Thrown? {
        return Thrown, token;
      }
      r := Ok([Text("sample(")] + first.value + SEPARATOR + second.value + SEPARATOR + [Text("gradient2d(")]
              + third.value + SEPARATOR + fourth.value + [Text("))")]);
      token := close;
    }
  }
}
