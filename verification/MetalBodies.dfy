/** Where the translation of a body ends. It stops where the analysis stops exactly if every call that it takes apart
    has its operands between its own parentheses; this is a condition on the tokens of the body. */
module MetalBodies {
  import opened ShaderTokens
  import opened MetalTranspiler

  /** Only punctuation is spelled like brackets and commas. */
  ghost predicate Lexical(ts: seq<Token>) {
    forall k :: 0 <= k < |ts| && ts[k].text in {"(", ")", "{", "}", ","} ==> ts[k].Other?
  }

  ghost predicate Delimits(end: string) {
    end == "}" || end == ")" || end == ","
  }

  lemma Delimiters()
    ensures Delimits("}") && Delimits(")") && Delimits(",")
  {
  }

  /** The commas of an argument list outside its inner brackets; `ts` starts behind the opening parenthesis. */
  function Commas(ts: seq<Token>): nat
    decreases |ts|
  {
    if ts == [] || ts[0].text == ")" then 0
    else if ts[0].text == "," then 1 + Commas(ts[1..])
    else if ts[0] == BEGIN then Commas(SkipTo(ts[1..], "}"))
    else if ts[0] == OPEN then Commas(SkipTo(ts[1..], ")"))
    else Commas(ts[1..])
  }

  /** The brackets up to `end` have their partners, and there is an `end`. */
  predicate Closed(ts: seq<Token>, end: string)
    decreases |ts|
  {
    ts != [] && (
      ts[0].text == end || (
        if ts[0] == BEGIN then Closed(ts[1..], "}") && Closed(SkipTo(ts[1..], "}"), end)
        else if ts[0] == OPEN then Closed(ts[1..], ")") && Closed(SkipTo(ts[1..], ")"), end)
        else Closed(ts[1..], end)))
  }

  /** A texture, under a name that is not respelled. */
  predicate SamplesHere(sh: Shader, s: string) {
    && s in TextureNames(sh) && ConvertType(s) == Ok(s) && ConvertIntrinsic(s) == Ok("") && s != "obs_glsl_compile"
    && s != "mul" && s != "mad"
  }

  /** What stands in front of `ts`: a token by itself, or a call that is taken apart, with the least number of commas
      that its arguments must have and the tokens behind its opening parenthesis; or the beginning of such a call
      without the rest of it, or a name that cannot be translated. */
  datatype Form = Single | Broken | Call(commas: nat, args: seq<Token>)

  function Opened(commas: nat, args: seq<Token>): (r: Form)
    ensures r.Call? ==> |r.args| < |args|
    ensures !r.Single?
  {
    if args == [] then Broken else Call(commas, args[1..])
  }

  function FormOf(sh: Shader, ts: seq<Token>): (r: Form)
    requires ts != []
    ensures r.Call? ==> |r.args| < |ts|
  {
    if ts[0] == Name("mul") then Opened(1, OpenCall(ts[1..]))
    else if ts[0] == Name("mad") then Opened(2, OpenCall(ts[1..]))
    else if ts[0].Name? && SamplesHere(sh, ts[0].text) then MethodForm(SkipBlanks(ts[1..]))
    else if ts[0].Name? && HasNoCounterpart(ts[0].text) then Broken
    else Single
  }

  /** A type or an intrinsic that Metal does not have. */
  predicate HasNoCounterpart(s: string) {
    ConvertType(s).Thrown? || ConvertIntrinsic(s).Thrown?
  }

  /** From behind the name of a texture. */
  function MethodForm(dot: seq<Token>): (r: Form)
    ensures r.Call? ==> |r.args| < |dot|
    ensures !r.Single?
  {
    if dot == [] || dot[0].text != "." then Broken
    else
      var call := SkipBlanks(dot[1..]);
      if call == [] || !call[0].Name? then Broken
      else
        match call[0].text
        case "Load" => Opened(0, OpenCall(call[1..]))
        case "Sample" => Opened(1, OpenCall(call[1..]))
        case "SampleBias" => Opened(2, OpenCall(call[1..]))
        case "SampleLevel" => Opened(2, OpenCall(call[1..]))
        case "SampleGrad" => Opened(3, OpenCall(call[1..]))
        case _ => Broken
  }

  /** Up to `end`, every name can be translated, and one that begins a call of this kind has its operands between the
      parentheses of that call. */
  predicate Complete(sh: Shader, ts: seq<Token>, end: string)
    decreases |ts|
  {
    ts == [] || ts[0].text == end ||
    match FormOf(sh, ts)
    case Broken => false
    case Call(n, args) =>
      Commas(args) >= n && Complete(sh, args, ")") && Complete(sh, SkipTo(args, ")"), end)
    case Single =>
      if ts[0] == BEGIN then Complete(sh, ts[1..], "}") && Complete(sh, SkipTo(ts[1..], "}"), end)
      else if ts[0] == OPEN then Complete(sh, ts[1..], ")") && Complete(sh, SkipTo(ts[1..], ")"), end)
      else Complete(sh, ts[1..], end)
  }

  // ---------------------------------------------------------------------------------------------------------
  // Blanks and names do not matter for brackets

  lemma LexicalSuffix(rest: seq<Token>, ts: seq<Token>)
    requires Lexical(ts) && Suffix(rest, ts)
    ensures Lexical(rest)
  {
  }

  /** A token that is neither a bracket nor a comma. */
  lemma Passed(ts: seq<Token>, end: string)
    requires ts != [] && Delimits(end) && ts[0].text !in {"(", ")", "{", "}", ","}
    ensures SkipTo(ts, end) == SkipTo(ts[1..], end) && Commas(ts) == Commas(ts[1..])
    ensures Closed(ts, end) <==> Closed(ts[1..], end)
  {
  }

  lemma BlanksPassed(sh: Shader, ts: seq<Token>, end: string)
    requires Lexical(ts) && Delimits(end)
    ensures var rest := SkipBlanks(ts);
      && Lexical(rest) && Suffix(rest, ts) && SkipTo(rest, end) == SkipTo(ts, end) && Commas(rest) == Commas(ts)
      && (Complete(sh, rest, end) <==> Complete(sh, ts, end)) && (Closed(rest, end) <==> Closed(ts, end))
    decreases |ts|
  {
    if ts != [] && ts[0].Blank? {
      Passed(ts, end);
      LexicalSuffix(ts[1..], ts);
      BlanksPassed(sh, ts[1..], end);
      BlankIsSingle(sh, ts, end);
      hide Complete, SkipTo, Commas, Lexical, Closed;
      SuffixTransitive(SkipBlanks(ts), ts[1..], ts);
    }
  }

  lemma BlankIsSingle(sh: Shader, ts: seq<Token>, end: string)
    requires ts != [] && Lexical(ts) && ts[0].Blank? && Delimits(end)
    ensures Complete(sh, ts, end) <==> Complete(sh, ts[1..], end)
  {
    hide SkipTo, Commas, SkipBlanks, SamplesHere, MethodForm;
    assert FormOf(sh, ts) == Single;
  }

  /** The opening parenthesis of a call. */
  lemma OpenedPassed(sh: Shader, ts: seq<Token>, end: string)
    requires Lexical(ts) && Delimits(end) && OpenCall(ts) != []
    ensures var args := OpenCall(ts)[1..];
      && Lexical(args) && Suffix(args, ts) && OpenCall(ts)[0] == OPEN
      && SkipTo(ts, end) == SkipTo(SkipTo(args, ")"), end) && Commas(ts) == Commas(SkipTo(args, ")"))
      && (Closed(ts, end) <==> Closed(args, ")") && Closed(SkipTo(args, ")"), end))
  {
    BlanksPassed(sh, ts, end);
    var rest := SkipBlanks(ts);
    assert rest[0].Other?;
    LexicalSuffix(rest[1..], rest);
    SuffixTransitive(rest[1..], rest, ts);
    hide Complete, SkipBlanks, Lexical;
    assert rest[0] == OPEN;
  }

  lemma {:induction false} CallPassed(sh: Shader, ts: seq<Token>, end: string)
    requires ts != [] && Lexical(ts) && Delimits(end) && FormOf(sh, ts).Call?
    ensures var args := FormOf(sh, ts).args;
      && Lexical(args) && Suffix(args, ts[1..])
      && SkipTo(ts, end) == SkipTo(SkipTo(args, ")"), end) && Commas(ts) == Commas(SkipTo(args, ")"))
      && (Closed(ts, end) <==> Closed(args, ")") && Closed(SkipTo(args, ")"), end))
  {
    hide Complete, SkipTo, Commas, SkipBlanks, OpenCall, MethodForm, Closed;
    assert !ts[0].Other?;
    Passed(ts, end);
    LexicalSuffix(ts[1..], ts);
    if ts[0] == Name("mul") || ts[0] == Name("mad") {
      OpenedPassed(sh, ts[1..], end);
    } else {
      BlanksPassed(sh, ts[1..], end);
      MethodPassed(sh, SkipBlanks(ts[1..]), end);
      hide Lexical;
      SuffixTransitive(FormOf(sh, ts).args, SkipBlanks(ts[1..]), ts[1..]);
    }
  }

  lemma {:induction false} MethodPassed(sh: Shader, dot: seq<Token>, end: string)
    requires Lexical(dot) && Delimits(end) && MethodForm(dot).Call?
    ensures var args := MethodForm(dot).args;
      && Lexical(args) && Suffix(args, dot)
      && SkipTo(dot, end) == SkipTo(SkipTo(args, ")"), end) && Commas(dot) == Commas(SkipTo(args, ")"))
      && (Closed(dot, end) <==> Closed(args, ")") && Closed(SkipTo(args, ")"), end))
  {
    hide Complete, SkipTo, Commas, SkipBlanks, OpenCall, Closed;
    var call := SkipBlanks(dot[1..]);
    LexicalSuffix(dot[1..], dot);
    Passed(dot, end);
    BlanksPassed(sh, dot[1..], end);
    assert !call[0].Other?;
    Passed(call, end);
    LexicalSuffix(call[1..], call);
    OpenedPassed(sh, call[1..], end);
    hide Lexical;
    SuffixTransitive(OpenCall(call[1..])[1..], call[1..], call);
    SuffixTransitive(call, dot[1..], dot);
    SuffixTransitive(OpenCall(call[1..])[1..], call, dot);
  }

  // ---------------------------------------------------------------------------------------------------------
  // Operands

  /** How a walk goes on behind the first thing in `ts`. */
  ghost predicate GoesOn(sh: Shader, ts: seq<Token>, rest: seq<Token>)
    requires ts != []
  {
    && Suffix(rest, ts[1..]) && Commas(ts) == Commas(rest)
    && (forall end :: Delimits(end) && ts[0].text != end ==> SkipTo(ts, end) == SkipTo(rest, end))
    && (forall end :: Delimits(end) && ts[0].text != end && Closed(ts, end) ==> Closed(rest, end))
    && (ts[0].text != ")" && ts[0].text != "," && Closed(ts, ")") && Closed(rest, ",") ==> Closed(ts, ","))
  }

  /** The first thing is a single token, a bracket up to its partner, or a call up to its closing parenthesis. */
  ghost predicate Inner(sh: Shader, ts: seq<Token>, inner: seq<Token>, close: string)
    requires ts != []
  {
    match FormOf(sh, ts)
    case Broken => false
    case Call(_, args) => inner == args && close == ")"
    case Single => inner == ts[1..] && ((ts[0] == BEGIN && close == "}") || (ts[0] == OPEN && close == ")"))
  }

  lemma SkipsOn(sh: Shader, ts: seq<Token>, inner: seq<Token>, close: string)
    requires ts != [] && Lexical(ts) && Inner(sh, ts, inner, close)
    ensures GoesOn(sh, ts, SkipTo(inner, close)) && Lexical(SkipTo(inner, close)) && Lexical(inner) && Delimits(close)
    ensures ts[0].text !in {")", "}", ","} && Suffix(inner, ts[1..])
    ensures forall end :: Delimits(end) && Closed(ts, end) ==> Closed(inner, close)
  {
    hide *;
    Delimiters();
    InnerIs(sh, ts, inner, close);
    if FormOf(sh, ts).Call? {
      CallSkipsOn(sh, ts);
    } else {
      BracketSkipsOn(sh, ts, close);
    }
  }

  lemma InnerIs(sh: Shader, ts: seq<Token>, inner: seq<Token>, close: string)
    requires ts != [] && Inner(sh, ts, inner, close)
    ensures if FormOf(sh, ts).Call?
            then inner == FormOf(sh, ts).args && close == ")" && ts[0].Name?
              && (ts[0] == Name("mul") || ts[0] == Name("mad") || SamplesHere(sh, ts[0].text))
            else inner == ts[1..] && ((ts[0] == BEGIN && close == "}") || (ts[0] == OPEN && close == ")"))
    ensures FormOf(sh, ts).Call? ==> ts[0] != BEGIN && ts[0] != OPEN
    ensures FormOf(sh, ts).Single? ==> ts[0] == BEGIN || ts[0] == OPEN
    ensures !FormOf(sh, ts).Broken?
  {
    hide SamplesHere, MethodForm, SkipBlanks, OpenCall;
  }

  lemma CallSkipsOn(sh: Shader, ts: seq<Token>)
    requires ts != [] && Lexical(ts) && FormOf(sh, ts).Call? && ts[0].Name?
    ensures var inner := FormOf(sh, ts).args;
      && GoesOn(sh, ts, SkipTo(inner, ")")) && Lexical(SkipTo(inner, ")")) && Lexical(inner)
      && ts[0].text !in {")", "}", ","} && Suffix(inner, ts[1..])
      && (forall end :: Delimits(end) && Closed(ts, end) ==> Closed(inner, ")"))
  {
    var inner := FormOf(sh, ts).args;
    hide FormOf, SkipTo, Commas, Closed;
    forall end | Delimits(end)
      ensures SkipTo(ts, end) == SkipTo(SkipTo(inner, ")"), end)
      ensures Closed(ts, end) <==> Closed(inner, ")") && Closed(SkipTo(inner, ")"), end)
    {
      CallPassed(sh, ts, end);
    }
    CallPassed(sh, ts, ")");
    SkipToSuffix(inner, ")");
    LexicalSuffix(SkipTo(inner, ")"), inner);
    hide Lexical;
    SuffixTransitive(SkipTo(inner, ")"), inner, ts[1..]);
  }

  lemma BracketSkipsOn(sh: Shader, ts: seq<Token>, close: string)
    requires ts != [] && Lexical(ts) && ((ts[0] == BEGIN && close == "}") || (ts[0] == OPEN && close == ")"))
    ensures GoesOn(sh, ts, SkipTo(ts[1..], close)) && Lexical(SkipTo(ts[1..], close)) && Lexical(ts[1..])
    ensures ts[0].text !in {")", "}", ","} && Suffix(ts[1..], ts[1..])
    ensures forall end :: Delimits(end) && Closed(ts, end) ==> Closed(ts[1..], close)
  {
    hide SkipTo, Commas, Closed;
    forall end | Delimits(end) && ts[0].text != end
      ensures SkipTo(ts, end) == SkipTo(SkipTo(ts[1..], close), end)
      ensures Closed(ts, end) <==> Closed(ts[1..], close) && Closed(SkipTo(ts[1..], close), end)
    {
      BracketSkips(ts, close, end);
    }
    BracketSkips(ts, close, ",");
    SkipToSuffix(ts[1..], close);
    LexicalSuffix(ts[1..], ts);
    LexicalSuffix(SkipTo(ts[1..], close), ts[1..]);
  }

  lemma BracketSkips(ts: seq<Token>, close: string, end: string)
    requires ts != [] && ((ts[0] == BEGIN && close == "}") || (ts[0] == OPEN && close == ")")) && ts[0].text != end
    ensures SkipTo(ts, end) == SkipTo(SkipTo(ts[1..], close), end) && Commas(ts) == Commas(SkipTo(ts[1..], close))
    ensures Closed(ts, end) <==> Closed(ts[1..], close) && Closed(SkipTo(ts[1..], close), end)
    ensures Suffix(ts[1..], ts) && Suffix(ts[1..], ts[1..])
  {
  }

  /** A token that is passed over by itself. */
  ghost predicate Plain(sh: Shader, ts: seq<Token>)
    requires ts != []
  {
    FormOf(sh, ts) == Single && ts[0] != BEGIN && ts[0] != OPEN
  }

  lemma PlainGoesOn(sh: Shader, ts: seq<Token>)
    requires ts != [] && Lexical(ts) && Plain(sh, ts) && ts[0].text != ")" && ts[0].text != ","
    ensures GoesOn(sh, ts, ts[1..]) && Lexical(ts[1..])
  {
    hide SamplesHere, MethodForm, SkipBlanks;
  }

  lemma CompletePlain(sh: Shader, ts: seq<Token>, end: string)
    requires ts != [] && ts[0].text != end && Plain(sh, ts)
    ensures Complete(sh, ts, end) <==> Complete(sh, ts[1..], end)
  {
    hide FormOf;
  }

  ghost predicate Enough(sh: Shader, ts: seq<Token>)
    requires ts != []
  {
    FormOf(sh, ts).Call? ==> Commas(FormOf(sh, ts).args) >= FormOf(sh, ts).commas
  }

  lemma CompleteInner(sh: Shader, ts: seq<Token>, end: string, inner: seq<Token>, close: string)
    requires ts != [] && ts[0].text != end && Inner(sh, ts, inner, close)
    ensures Complete(sh, ts, end)
       <==> Enough(sh, ts) && Complete(sh, inner, close) && Complete(sh, SkipTo(inner, close), end)
  {
    hide FormOf, Commas, SkipTo;
  }

  /** What stands in front, if it can be walked over. */
  lemma FirstThing(sh: Shader, ts: seq<Token>) returns (inner: seq<Token>, close: string)
    requires ts != [] && !FormOf(sh, ts).Broken?
    ensures Plain(sh, ts) || Inner(sh, ts, inner, close)
  {
    hide FormOf;
    inner := if FormOf(sh, ts).Call? then FormOf(sh, ts).args else ts[1..];
    close := if FormOf(sh, ts).Single? && ts[0] == BEGIN then "}" else ")";
  }

  /** The first comma of an argument list splits it in two. */
  ghost predicate SplitAt(sh: Shader, ts: seq<Token>, rest: seq<Token>) {
    && Suffix(rest, ts) && Lexical(rest) && Commas(rest) + 1 == Commas(ts) && SkipTo(rest, ")") == SkipTo(ts, ")")
    && (Complete(sh, ts, ")") <==> Complete(sh, ts, ",") && Complete(sh, rest, ")"))
    && (Closed(ts, ")") ==> Closed(ts, ",") && Closed(rest, ")"))
  }

  lemma {:induction false} FirstComma(sh: Shader, ts: seq<Token>)
    requires Lexical(ts) && Commas(ts) > 0
    ensures SplitAt(sh, ts, SkipTo(ts, ","))
    decreases |ts|
  {
    hide Lexical, FormOf;
    if ts[0].text == "," {
      CommaHere(sh, ts);
    } else if FormOf(sh, ts).Broken? {
      BrokenGoesOn(sh, ts);
      FirstCommaLater(sh, ts, ts[1..]);
    } else {
      var inner, close := FirstThing(sh, ts);
      if Plain(sh, ts) {
        PlainGoesOn(sh, ts);
        CompletePlain(sh, ts, ")");
        CompletePlain(sh, ts, ",");
        FirstCommaLater(sh, ts, ts[1..]);
      } else {
        SkipsOn(sh, ts, inner, close);
        CompleteInner(sh, ts, ")", inner, close);
        CompleteInner(sh, ts, ",", inner, close);
        FirstCommaLater(sh, ts, SkipTo(inner, close));
      }
    }
  }

  lemma BrokenGoesOn(sh: Shader, ts: seq<Token>)
    requires ts != [] && Lexical(ts) && FormOf(sh, ts).Broken?
    ensures GoesOn(sh, ts, ts[1..]) && Lexical(ts[1..]) && ts[0].text != ")" && ts[0].text != ","
    ensures forall end :: Delimits(end) ==> !Complete(sh, ts, end)
  {
    assert !ts[0].Other? by {
      hide SkipBlanks, OpenCall, MethodForm;
    }
    forall end | Delimits(end)
      ensures SkipTo(ts, end) == SkipTo(ts[1..], end) && Commas(ts) == Commas(ts[1..]) && !Complete(sh, ts, end)
    {
      Passed(ts, end);
      hide FormOf;
    }
  }

  lemma CommaHere(sh: Shader, ts: seq<Token>)
    requires Lexical(ts) && ts != [] && ts[0].text == ","
    ensures SplitAt(sh, ts, SkipTo(ts, ","))
  {
    assert ts[0] == COMMA;
    LexicalSuffix(ts[1..], ts);
    hide Lexical, Commas, SkipTo, MethodForm, SamplesHere;
    CompletePlain(sh, ts, ")");
  }

  lemma {:induction false} FirstCommaLater(sh: Shader, ts: seq<Token>, rest: seq<Token>)
    requires ts != [] && ts[0].text != ")" && ts[0].text != "," && GoesOn(sh, ts, rest) && Lexical(rest)
    requires Commas(ts) > 0
    requires Complete(sh, ts, ")") || Complete(sh, ts, ",") ==>
        (Complete(sh, ts, ")") <==> Complete(sh, rest, ")")) && (Complete(sh, ts, ",") <==> Complete(sh, rest, ","))
    ensures SplitAt(sh, ts, SkipTo(ts, ","))
    decreases |ts|, 0
  {
    hide Lexical, Complete, SkipTo, Commas, Closed;
    FirstComma(sh, rest);
    SuffixTransitive(SkipTo(rest, ","), rest, ts[1..]);
    SuffixTransitive(SkipTo(rest, ","), ts[1..], ts);
  }

  // ---------------------------------------------------------------------------------------------------------
  // The translation of a complete body

  /** A walk that succeeds ends where the analysis ends. */
  ghost predicate Ends(r: Result<Chunk>, rest: seq<Token>) {
    r.Ok? ==> r.value.rest == rest
  }

  lemma {:induction false} WalkEnds(sh: Shader, data: Analysis, prev: Token, ts: seq<Token>, end: string)
    requires Lexical(ts) && Delimits(end) && Complete(sh, ts, end)
    ensures Ends(Transpile(sh, data, prev, ts, end), SkipTo(ts, end))
    decreases |ts|, 3
  {
    hide *;
    if ts == [] || ts[0].text == end {
      EndsAtOnce(sh, data, prev, ts, end);
      return;
    }
    NothingBroken(sh, ts, end);
    var inner, close := FirstThing(sh, ts);
    var rest := if Plain(sh, ts) then ts[1..] else SkipTo(inner, close);
    if Plain(sh, ts) {
      PlainStepEnds(sh, data, prev, ts);
      CompletePlain(sh, ts, end);
      PlainSkips(sh, ts, end);
    } else {
      SkipsOn(sh, ts, inner, close);
      CompleteInner(sh, ts, end, inner, close);
      StepEnds(sh, data, prev, ts, inner, close);
      SkipsFrom(sh, ts, rest, end);
    }
    var step := Step(sh, data, prev, ts);
    EndsThere(step, rest);
    if step.Ok? {
      WalkEnds(sh, data, step.value.last, rest, end);
    }
    WalkGoesOn(sh, data, prev, ts, end);
  }

  lemma EndsAtOnce(sh: Shader, data: Analysis, prev: Token, ts: seq<Token>, end: string)
    requires ts == [] || ts[0].text == end
    ensures Ends(Transpile(sh, data, prev, ts, end), SkipTo(ts, end))
  {
  }

  lemma NothingBroken(sh: Shader, ts: seq<Token>, end: string)
    requires Complete(sh, ts, end) && ts != [] && ts[0].text != end
    ensures !FormOf(sh, ts).Broken?
  {
    hide FormOf;
  }

  lemma SkipsFrom(sh: Shader, ts: seq<Token>, rest: seq<Token>, end: string)
    requires ts != [] && GoesOn(sh, ts, rest) && Delimits(end) && ts[0].text != end
    ensures SkipTo(ts, end) == SkipTo(rest, end) && Suffix(rest, ts[1..]) && Commas(rest) == Commas(ts)
  {
    hide SkipTo, Commas;
  }

  lemma EndsThere(r: Result<Chunk>, rest: seq<Token>)
    requires Ends(r, rest)
    ensures r.Ok? ==> r.value.rest == rest
  {
  }

  lemma WalkGoesOn(sh: Shader, data: Analysis, prev: Token, ts: seq<Token>, end: string)
    requires ts != [] && ts[0].text != end
    ensures var step := Step(sh, data, prev, ts);
      var r := Transpile(sh, data, prev, ts, end);
      && (!step.Ok? ==> r.Thrown? && forall rest :: Ends(r, rest))
      && (step.Ok? ==>
            var more := Transpile(sh, data, step.value.last, step.value.rest, end);
            r == Prefixed(step.value.out, more) && (forall rest :: Ends(more, rest) <==> Ends(r, rest)))
  {
    hide Step;
  }

  lemma PlainSkips(sh: Shader, ts: seq<Token>, end: string)
    requires ts != [] && Lexical(ts) && Plain(sh, ts) && ts[0].text != end
    ensures SkipTo(ts, end) == SkipTo(ts[1..], end) && Lexical(ts[1..])
  {
    hide FormOf;
  }

  lemma PlainStepEnds(sh: Shader, data: Analysis, prev: Token, ts: seq<Token>)
    requires ts != [] && Plain(sh, ts)
    ensures Ends(Step(sh, data, prev, ts), ts[1..])
  {
    hide Transpile, Multiplication, MultiplyAdd, SamplerCall, OpenCall, MethodForm, SkipBlanks, TextureNames;
  }

  lemma {:induction false} StepEnds(sh: Shader, data: Analysis, prev: Token, ts: seq<Token>, inner: seq<Token>,
                                    close: string)
    requires ts != [] && Lexical(ts) && Inner(sh, ts, inner, close) && Enough(sh, ts) && Complete(sh, inner, close)
    ensures Ends(Step(sh, data, prev, ts), SkipTo(inner, close))
    decreases |ts|, 2
  {
    hide *;
    SkipsOn(sh, ts, inner, close);
    InnerIs(sh, ts, inner, close);
    if ts[0] == BEGIN || ts[0] == OPEN {
      WalkEnds(sh, data, ts[0], inner, close);
      BracketStep(sh, data, prev, ts, close);
    } else if ts[0] == Name("mul") {
      ProductEnds(sh, data, ts);
      ProductStep(sh, data, prev, ts);
    } else if ts[0] == Name("mad") {
      SumEnds(sh, data, ts);
      SumStep(sh, data, prev, ts);
    } else {
      SamplingEnds(sh, data, ts);
      SamplingStep(sh, data, prev, ts);
    }
  }

  lemma BracketStep(sh: Shader, data: Analysis, prev: Token, ts: seq<Token>, close: string)
    requires ts != [] && ((ts[0] == BEGIN && close == "}") || (ts[0] == OPEN && close == ")"))
    ensures var r, inner := Step(sh, data, prev, ts), Transpile(sh, data, ts[0], ts[1..], close);
      && (r.Ok? ==> inner.Ok? && r.value.rest == inner.value.rest && r.value.last == inner.value.last)
      && (forall rest :: Ends(inner, rest) ==> Ends(r, rest))
  {
    hide Transpile, StepName, CallArguments;
  }

  lemma ProductStep(sh: Shader, data: Analysis, prev: Token, ts: seq<Token>)
    requires ts != [] && ts[0] == Name("mul")
    ensures Step(sh, data, prev, ts) == Multiplication(sh, data, ts)
  {
    hide Transpile, Multiplication, MultiplyAdd, SamplerCall;
  }

  lemma SumStep(sh: Shader, data: Analysis, prev: Token, ts: seq<Token>)
    requires ts != [] && ts[0] == Name("mad")
    ensures Step(sh, data, prev, ts) == MultiplyAdd(sh, data, ts)
  {
    hide Transpile, Multiplication, MultiplyAdd, SamplerCall;
  }

  lemma SamplingStep(sh: Shader, data: Analysis, prev: Token, ts: seq<Token>)
    requires ts != [] && ts[0].Name? && SamplesHere(sh, ts[0].text)
    ensures Step(sh, data, prev, ts) == SamplerCall(sh, data, ts)
    ensures FormOf(sh, ts) == MethodForm(SkipBlanks(ts[1..]))
  {
    hide Transpile, Multiplication, MultiplyAdd, SamplerCall, MethodForm, SkipBlanks, TextureNames, ConvertType,
         ConvertIntrinsic;
  }

  /** The operand in front of a comma, and what is left for the others. */
  lemma {:induction false} OperandEnds(sh: Shader, data: Analysis, prev: Token, ts: seq<Token>)
    requires Lexical(ts) && Complete(sh, ts, ")") && Commas(ts) > 0
    ensures Ends(Transpile(sh, data, prev, ts, ","), SkipTo(ts, ",")) && SplitAt(sh, ts, SkipTo(ts, ","))
    ensures Complete(sh, SkipTo(ts, ","), ")")
    decreases |ts|, 4
  {
    hide Lexical, SkipTo, Complete, Closed, Commas;
    FirstComma(sh, ts);
    WalkEnds(sh, data, prev, ts, ",");
  }

  lemma {:induction false} ProductEnds(sh: Shader, data: Analysis, ts: seq<Token>)
    requires ts != [] && Lexical(ts) && ts[0] == Name("mul") && FormOf(sh, ts).Call? && Enough(sh, ts)
    requires Complete(sh, FormOf(sh, ts).args, ")")
    ensures Ends(Multiplication(sh, data, ts), SkipTo(FormOf(sh, ts).args, ")"))
    decreases |ts|, 1
  {
    hide Lexical, SkipTo, Complete, Closed, Commas, Transpile, SkipBlanks, OpenCall;
    CallPassed(sh, ts, "}");
    var args := OpenCall(ts[1..]);
    var a := Transpile(sh, data, args[0], args[1..], ",");
    OperandEnds(sh, data, args[0], args[1..]);
    if a.Ok? {
      BlanksPassed(sh, a.value.rest, ")");
      WalkEnds(sh, data, BeforeOperand(a.value.last, a.value.rest), SkipBlanks(a.value.rest), ")");
    }
  }

  lemma {:induction false} SumEnds(sh: Shader, data: Analysis, ts: seq<Token>)
    requires ts != [] && Lexical(ts) && ts[0] == Name("mad") && FormOf(sh, ts).Call? && Enough(sh, ts)
    requires Complete(sh, FormOf(sh, ts).args, ")")
    ensures Ends(MultiplyAdd(sh, data, ts), SkipTo(FormOf(sh, ts).args, ")"))
    decreases |ts|, 1
  {
    hide Lexical, SkipTo, Complete, Closed, Commas, Transpile, SkipBlanks, OpenCall;
    CallPassed(sh, ts, "}");
    var args := OpenCall(ts[1..]);
    var a := Transpile(sh, data, args[0], args[1..], ",");
    OperandEnds(sh, data, args[0], args[1..]);
    if a.Ok? {
      OperandEnds(sh, data, a.value.last, a.value.rest);
      var b := Transpile(sh, data, a.value.last, a.value.rest, ",");
      if b.Ok? {
        WalkEnds(sh, data, b.value.last, b.value.rest, ")");
      }
    }
  }

  lemma {:induction false} SamplingEnds(sh: Shader, data: Analysis, ts: seq<Token>)
    requires ts != [] && Lexical(ts) && ts[0].Name? && SamplesHere(sh, ts[0].text)
    requires FormOf(sh, ts).Call? && Enough(sh, ts) && Complete(sh, FormOf(sh, ts).args, ")")
    ensures Ends(SamplerCall(sh, data, ts), SkipTo(FormOf(sh, ts).args, ")"))
    decreases |ts|, 1
  {
    hide *;
    Delimiters();
    CallPassed(sh, ts, "}");
    SamplingStep(sh, data, NONE, ts);
    EnoughCommas(sh, ts);
    var dot := SkipBlanks(ts[1..]);
    MethodParts(dot);
    var call := SkipBlanks(dot[1..]);
    AccessEnds(sh, data, call[0].text, OpenCall(call[1..]));
    SamplingParts(sh, data, ts);
  }

  lemma EnoughCommas(sh: Shader, ts: seq<Token>)
    requires ts != [] && FormOf(sh, ts).Call? && Enough(sh, ts)
    ensures Commas(FormOf(sh, ts).args) >= FormOf(sh, ts).commas
  {
    hide FormOf, Commas;
  }

  lemma SamplingParts(sh: Shader, data: Analysis, ts: seq<Token>)
    requires ts != [] && MethodForm(SkipBlanks(ts[1..])).Call?
    ensures var call := SkipBlanks(SkipBlanks(ts[1..])[1..]);
      var r, access := SamplerCall(sh, data, ts), TextureCall(sh, data, call[0].text, OpenCall(call[1..]));
      && (r.Ok? <==> access.Ok?)
      && (r.Ok? ==> r.value.rest == access.value.rest && r.value.last == access.value.last)
      && (forall rest :: Ends(access, rest) ==> Ends(r, rest))
  {
    hide MethodForm, SkipBlanks, OpenCall, TextureCall;
    MethodParts(SkipBlanks(ts[1..]));
  }

  /** The commas in a call of a sampling method. */
  function Wanted(call: string): nat {
    match call
    case "Load" => 0
    case "Sample" => 1
    case "SampleGrad" => 3
    case _ => 2
  }

  lemma MethodParts(dot: seq<Token>)
    requires MethodForm(dot).Call?
    ensures dot != [] && dot[0].text == "."
    ensures var call := SkipBlanks(dot[1..]);
      && call != [] && call[0].Name? && OpenCall(call[1..]) != [] && MethodForm(dot).args == OpenCall(call[1..])[1..]
      && MethodForm(dot).commas == Wanted(call[0].text)
      && call[0].text in {"Load", "Sample", "SampleBias", "SampleLevel", "SampleGrad"}
  {
    hide SkipBlanks, OpenCall;
  }

  lemma {:induction false} AccessEnds(sh: Shader, data: Analysis, call: string, args: seq<Token>)
    requires args != [] && Lexical(args[1..]) && Commas(args[1..]) >= Wanted(call) && Complete(sh, args[1..], ")")
    ensures Ends(TextureCall(sh, data, call, args), SkipTo(args[1..], ")"))
    decreases |args|, 1
  {
    hide Lexical, SkipTo, Complete, Closed, Commas, Transpile, SkipBlanks, ReadCall;
    if call == "Load" {
      WalkEnds(sh, data, args[0], args[1..], ")");
    } else {
      OperandEnds(sh, data, args[0], args[1..]);
      var a := Transpile(sh, data, args[0], args[1..], ",");
      if a.Ok? {
        if call == "Sample" {
          WalkEnds(sh, data, a.value.last, a.value.rest, ")");
        } else {
          OperandEnds(sh, data, a.value.last, a.value.rest);
          var b := Transpile(sh, data, a.value.last, a.value.rest, ",");
          if b.Ok? {
            if call == "SampleGrad" {
              OperandEnds(sh, data, b.value.last, b.value.rest);
              var c := Transpile(sh, data, b.value.last, b.value.rest, ",");
              if c.Ok? {
                WalkEnds(sh, data, c.value.last, c.value.rest, ")");
              }
            } else {
              WalkEnds(sh, data, b.value.last, b.value.rest, ")");
            }
          }
        }
      }
    }
  }

  // ---------------------------------------------------------------------------------------------------------
  // The translation of an incomplete body

  /** The closing parentheses without a partner in front of them. */
  function Closers(ts: seq<Token>): nat {
    if ts == [] then 0
    else
      var n := Closers(ts[1..]);
      if ts[0].text == ")" then n + 1 else if ts[0] == OPEN && n > 0 then n - 1 else n
  }

  /** A walk runs to the end of the file or takes at least `n` of the closing parentheses. */
  ghost predicate Takes(ts: seq<Token>, r: Result<Chunk>, n: nat) {
    r.Ok? ==> Lexical(r.value.rest) && (r.value.rest == [] || Closers(r.value.rest) + n <= Closers(ts))
  }

  /** The closing parentheses that a walk to `end` takes at least: the one it looks for, and one more if its tokens are
      not complete or hold no comma where it looks for one. */
  function Cost(sh: Shader, ts: seq<Token>, end: string): nat {
    (if end == ")" then 1 else 0)
    + (if !Complete(sh, ts, end) || (end == "," && Commas(ts) == 0) then 1 else 0)
  }

  /** What the rest of a call costs that wants `n` more commas. */
  function Owed(sh: Shader, ts: seq<Token>, n: nat): nat {
    if Complete(sh, ts, ")") && Commas(ts) >= n then 1 else 2
  }

  /** What a thing costs that is not walked over as the analysis does. */
  ghost function Lost(sh: Shader, ts: seq<Token>, inner: seq<Token>, close: string): nat
    requires ts != []
  {
    if Plain(sh, ts) then (if ts[0].text == ")" then 1 else 0)
    else if Enough(sh, ts) && Complete(sh, inner, close) then 0 else 1
  }

  lemma {:induction false} WalkTakes(sh: Shader, data: Analysis, prev: Token, ts: seq<Token>, end: string)
    requires Lexical(ts) && Delimits(end)
    ensures Takes(ts, Transpile(sh, data, prev, ts, end), Cost(sh, ts, end))
    decreases |ts|, 3
  {
    hide *;
    if ts == [] || ts[0].text == end {
      TakesAtOnce(sh, data, prev, ts, end);
      return;
    }
    var step := Step(sh, data, prev, ts);
    WalkGoesOn(sh, data, prev, ts, end);
    if FormOf(sh, ts).Broken? {
      BrokenThrows(sh, data, prev, ts);
    }
    if !step.Ok? {
      ThrownTakes(ts, Transpile(sh, data, prev, ts, end), Cost(sh, ts, end));
      return;
    }
    var inner, close := FirstThing(sh, ts);
    var rest, lost := step.value.rest, Lost(sh, ts, inner, close);
    if Plain(sh, ts) {
      PlainTakes(sh, data, prev, ts, inner, close, end);
      EndsThere(step, ts[1..]);
    } else {
      StepTakes(sh, data, prev, ts, inner, close);
      InnerCost(sh, data, prev, ts, inner, close, end);
    }
    StaysLexical(ts, step, lost);
    WalkTakes(sh, data, step.value.last, rest, end);
    TakesMore(ts, step, Transpile(sh, data, step.value.last, rest, end), lost, Cost(sh, rest, end), Cost(sh, ts, end));
    TakesPrefixed(ts, step.value.out, Transpile(sh, data, step.value.last, rest, end), Cost(sh, ts, end));
  }

  lemma TakesAtOnce(sh: Shader, data: Analysis, prev: Token, ts: seq<Token>, end: string)
    requires Lexical(ts) && Delimits(end) && (ts == [] || ts[0].text == end)
    ensures Takes(ts, Transpile(sh, data, prev, ts, end), Cost(sh, ts, end))
  {
    hide FormOf;
    if ts != [] {
      LexicalSuffix(ts[1..], ts);
      assert ts[0].Other?;
    }
  }

  lemma ThrownTakes(ts: seq<Token>, r: Result<Chunk>, n: nat)
    requires !r.Ok?
    ensures Takes(ts, r, n)
  {
  }

  lemma StaysLexical(ts: seq<Token>, r: Result<Chunk>, n: nat)
    requires Takes(ts, r, n) && r.Ok?
    ensures Lexical(r.value.rest)
  {
    hide Lexical, Closers;
  }

  /** One walk, and another one behind it. */
  lemma TakesMore(ts: seq<Token>, a: Result<Chunk>, b: Result<Chunk>, n: nat, m: nat, k: nat)
    requires a.Ok? && Takes(ts, a, n) && Takes(a.value.rest, b, m) && k <= n + m
    requires b.Ok? ==> |b.value.rest| <= |a.value.rest|
    ensures Takes(ts, b, k)
  {
    hide Lexical, Closers;
  }

  lemma TakesPrefixed(ts: seq<Token>, out: seq<Piece>, r: Result<Chunk>, n: nat)
    requires Takes(ts, r, n)
    ensures Takes(ts, Prefixed(out, r), n)
  {
    hide Lexical, Closers;
  }

  lemma BrokenThrows(sh: Shader, data: Analysis, prev: Token, ts: seq<Token>)
    requires ts != [] && FormOf(sh, ts).Broken?
    ensures Step(sh, data, prev, ts).Thrown?
  {
    hide *;
    BrokenIs(sh, ts);
    if ts[0] == Name("mul") {
      ProductStep(sh, data, prev, ts);
      NoArguments(sh, data, ts);
    } else if ts[0] == Name("mad") {
      SumStep(sh, data, prev, ts);
      NoArguments(sh, data, ts);
    } else if SamplesHere(sh, ts[0].text) {
      SamplingStep(sh, data, prev, ts);
      NoMethod(sh, data, ts);
    } else {
      NoCounterpart(sh, data, prev, ts);
    }
  }

  lemma NoCounterpart(sh: Shader, data: Analysis, prev: Token, ts: seq<Token>)
    requires ts != [] && ts[0].Name? && HasNoCounterpart(ts[0].text)
    ensures Step(sh, data, prev, ts).Thrown?
  {
    hide Transpile, Multiplication, MultiplyAdd, SamplerCall;
  }

  lemma BrokenIs(sh: Shader, ts: seq<Token>)
    requires ts != [] && FormOf(sh, ts).Broken?
    ensures ts[0].Name?
    ensures ts[0] == Name("mul") || ts[0] == Name("mad") ==> OpenCall(ts[1..]) == []
    ensures ts[0] == Name("mul") || ts[0] == Name("mad") || SamplesHere(sh, ts[0].text) || HasNoCounterpart(ts[0].text)
  {
    hide SamplesHere, MethodForm, SkipBlanks, OpenCall, HasNoCounterpart;
  }

  lemma NoArguments(sh: Shader, data: Analysis, ts: seq<Token>)
    requires ts != [] && OpenCall(ts[1..]) == []
    ensures Multiplication(sh, data, ts).Thrown? && MultiplyAdd(sh, data, ts).Thrown?
  {
    hide OpenCall, Transpile;
  }

  lemma NoMethod(sh: Shader, data: Analysis, ts: seq<Token>)
    requires ts != [] && MethodForm(SkipBlanks(ts[1..])).Broken?
    ensures SamplerCall(sh, data, ts).Thrown?
  {
    hide OpenCall, Transpile, SkipBlanks;
  }

  lemma PlainTakes(sh: Shader, data: Analysis, prev: Token, ts: seq<Token>, inner: seq<Token>, close: string,
                   end: string)
    requires ts != [] && Lexical(ts) && Plain(sh, ts) && Delimits(end) && ts[0].text != end
    ensures var step := Step(sh, data, prev, ts);
      Takes(ts, step, Lost(sh, ts, inner, close)) && Ends(step, ts[1..])
      && Cost(sh, ts, end) <= Cost(sh, ts[1..], end) + Lost(sh, ts, inner, close)
  {
    hide Step, FormOf, Complete, SkipTo;
    PlainStepEnds(sh, data, prev, ts);
    CompletePlain(sh, ts, end);
    LexicalSuffix(ts[1..], ts);
  }

  lemma InnerCost(sh: Shader, data: Analysis, prev: Token, ts: seq<Token>, inner: seq<Token>, close: string,
                  end: string)
    requires ts != [] && Lexical(ts) && Inner(sh, ts, inner, close) && Delimits(end) && ts[0].text != end
    ensures !Plain(sh, ts)
    ensures var step := Step(sh, data, prev, ts);
      step.Ok? ==> Cost(sh, ts, end) <= Cost(sh, step.value.rest, end) + Lost(sh, ts, inner, close)
  {
    hide Step, FormOf, Complete, SkipTo, Commas, Lexical, Enough, GoesOn;
    InnerIs(sh, ts, inner, close);
    SkipsOn(sh, ts, inner, close);
    if Enough(sh, ts) && Complete(sh, inner, close) {
      StepEnds(sh, data, prev, ts, inner, close);
      CompleteInner(sh, ts, end, inner, close);
      SkipsFrom(sh, ts, SkipTo(inner, close), end);
    }
  }

  lemma {:induction false} StepTakes(sh: Shader, data: Analysis, prev: Token, ts: seq<Token>, inner: seq<Token>,
                                     close: string)
    requires ts != [] && Lexical(ts) && Inner(sh, ts, inner, close)
    ensures Takes(ts, Step(sh, data, prev, ts), Lost(sh, ts, inner, close))
    decreases |ts|, 2
  {
    hide *;
    SkipsOn(sh, ts, inner, close);
    InnerIs(sh, ts, inner, close);
    if ts[0] == BEGIN || ts[0] == OPEN {
      WalkTakes(sh, data, ts[0], inner, close);
      BracketTakes(sh, data, prev, ts, inner, close);
    } else {
      if ts[0] == Name("mul") {
        ProductTakes(sh, data, ts);
        ProductStep(sh, data, prev, ts);
      } else if ts[0] == Name("mad") {
        SumTakes(sh, data, ts);
        SumStep(sh, data, prev, ts);
      } else {
        SamplingTakes(sh, data, ts);
        SamplingStep(sh, data, prev, ts);
      }
      CallTakes(sh, ts, Step(sh, data, prev, ts));
    }
  }

  lemma BracketTakes(sh: Shader, data: Analysis, prev: Token, ts: seq<Token>, inner: seq<Token>, close: string)
    requires ts != [] && inner == ts[1..] && ((ts[0] == BEGIN && close == "}") || (ts[0] == OPEN && close == ")"))
    requires FormOf(sh, ts).Single?
    requires Takes(inner, Transpile(sh, data, ts[0], inner, close), Cost(sh, inner, close))
    ensures Takes(ts, Step(sh, data, prev, ts), Lost(sh, ts, inner, close))
  {
    hide Step, Transpile, Lexical, FormOf, Complete, Commas;
    BracketStep(sh, data, prev, ts, close);
  }

  /** A call that took what it owed. */
  lemma CallTakes(sh: Shader, ts: seq<Token>, r: Result<Chunk>)
    requires ts != [] && Lexical(ts) && FormOf(sh, ts).Call?
    requires Takes(FormOf(sh, ts).args, r, Owed(sh, FormOf(sh, ts).args, FormOf(sh, ts).commas))
    ensures Takes(ts, r, Lost(sh, ts, FormOf(sh, ts).args, ")"))
  {
    hide FormOf, Lexical, Complete, Commas, Closers;
    CallCloses(sh, ts);
  }

  // ---------------------------------------------------------------------------------------------------------
  // Closing parentheses behind the opening one of a call

  lemma BlanksClose(ts: seq<Token>)
    requires Lexical(ts)
    ensures Closers(SkipBlanks(ts)) == Closers(ts)
  {
    if ts != [] && ts[0].Blank? {
      LexicalSuffix(ts[1..], ts);
      BlanksClose(ts[1..]);
    }
  }

  lemma NamePassed(ts: seq<Token>)
    requires ts != [] && Lexical(ts) && (ts[0].Name? || ts[0].text == ".")
    ensures Closers(ts[1..]) == Closers(ts) && Lexical(ts[1..])
  {
  }

  lemma OpenedCloses(sh: Shader, ts: seq<Token>)
    requires Lexical(ts) && OpenCall(ts) != []
    ensures Closers(OpenCall(ts)[1..]) <= Closers(ts) + 1
  {
    BlanksClose(ts);
    OpenedPassed(sh, ts, ")");
    hide SkipBlanks, Lexical;
  }

  lemma CallCloses(sh: Shader, ts: seq<Token>)
    requires ts != [] && Lexical(ts) && FormOf(sh, ts).Call?
    ensures Closers(FormOf(sh, ts).args) <= Closers(ts) + 1
  {
    hide SkipBlanks, Lexical, OpenCall, MethodForm, SamplesHere, Closers;
    NamePassed(ts);
    if ts[0] == Name("mul") || ts[0] == Name("mad") {
      OpenedCloses(sh, ts[1..]);
    } else {
      var dot := SkipBlanks(ts[1..]);
      BlanksClose(ts[1..]);
      BlanksPassed(sh, ts[1..], ")");
      MethodParts(dot);
      NamePassed(dot);
      var call := SkipBlanks(dot[1..]);
      BlanksClose(dot[1..]);
      BlanksPassed(sh, dot[1..], ")");
      NamePassed(call);
      OpenedCloses(sh, call[1..]);
    }
  }

  // ---------------------------------------------------------------------------------------------------------
  // What the calls take

  /** The last operand. */
  lemma {:induction false} LastTakes(sh: Shader, data: Analysis, prev: Token, ts: seq<Token>)
    requires Lexical(ts)
    ensures Takes(ts, Transpile(sh, data, prev, ts, ")"), Owed(sh, ts, 0))
    decreases |ts|, 4
  {
    hide Lexical, Complete, Closed, Commas, Transpile, Takes;
    WalkTakes(sh, data, prev, ts, ")");
  }

  /** An operand with a comma behind it; `n` more commas are wanted. */
  lemma {:induction false} OperandTakes(sh: Shader, data: Analysis, prev: Token, ts: seq<Token>, n: nat)
    requires Lexical(ts)
    ensures var r := Transpile(sh, data, prev, ts, ",");
      r.Ok? && r.value.rest != [] ==>
        && Lexical(r.value.rest)
        && Closers(r.value.rest) + Owed(sh, ts, n + 1) <= Closers(ts) + Owed(sh, r.value.rest, n)
    decreases |ts|, 4
  {
    hide Lexical, Complete, Closed, Commas, Transpile, Closers, SkipTo;
    WalkTakes(sh, data, prev, ts, ",");
    if Complete(sh, ts, ",") && Commas(ts) > 0 {
      WalkEnds(sh, data, prev, ts, ",");
      FirstComma(sh, ts);
    }
  }

  /** An operand, and what comes behind it. */
  lemma TakesNext(sh: Shader, ts: seq<Token>, a: Result<Chunk>, r: Result<Chunk>, n: nat)
    requires a.Ok? && a.value.rest != []
    requires Closers(a.value.rest) + Owed(sh, ts, n + 1) <= Closers(ts) + Owed(sh, a.value.rest, n)
    requires Takes(a.value.rest, r, Owed(sh, a.value.rest, n))
    ensures Takes(ts, r, Owed(sh, ts, n + 1))
  {
    hide Lexical, Complete, Closed, Commas, Closers;
  }

  /** A result with the same rest. */
  lemma TakesSame(ts: seq<Token>, a: Result<Chunk>, r: Result<Chunk>, n: nat)
    requires Takes(ts, a, n) && (r.Ok? ==> a.Ok? && r.value.rest == a.value.rest)
    ensures Takes(ts, r, n)
  {
    hide Lexical, Closers;
  }

  lemma {:induction false} ProductTakes(sh: Shader, data: Analysis, ts: seq<Token>)
    requires ts != [] && Lexical(ts) && ts[0] == Name("mul") && FormOf(sh, ts).Call?
    ensures Takes(FormOf(sh, ts).args, Multiplication(sh, data, ts),
                  Owed(sh, FormOf(sh, ts).args, FormOf(sh, ts).commas))
    decreases |ts|, 1
  {
    hide Lexical, SkipTo, Complete, Closed, Commas, Transpile, SkipBlanks, OpenCall, Owed, Takes, Closers;
    Delimiters();
    CallPassed(sh, ts, "}");
    var args, r := OpenCall(ts[1..]), Multiplication(sh, data, ts);
    var a := Transpile(sh, data, args[0], args[1..], ",");
    OperandTakes(sh, data, args[0], args[1..], 0);
    if r.Ok? {
      ProductParts(sh, data, ts);
      var x := a.value.rest;
      NothingSkipped();
      BlanksPassed(sh, x, ")");
      BlanksClose(x);
      var b := Transpile(sh, data, BeforeOperand(a.value.last, x), SkipBlanks(x), ")");
      LastTakes(sh, data, BeforeOperand(a.value.last, x), SkipBlanks(x));
      SameOwed(sh, x, b);
      TakesNext(sh, args[1..], a, b, 0);
      TakesSame(args[1..], b, r, Owed(sh, args[1..], 1));
    } else {
      ThrownTakes(args[1..], r, Owed(sh, args[1..], 1));
    }
  }

  lemma ProductParts(sh: Shader, data: Analysis, ts: seq<Token>)
    requires ts != [] && Multiplication(sh, data, ts).Ok?
    ensures OpenCall(ts[1..]) != []
    ensures var args := OpenCall(ts[1..]);
      var a := Transpile(sh, data, args[0], args[1..], ",");
      a.Ok? && SkipBlanks(a.value.rest) != [] &&
      var b := Transpile(sh, data, BeforeOperand(a.value.last, a.value.rest), SkipBlanks(a.value.rest), ")");
      b.Ok? && b.value.rest == Multiplication(sh, data, ts).value.rest
  {
    hide Transpile, SkipBlanks, OpenCall, BeforeOperand;
    var args := OpenCall(ts[1..]);
    var a := Transpile(sh, data, args[0], args[1..], ",");
    assert SecondFactor(sh, data, a.value.last, a.value.rest).Ok?;
  }

  lemma SameOwed(sh: Shader, x: seq<Token>, r: Result<Chunk>)
    requires Takes(SkipBlanks(x), r, Owed(sh, SkipBlanks(x), 0))
    requires Closers(SkipBlanks(x)) == Closers(x) && (Complete(sh, SkipBlanks(x), ")") <==> Complete(sh, x, ")"))
    ensures Takes(x, r, Owed(sh, x, 0))
  {
    hide Lexical, Complete, Closed, Commas, Closers, SkipBlanks;
  }

  lemma {:induction false} SumTakes(sh: Shader, data: Analysis, ts: seq<Token>)
    requires ts != [] && Lexical(ts) && ts[0] == Name("mad") && FormOf(sh, ts).Call?
    ensures Takes(FormOf(sh, ts).args, MultiplyAdd(sh, data, ts),
                  Owed(sh, FormOf(sh, ts).args, FormOf(sh, ts).commas))
    decreases |ts|, 1
  {
    hide Lexical, SkipTo, Complete, Closed, Commas, Transpile, SkipBlanks, OpenCall, Owed, Takes, Closers;
    Delimiters();
    CallPassed(sh, ts, "}");
    var args, r := OpenCall(ts[1..]), MultiplyAdd(sh, data, ts);
    var a := Transpile(sh, data, args[0], args[1..], ",");
    OperandTakes(sh, data, args[0], args[1..], 1);
    if r.Ok? {
      NothingSkipped();
      var b := Transpile(sh, data, a.value.last, a.value.rest, ",");
      OperandTakes(sh, data, a.value.last, a.value.rest, 0);
      var c := Transpile(sh, data, b.value.last, b.value.rest, ")");
      LastTakes(sh, data, b.value.last, b.value.rest);
      TakesNext(sh, a.value.rest, b, c, 0);
      TakesNext(sh, args[1..], a, c, 1);
      TakesSame(args[1..], c, r, Owed(sh, args[1..], 2));
    } else {
      ThrownTakes(args[1..], r, Owed(sh, args[1..], 2));
    }
  }

  lemma NothingSkipped()
    ensures SkipBlanks([]) == []
  {
  }

  lemma {:induction false} SamplingTakes(sh: Shader, data: Analysis, ts: seq<Token>)
    requires ts != [] && Lexical(ts) && ts[0].Name? && SamplesHere(sh, ts[0].text) && FormOf(sh, ts).Call?
    ensures Takes(FormOf(sh, ts).args, SamplerCall(sh, data, ts),
                  Owed(sh, FormOf(sh, ts).args, FormOf(sh, ts).commas))
    decreases |ts|, 1
  {
    hide *;
    Delimiters();
    CallPassed(sh, ts, "}");
    SamplingStep(sh, data, NONE, ts);
    var dot := SkipBlanks(ts[1..]);
    MethodParts(dot);
    var call := SkipBlanks(dot[1..]);
    var args := OpenCall(call[1..]);
    AccessTakes(sh, data, call[0].text, args);
    SamplingParts(sh, data, ts);
    TakesSame(args[1..], TextureCall(sh, data, call[0].text, args), SamplerCall(sh, data, ts),
              Owed(sh, args[1..], Wanted(call[0].text)));
  }

  lemma {:induction false} AccessTakes(sh: Shader, data: Analysis, call: string, args: seq<Token>)
    requires args != [] && Lexical(args[1..])
    requires call in {"Load", "Sample", "SampleBias", "SampleLevel", "SampleGrad"}
    ensures Takes(args[1..], TextureCall(sh, data, call, args), Owed(sh, args[1..], Wanted(call)))
    decreases |args|, 1
  {
    hide Lexical, SkipTo, Complete, Closed, Commas, Transpile, SkipBlanks, ReadCall, Owed, Takes, Closers;
    var r, owed := TextureCall(sh, data, call, args), Owed(sh, args[1..], Wanted(call));
    if !r.Ok? {
      ThrownTakes(args[1..], r, owed);
    } else if call == "Load" {
      LastTakes(sh, data, args[0], args[1..]);
      TakesSame(args[1..], Transpile(sh, data, args[0], args[1..], ")"), r, owed);
    } else {
      NothingSkipped();
      var a := Transpile(sh, data, args[0], args[1..], ",");
      OperandTakes(sh, data, args[0], args[1..], Wanted(call) - 1);
      var last := a;
      if call == "Sample" {
        last := Transpile(sh, data, a.value.last, a.value.rest, ")");
        LastTakes(sh, data, a.value.last, a.value.rest);
      } else {
        var b := Transpile(sh, data, a.value.last, a.value.rest, ",");
        OperandTakes(sh, data, a.value.last, a.value.rest, Wanted(call) - 2);
        if call == "SampleGrad" {
          var c := Transpile(sh, data, b.value.last, b.value.rest, ",");
          OperandTakes(sh, data, b.value.last, b.value.rest, 0);
          last := Transpile(sh, data, c.value.last, c.value.rest, ")");
          LastTakes(sh, data, c.value.last, c.value.rest);
          TakesNext(sh, b.value.rest, c, last, 0);
        } else {
          last := Transpile(sh, data, b.value.last, b.value.rest, ")");
          LastTakes(sh, data, b.value.last, b.value.rest);
        }
        TakesNext(sh, a.value.rest, b, last, Wanted(call) - 2);
      }
      TakesNext(sh, args[1..], a, last, Wanted(call) - 1);
      TakesSame(args[1..], last, r, owed);
    }
  }

  // ---------------------------------------------------------------------------------------------------------
  // Exactly the complete bodies

  /** A translation that succeeds ends where the analysis ends exactly if the tokens up to there are complete, or there
      is nothing behind them. Only brackets that have their partners are allowed in the file. */
  lemma EndsExactly(sh: Shader, data: Analysis, prev: Token, ts: seq<Token>)
    requires Lexical(ts) && Closers(ts) == 0 && Transpile(sh, data, prev, ts, "}").Ok?
    ensures Transpile(sh, data, prev, ts, "}").value.rest == SkipTo(ts, "}")
       <==> Complete(sh, ts, "}") || SkipTo(ts, "}") == []
    ensures !Complete(sh, ts, "}") ==> Transpile(sh, data, prev, ts, "}").value.rest == []
  {
    hide Lexical, SkipTo, Complete, Closed, Commas, Transpile, Closers;
    if Complete(sh, ts, "}") {
      WalkEnds(sh, data, prev, ts, "}");
    } else {
      WalkTakes(sh, data, prev, ts, "}");
    }
  }
}
