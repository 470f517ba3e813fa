/** Which comparisons are printed from raw tokens, and hence when everything that an emitted function names is a
    parameter of it. */
module MetalComparisons {
  import opened ShaderTokens
  import opened MetalTranspiler
  import opened MetalAnalysis
  import opened MetalBodies
  import opened MetalScoping
  import opened MetalAcceptance

  /** The token in front of the given one; the first one stands behind the opening brace. */
  function PrevAt(all: seq<Token>, k: nat): Token {
    if 0 < k <= |all| then all[k - 1] else BEGIN
  }

  /** A name for which nothing else is printed. */
  ghost predicate Bare(sh: Shader, prev: Token, t: Token) {
    && t.Name? && ConvertType(t.text) == Ok(t.text) && ConvertIntrinsic(t.text) == Ok("")
    && t.text != "obs_glsl_compile" && t.text != "mul" && t.text != "mad"
    && t.text !in TextureNames(sh) && t.text !in sh.inOutStructs
    && (t.text in UniformNames(sh) ==> prev.text == ".")
  }

  ghost predicate Comparator(all: seq<Token>, k: nat) {
    k < |all| && all[k].Other? && all[k].text in COMPARATORS
  }

  /** The operand behind the comparator at `k`, or what stands in its place. */
  function Operand(all: seq<Token>, k: nat): Token {
    if k + 1 >= |all| || SkipBlanks(all[k + 1..]) == [] then NONE else SkipBlanks(all[k + 1..])[0]
  }

  /** The token at `k` is a bare name directly followed by a comparator, and `c` is what is printed for the
      comparison. */
  ghost predicate ComparedAt(sh: Shader, all: seq<Token>, k: nat, c: Piece) {
    && k < |all| && Bare(sh, PrevAt(all, k), all[k]) && Comparator(all, k + 1)
    && c == Compare(all[k].text, all[k + 1].text, Operand(all, k + 1).text)
  }

  ghost predicate ComparedIn(sh: Shader, all: seq<Token>, i: nat, j: nat, c: Piece) {
    exists k :: i <= k < j && ComparedAt(sh, all, k, c)
  }

  /** The comparisons among the pieces are those of the tokens from `i` to `j`. */
  ghost predicate Compares(sh: Shader, all: seq<Token>, i: nat, j: nat, ps: seq<Piece>) {
    forall c: Piece :: c.Compare? ==> (c in ps <==> ComparedIn(sh, all, i, j, c))
  }

  /** Where a walk from `i` ends. */
  function EndOf(all: seq<Token>, r: Chunk): nat {
    if |r.rest| <= |all| then |all| - |r.rest| else 0
  }

  ghost predicate Walked(sh: Shader, all: seq<Token>, i: nat, r: Result<Chunk>) {
    r.Ok? ==>
      var j := EndOf(all, r.value);
      && i <= j <= |all| && r.value.rest == all[j..]
      && (i < |all| ==> i < j)
      && (j < |all| ==> r.value.last == PrevAt(all, j))
      && Compares(sh, all, i, j, r.value.out)
  }

  // ---------------------------------------------------------------------------------------------------------
  // Putting walks together

  lemma NothingCompared(sh: Shader, all: seq<Token>, i: nat, ps: seq<Piece>)
    requires forall c :: c in ps ==> !c.Compare?
    ensures Compares(sh, all, i, i, ps)
  {
  }

  lemma Joined(sh: Shader, all: seq<Token>, i: nat, j: nat, k: nat, a: seq<Piece>, b: seq<Piece>)
    requires i <= j <= k && Compares(sh, all, i, j, a) && Compares(sh, all, j, k, b)
    ensures Compares(sh, all, i, k, a + b)
  {
    hide ComparedAt;
    forall c: Piece | c.Compare?
      ensures c in a + b <==> ComparedIn(sh, all, i, k, c)
    {
      assert c in a + b <==> c in a || c in b;
      assert ComparedIn(sh, all, i, k, c) <==> ComparedIn(sh, all, i, j, c) || ComparedIn(sh, all, j, k, c);
    }
  }

  /** Tokens that are passed over. */
  lemma PassedOver(sh: Shader, all: seq<Token>, i: nat, j: nat, ps: seq<Piece>)
    requires i <= j <= |all|
    requires forall k :: i <= k < j ==> !(Bare(sh, PrevAt(all, k), all[k]) && Comparator(all, k + 1))
    requires forall c :: c in ps ==> !c.Compare?
    ensures Compares(sh, all, i, j, ps)
  {
    hide Bare, Comparator;
  }

  /** The same pieces up to those that are no comparisons. */
  lemma SameComparisons(sh: Shader, all: seq<Token>, i: nat, j: nat, a: seq<Piece>, b: seq<Piece>)
    requires Compares(sh, all, i, j, a) && forall c: Piece :: c.Compare? ==> (c in a <==> c in b)
    ensures Compares(sh, all, i, j, b)
  {
    hide ComparedIn;
  }

  lemma SkipEnds(all: seq<Token>, i: nat)
    requires i <= |all|
    ensures var j := |all| - |SkipBlanks(all[i..])|;
      i <= j <= |all| && SkipBlanks(all[i..]) == all[j..] && (forall k :: i <= k < j ==> all[k].Blank?)
      && (j < |all| ==> !all[j].Blank?)
    decreases |all| - i
  {
    if i < |all| && all[i].Blank? {
      assert all[i..][1..] == all[i + 1..];
      SkipEnds(all, i + 1);
    }
  }

  // ---------------------------------------------------------------------------------------------------------
  // Splitting at commas keeps comparisons

  ghost predicate InSome(parts: seq<seq<Piece>>, c: Piece) {
    exists k :: 0 <= k < |parts| && c in parts[k]
  }

  lemma InFirst(part: seq<Piece>, parts: seq<seq<Piece>>, c: Piece)
    ensures InSome([part] + parts, c) <==> c in part || InSome(parts, c)
  {
    var all := [part] + parts;
    assert all[0] == part && forall k :: 0 < k < |all| ==> all[k] == parts[k - 1];
    assert forall k :: 0 <= k < |parts| ==> parts[k] == all[k + 1];
  }

  lemma {:induction false} SplitKeeps(ps: seq<Piece>, cuts: nat, part: seq<Piece>, c: Piece)
    requires c.Compare?
    ensures (c in ps || c in part) <==> InSome(Split(ps, cuts, part), c)
    decreases |ps|
  {
    if ps == [] {
      InFirst(part, [], c);
      assert [part] + [] == [part];
    } else {
      assert ps == [ps[0]] + ps[1..];
      if ps[0] == Text(",") && cuts > 0 {
        if part == [] {
          SplitKeeps(ps[1..], cuts, [], c);
        } else {
          SplitKeeps(ps[1..], cuts - 1, [], c);
          InFirst(part, Split(ps[1..], cuts - 1, []), c);
        }
      } else {
        SplitKeeps(ps[1..], cuts, part + [ps[0]], c);
      }
    }
  }

  lemma IntsKeep(ps: seq<Piece>, c: Piece)
    requires c.Compare? && IntArguments(ps).Ok?
    ensures c in ps <==> c in IntArguments(ps).value
  {
    SplitKeeps(ps, 3, [], c);
    var parts := Split(ps, 3, []);
    hide Split;
    assert |parts| == 1 || |parts| == 2 || |parts| == 3;
    if |parts| == 1 {
      assert c in ps <==> c in parts[0];
    } else if |parts| == 2 {
      assert c in ps <==> c in parts[0] || c in parts[1];
    } else {
      assert c in ps <==> c in parts[0] || c in parts[1] || c in parts[2];
    }
  }

  lemma ArgumentsKeep(data: Analysis, callee: string, ps: seq<Piece>, c: Piece)
    requires c.Compare? && CallArguments(data, callee, ps).Ok?
    ensures c in ps <==> c in CallArguments(data, callee, ps).value
  {
    var names := DataOf(data, callee).AdditionalArguments();
    NoneInExtras(names, c);
    hide DataOf, IntArguments, ExtraArgs;
    if callee == "int3" {
      IntsKeep(ps, c);
    }
  }

  lemma {:induction false} NoneInExtras(names: seq<string>, c: Piece)
    requires c.Compare?
    ensures c !in ExtraArgs(names)
  {
    if names != [] {
      NoneInExtras(names[1..], c);
    }
  }

  /** A comparison is never the last piece of a walk: what is printed for its operator follows. */
  ghost predicate EndsPlainly(ps: seq<Piece>) {
    ps != [] ==> !ps[|ps| - 1].Compare?
  }

  lemma ReadKeeps(ps: seq<Piece>, c: Piece)
    requires c.Compare? && EndsPlainly(ps) && ReadCall(ps).Ok?
    ensures c in ps <==> c in ReadCall(ps).value
  {
    if |ps| >= 3 && ps[0] == Copied("int3") && ps[1] == Text("(") {
      var inner := ps[2..|ps| - 1];
      assert ps == [ps[0], ps[1]] + inner + [ps[|ps| - 1]];
      SplitKeeps(inner, 3, [], c);
      var parts := Split(inner, 3, []);
      hide Split;
      assert |parts| == 1 || |parts| == 2 || |parts| == 3;
      if |parts| == 1 {
        assert c in ps <==> c in parts[0];
      } else if |parts| == 2 {
        assert c in ps <==> c in parts[0] || c in parts[1];
      } else {
        assert c in ps <==> c in parts[0] || c in parts[1] || c in parts[2];
      }
    }
  }

  // ---------------------------------------------------------------------------------------------------------
  // The walks

  /** No name is spelled like punctuation. */
  ghost predicate Ordinary(all: seq<Token>) {
    forall k :: 0 <= k < |all| && all[k].Name? ==> all[k].text !in ["}", ")", ",", "(", "."]
  }

  /** The walk of the step at `i`, and what follows a comparison. */
  ghost predicate Stepped(sh: Shader, all: seq<Token>, i: nat, r: Result<Chunk>) {
    && Walked(sh, all, i, r)
    && (r.Ok? ==> EndsPlainly(r.value.out) || Comparator(all, EndOf(all, r.value)))
  }

  /** A walk that goes on where another one stopped. */
  lemma {:induction false} GoOn(sh: Shader, data: Analysis, all: seq<Token>, i: nat, a: Chunk, end: string)
    requires Ordinary(all) && Delimits(end) && i <= |all| && Walked(sh, all, i, Ok(a))
    ensures var r := Transpile(sh, data, a.last, a.rest, end);
      r.Ok? ==>
        && Walked(sh, all, EndOf(all, a), r) && EndsPlainly(r.value.out)
        && i <= EndOf(all, a) <= EndOf(all, r.value) <= |all| && (i < |all| ==> i < EndOf(all, r.value))
        && Compares(sh, all, i, EndOf(all, r.value), a.out + r.value.out)
    decreases |a.rest|, 4
  {
    hide Transpile, Compares, EndsPlainly, Ordinary;
    var j := EndOf(all, a);
    if j < |all| {
      WalkCompares(sh, data, all, j, end);
    } else {
      NothingLeft(sh, data, all, a.last, end);
    }
    var r := Transpile(sh, data, a.last, a.rest, end);
    if r.Ok? {
      Joined(sh, all, i, j, EndOf(all, r.value), a.out, r.value.out);
    }
  }

  lemma NothingLeft(sh: Shader, data: Analysis, all: seq<Token>, last: Token, end: string)
    ensures var r := Transpile(sh, data, last, [], end);
      r.Ok? && Walked(sh, all, |all|, r) && EndsPlainly(r.value.out) && r.value.rest == []
  {
    NothingCompared(sh, all, |all|, []);
    hide Compares;
  }

  lemma {:induction false} WalkCompares(sh: Shader, data: Analysis, all: seq<Token>, i: nat, end: string)
    requires i < |all| && Ordinary(all) && Delimits(end)
    ensures var r := Transpile(sh, data, PrevAt(all, i), all[i..], end);
      Walked(sh, all, i, r) && (r.Ok? ==> EndsPlainly(r.value.out))
    decreases |all| - i, 3
  {
    hide Step, Compares, Ordinary, EndsPlainly, Comparator;
    var prev, ts := PrevAt(all, i), all[i..];
    if ts[0].text == end {
      AtEnd(sh, data, all, i, end);
    } else {
      StepCompares(sh, data, all, i);
      var step := Step(sh, data, prev, ts);
      if step.Ok? {
        GoOn(sh, data, all, i, step.value, end);
        var more := Transpile(sh, data, step.value.last, step.value.rest, end);
        if more.Ok? {
          if Comparator(all, EndOf(all, step.value)) {
            OperatorIsPrinted(sh, data, all, EndOf(all, step.value), step.value.last, end);
          }
          EndsWell(step.value.out, more.value.out);
        }
      }
    }
  }

  lemma EndsWell(a: seq<Piece>, b: seq<Piece>)
    requires EndsPlainly(b) && (EndsPlainly(a) || b != [])
    ensures EndsPlainly(a + b)
  {
  }

  /** What follows a comparison is its operator, once more. */
  lemma OperatorIsPrinted(sh: Shader, data: Analysis, all: seq<Token>, j: nat, last: Token, end: string)
    requires Comparator(all, j) && Delimits(end)
    ensures var r := Transpile(sh, data, last, all[j..], end); r.Ok? ==> r.value.out != []
  {
    var ts := all[j..];
    assert ts[0].text != end && ts[0].text != "{" && ts[0].text != "(";
    assert Step(sh, data, last, ts) == Ok(Chunk([Text(ts[0].text)], ts[0], ts[1..]));
    hide Step, StepName;
  }

  /** The end token is taken, and nothing is printed. */
  lemma AtEnd(sh: Shader, data: Analysis, all: seq<Token>, i: nat, end: string)
    requires i < |all| && Ordinary(all) && all[i].text == end && Delimits(end)
    ensures var r := Transpile(sh, data, PrevAt(all, i), all[i..], end);
      Walked(sh, all, i, r) && r.Ok? && EndsPlainly(r.value.out)
  {
    assert all[i..][1..] == all[i + 1..];
    assert !all[i].Name?;
    PassedOver(sh, all, i, i + 1, []);
    StopsHere(sh, data, PrevAt(all, i), all[i..], end);
    hide Compares, Transpile;
  }

  lemma StopsHere(sh: Shader, data: Analysis, prev: Token, ts: seq<Token>, end: string)
    requires ts != [] && ts[0].text == end
    ensures Transpile(sh, data, prev, ts, end) == Ok(Chunk([], ts[0], ts[1..]))
  {
  }

  // ---------------------------------------------------------------------------------------------------------
  // Single steps

  /** A token that is printed by itself, or a bracket that is entered. */
  lemma Single(sh: Shader, all: seq<Token>, i: nat, out: seq<Piece>)
    requires i < |all| && !(Bare(sh, PrevAt(all, i), all[i]) && Comparator(all, i + 1))
    requires forall c :: c in out ==> !c.Compare?
    ensures Walked(sh, all, i, Ok(Chunk(out, all[i], all[i..][1..])))
    ensures EndOf(all, Chunk(out, all[i], all[i..][1..])) == i + 1
  {
    assert all[i..][1..] == all[i + 1..];
    PassedOver(sh, all, i, i + 1, out);
    hide Compares, Bare, Comparator;
  }

  lemma {:induction false} StepCompares(sh: Shader, data: Analysis, all: seq<Token>, i: nat)
    requires i < |all| && Ordinary(all)
    ensures Stepped(sh, all, i, Step(sh, data, PrevAt(all, i), all[i..]))
    decreases |all| - i, 2
  {
    hide Transpile, StepName, CallArguments, Compares, Ordinary, Comparator, Bare;
    var t := all[i];
    if t.Name? {
      NameCompares(sh, data, all, i);
    } else {
      assert !Bare(sh, PrevAt(all, i), t) by { NotBare(sh, PrevAt(all, i), t); }
      if t == Other("{") {
        Single(sh, all, i, [Text("{")]);
        BracketCompares(sh, data, all, i, "}");
      } else if t == Other("(") {
        Single(sh, all, i, [Text("(")]);
        BracketCompares(sh, data, all, i, ")");
      } else {
        Single(sh, all, i, [Text(t.text)]);
      }
    }
  }

  lemma NotBare(sh: Shader, prev: Token, t: Token)
    requires !t.Name?
    ensures !Bare(sh, prev, t)
  {
  }

  /** What stands between brackets, possibly with arguments appended. */
  lemma {:induction false} BracketCompares(sh: Shader, data: Analysis, all: seq<Token>, i: nat, close: string)
    requires i < |all| && Ordinary(all) && (close == "}" || close == ")")
    requires all[i] == if close == "}" then Other("{") else Other("(")
    requires Walked(sh, all, i, Ok(Chunk([Text(all[i].text)], all[i], all[i..][1..])))
    requires EndOf(all, Chunk([Text(all[i].text)], all[i], all[i..][1..])) == i + 1
    ensures Stepped(sh, all, i, Step(sh, data, PrevAt(all, i), all[i..]))
    decreases |all| - i, 1
  {
    hide Transpile, CallArguments, Compares, Ordinary, Comparator, StepName;
    var prev, open := PrevAt(all, i), Chunk([Text(all[i].text)], all[i], all[i..][1..]);
    GoOn(sh, data, all, i, open, close);
    var inner := Transpile(sh, data, all[i], all[i..][1..], close);
    if inner.Ok? {
      var j := EndOf(all, inner.value);
      if close == "}" {
        SameComparisons(sh, all, i, j, open.out + inner.value.out, [Text("{")] + inner.value.out + [Text("}")]);
      } else {
        var args := CallArguments(data, prev.text, inner.value.out);
        if args.Ok? {
          forall c: Piece | c.Compare?
            ensures c in open.out + inner.value.out <==> c in [Text("(")] + args.value + [Text(")")]
          {
            ArgumentsKeep(data, prev.text, inner.value.out, c);
          }
          SameComparisons(sh, all, i, j, open.out + inner.value.out, [Text("(")] + args.value + [Text(")")]);
        }
      }
    }
  }

  lemma {:induction false} NameCompares(sh: Shader, data: Analysis, all: seq<Token>, i: nat)
    requires i < |all| && Ordinary(all) && all[i].Name?
    ensures Stepped(sh, all, i, StepName(sh, data, PrevAt(all, i), all[i..]))
    decreases |all| - i, 1
  {
    hide Multiplication, MultiplyAdd, SamplerCall, UniformNames, TextureNames, Compares, Ordinary, Comparator,
         SkipBlanks;
    var prev, t := PrevAt(all, i), all[i];
    if t.text == "mul" {
      NotBareMul(sh, prev, t);
      Single(sh, all, i, []);
      MulCompares(sh, data, all, i);
    } else if t.text == "mad" {
      NotBareMul(sh, prev, t);
      Single(sh, all, i, []);
      MadCompares(sh, data, all, i);
    } else if SamplesHere(sh, t.text) {
      Single(sh, all, i, []);
      SamplerCompares(sh, data, all, i);
    } else if Bare(sh, prev, t) && Comparator(all, i + 1) {
      BareCompares(sh, data, all, i);
    } else {
      PlainCompares(sh, data, all, i);
    }
  }

  lemma NotBareMul(sh: Shader, prev: Token, t: Token)
    requires t.text == "mul" || t.text == "mad"
    ensures !Bare(sh, prev, t) && ConvertType(t.text) == Ok(t.text) && ConvertIntrinsic(t.text) == Ok("")
  {
  }

  lemma BareIsName(sh: Shader, prev: Token, t: Token)
    requires Bare(sh, prev, t)
    ensures t.Name?
  {
  }

  /** A name that is directly followed by a comparator. */
  lemma BareCompares(sh: Shader, data: Analysis, all: seq<Token>, i: nat)
    requires i < |all| && Bare(sh, PrevAt(all, i), all[i]) && Comparator(all, i + 1)
    ensures Stepped(sh, all, i, StepName(sh, data, PrevAt(all, i), all[i..]))
  {
    var ts := all[i..];
    assert ts[1] == all[i + 1] && ts[2..] == all[i + 2..] && ts[1..] == all[i + 1..];
    hide UniformNames, TextureNames, SkipBlanks;
    var c := Compare(all[i].text, all[i + 1].text, Operand(all, i + 1).text);
    OneComparison(sh, all, i, c);
    hide Compares;
  }

  lemma OneComparison(sh: Shader, all: seq<Token>, i: nat, c: Piece)
    requires ComparedAt(sh, all, i, c)
    ensures Compares(sh, all, i, i + 1, [c])
  {
    hide Bare, Comparator;
  }

  /** Any other name that takes one token. */
  lemma PlainCompares(sh: Shader, data: Analysis, all: seq<Token>, i: nat)
    requires i < |all| && all[i].Name? && !(Bare(sh, PrevAt(all, i), all[i]) && Comparator(all, i + 1))
    requires all[i].text != "mul" && all[i].text != "mad" && !SamplesHere(sh, all[i].text)
    ensures Stepped(sh, all, i, StepName(sh, data, PrevAt(all, i), all[i..]))
  {
    var prev, ts := PrevAt(all, i), all[i..];
    assert |ts| > 1 ==> ts[1] == all[i + 1];
    hide UniformNames, TextureNames, SkipBlanks, Walked, Compares;
    var r := StepName(sh, data, prev, ts);
    if r.Ok? {
      OneToken(sh, data, all, i);
      Single(sh, all, i, r.value.out);
    } else {
      Thrown(sh, all, i);
    }
  }

  lemma Thrown(sh: Shader, all: seq<Token>, i: nat)
    ensures Walked(sh, all, i, Result.Thrown)
  {
  }

  lemma OneToken(sh: Shader, data: Analysis, all: seq<Token>, i: nat)
    requires i < |all| && all[i].Name? && !(Bare(sh, PrevAt(all, i), all[i]) && Comparator(all, i + 1))
    requires all[i].text != "mul" && all[i].text != "mad" && !SamplesHere(sh, all[i].text)
    requires StepName(sh, data, PrevAt(all, i), all[i..]).Ok?
    ensures var r := StepName(sh, data, PrevAt(all, i), all[i..]).value;
      |r.out| == 1 && !r.out[0].Compare? && r == Chunk(r.out, all[i], all[i..][1..])
  {
    var ts := all[i..];
    assert |ts| > 1 ==> ts[1] == all[i + 1];
    hide UniformNames, TextureNames, SkipBlanks;
  }

  // ---------------------------------------------------------------------------------------------------------
  // Calls

  /** The opening parenthesis of a call, behind blanks. */
  lemma OpenCallAt(all: seq<Token>, j: nat) returns (a: nat)
    requires j <= |all| && OpenCall(all[j..]) != []
    ensures j <= a < |all| && OpenCall(all[j..]) == all[a..] && all[a].text == "("
    ensures forall k :: j <= k < a ==> all[k].Blank?
  {
    SkipEnds(all, j);
    a := |all| - |SkipBlanks(all[j..])|;
    hide SkipBlanks;
  }

  /** From a name to behind the parenthesis of its call. */
  lemma CallOpened(sh: Shader, all: seq<Token>, i: nat, a: nat)
    requires i < a < |all| && Ordinary(all) && all[a].text == "(" && forall k :: i < k < a ==> all[k].Blank?
    requires !Bare(sh, PrevAt(all, i), all[i])
    ensures Walked(sh, all, i, Ok(Chunk([], all[a], all[a..][1..])))
    ensures EndOf(all, Chunk([], all[a], all[a..][1..])) == a + 1
  {
    assert all[a..][1..] == all[a + 1..];
    forall k | i <= k < a + 1
      ensures !(Bare(sh, PrevAt(all, k), all[k]) && Comparator(all, k + 1))
    {
      if k > i { NotBare(sh, PrevAt(all, k), all[k]); }
    }
    PassedOver(sh, all, i, a + 1, []);
    hide Compares, Bare, Comparator;
  }

  /** The walk over the next argument, after what was printed so far. */
  lemma {:induction false} Argument(sh: Shader, data: Analysis, all: seq<Token>, i: nat, a: Chunk, end: string)
    requires Ordinary(all) && Delimits(end) && i < |all| && Walked(sh, all, i, Ok(a))
    ensures var r := Transpile(sh, data, a.last, a.rest, end);
      r.Ok? ==>
        && Walked(sh, all, i, Ok(Chunk(a.out + r.value.out, r.value.last, r.value.rest)))
        && EndsPlainly(r.value.out)
    decreases |a.rest|, 5
  {
    hide Transpile, Compares, EndsPlainly, Ordinary;
    GoOn(sh, data, all, i, a, end);
  }

  /** The same walk, with fixed text around what it printed. */
  lemma Dressed(sh: Shader, all: seq<Token>, i: nat, a: Chunk, out: seq<Piece>)
    requires Walked(sh, all, i, Ok(a)) && forall c: Piece :: c.Compare? ==> (c in a.out <==> c in out)
    requires EndsPlainly(out)
    ensures Stepped(sh, all, i, Ok(Chunk(out, a.last, a.rest)))
  {
    if i <= EndOf(all, a) {
      SameComparisons(sh, all, i, EndOf(all, a), a.out, out);
    }
    hide Compares;
  }

  lemma {:induction false} MulCompares(sh: Shader, data: Analysis, all: seq<Token>, i: nat)
    requires i < |all| && Ordinary(all) && !Bare(sh, PrevAt(all, i), all[i])
    ensures Stepped(sh, all, i, Multiplication(sh, data, all[i..]))
    decreases |all| - i, 0
  {
    hide Transpile, OpenCall, SecondFactor, Walked, Ordinary, Bare, EndsPlainly, Comparator;
    assert all[i..][1..] == all[i + 1..];
    if OpenCall(all[i + 1..]) == [] {
      Thrown(sh, all, i);
    } else {
      var k := OpenCallAt(all, i + 1);
      var open := Chunk([], all[k], all[k..][1..]);
      CallOpened(sh, all, i, k);
      Argument(sh, data, all, i, open, ",");
      var a := Transpile(sh, data, open.last, open.rest, ",");
      if a.Ok? {
        var so := Chunk([] + a.value.out, a.value.last, a.value.rest);
        SecondCompares(sh, data, all, i, so);
        var b := SecondFactor(sh, data, so.last, so.rest);
        if b.Ok? {
          var out := [Text("(")] + a.value.out + [Text(") * (")] + b.value.out + [Text(")")];
          assert EndsPlainly(out) by { EndsInText(out); }
          Dressed(sh, all, i, Chunk(so.out + b.value.out, b.value.last, b.value.rest), out);
        } else {
          Thrown(sh, all, i);
        }
      } else {
        Thrown(sh, all, i);
      }
    }
  }

  lemma EndsInText(out: seq<Piece>)
    requires out != [] && out[|out| - 1].Text?
    ensures EndsPlainly(out)
  {
  }

  lemma {:induction false} SecondCompares(sh: Shader, data: Analysis, all: seq<Token>, i: nat, a: Chunk)
    requires Ordinary(all) && i < |all| && Walked(sh, all, i, Ok(a))
    ensures var r := SecondFactor(sh, data, a.last, a.rest);
      r.Ok? ==> Walked(sh, all, i, Ok(Chunk(a.out + r.value.out, r.value.last, r.value.rest)))
    decreases |a.rest|, 6
  {
    hide Transpile, SkipBlanks, Ordinary, EndsPlainly, Compares;
    var j := EndOf(all, a);
    SkipEnds(all, j);
    var b := |all| - |SkipBlanks(a.rest)|;
    if b < |all| {
      BlanksPassed(sh, all, i, j, b, a.out);
      var so := Chunk(a.out, BeforeOperand(a.last, a.rest), SkipBlanks(a.rest));
      BeforeIs(all, j, b, a.last);
      Argument(sh, data, all, i, so, ")");
    }
  }

  lemma BlanksPassed(sh: Shader, all: seq<Token>, i: nat, j: nat, b: nat, out: seq<Piece>)
    requires i <= j <= b <= |all| && Compares(sh, all, i, j, out) && forall k :: j <= k < b ==> all[k].Blank?
    ensures Compares(sh, all, i, b, out)
  {
    forall k | j <= k < b
      ensures !(Bare(sh, PrevAt(all, k), all[k]) && Comparator(all, k + 1))
    {
      NotBare(sh, PrevAt(all, k), all[k]);
    }
    hide Bare, Comparator;
    PassedOver(sh, all, j, b, []);
    Joined(sh, all, i, j, b, out, []);
    assert out + [] == out;
  }

  lemma BeforeIs(all: seq<Token>, j: nat, b: nat, last: Token)
    requires j <= b < |all| && SkipBlanks(all[j..]) == all[b..] && last == PrevAt(all, j)
    ensures BeforeOperand(last, all[j..]) == PrevAt(all, b)
  {
    hide SkipBlanks;
  }

  lemma {:induction false} MadCompares(sh: Shader, data: Analysis, all: seq<Token>, i: nat)
    requires i < |all| && Ordinary(all) && !Bare(sh, PrevAt(all, i), all[i])
    ensures Stepped(sh, all, i, MultiplyAdd(sh, data, all[i..]))
    decreases |all| - i, 0
  {
    hide Transpile, OpenCall, Walked, Ordinary, Bare, EndsPlainly, Comparator, SkipBlanks;
    assert all[i..][1..] == all[i + 1..];
    Thrown(sh, all, i);
    if OpenCall(all[i + 1..]) != [] {
      var k := OpenCallAt(all, i + 1);
      var open := Chunk([], all[k], all[k..][1..]);
      CallOpened(sh, all, i, k);
      Argument(sh, data, all, i, open, ",");
      var a := Transpile(sh, data, open.last, open.rest, ",");
      if a.Ok? {
        var so := Chunk([] + a.value.out, a.value.last, a.value.rest);
        Argument(sh, data, all, i, so, ",");
        var b := Transpile(sh, data, so.last, so.rest, ",");
        if b.Ok? {
          var more := Chunk(so.out + b.value.out, b.value.last, b.value.rest);
          Argument(sh, data, all, i, more, ")");
          var c := Transpile(sh, data, more.last, more.rest, ")");
          if c.Ok? {
            var out := [Text("((")] + a.value.out + [Text(") * (")] + b.value.out + [Text(")) + (")] + c.value.out
                       + [Text(")")];
            EndsInText(out);
            Dressed(sh, all, i, Chunk(more.out + c.value.out, c.value.last, c.value.rest), out);
          }
        }
      }
    }
  }

  // ---------------------------------------------------------------------------------------------------------
  // Accesses to textures

  lemma {:induction false} SamplerCompares(sh: Shader, data: Analysis, all: seq<Token>, i: nat)
    requires i < |all| && Ordinary(all) && !Bare(sh, PrevAt(all, i), all[i])
    ensures Stepped(sh, all, i, SamplerCall(sh, data, all[i..]))
    decreases |all| - i, 0
  {
    hide *;
    var r := SamplerCall(sh, data, all[i..]);
    if r.Ok? {
      var m, k := MethodAt(sh, data, all, i);
      TextureCompares(sh, data, all, i, all[m].text, k);
      var access := TextureCall(sh, data, all[m].text, all[k..]).value;
      var out := [TextureRef(all[i].text), Text(".")] + access.out;
      InFront(access.out, out);
      Dressed(sh, all, i, access, out);
    } else {
      Thrown(sh, all, i);
      StepThrown(sh, all, i, r);
    }
  }

  lemma StepThrown(sh: Shader, all: seq<Token>, i: nat, r: Result<Chunk>)
    requires r.Thrown? && Walked(sh, all, i, r)
    ensures Stepped(sh, all, i, r)
  {
    hide Walked;
  }

  /** Where the method of a texture and its opening parenthesis are. */
  lemma MethodAt(sh: Shader, data: Analysis, all: seq<Token>, i: nat) returns (m: nat, k: nat)
    requires i < |all| && Ordinary(all) && !Bare(sh, PrevAt(all, i), all[i]) && SamplerCall(sh, data, all[i..]).Ok?
    ensures i < m < k < |all|
    ensures Walked(sh, all, i, Ok(Chunk([], all[k], all[k..][1..])))
    ensures var access := TextureCall(sh, data, all[m].text, all[k..]);
      && access.Ok?
      && SamplerCall(sh, data, all[i..])
         == Ok(Chunk([TextureRef(all[i].text), Text(".")] + access.value.out, access.value.last, access.value.rest))
  {
    hide OpenCall, Walked, Ordinary, Bare, Comparator, SkipBlanks, TextureCall;
    assert all[i..][1..] == all[i + 1..];
    SkipEnds(all, i + 1);
    var d := |all| - |SkipBlanks(all[i + 1..])|;
    assert all[d..][1..] == all[d + 1..];
    SkipEnds(all, d + 1);
    m := |all| - |SkipBlanks(all[d + 1..])|;
    assert all[m..][1..] == all[m + 1..];
    k := OpenCallAt(all, m + 1);
    MethodOpened(sh, all, i, d, m, k);
  }

  lemma InFront(a: seq<Piece>, out: seq<Piece>)
    requires EndsPlainly(a) && |out| > 1 && out == out[..2] + a && !out[0].Compare? && !out[1].Compare?
    ensures EndsPlainly(out) && forall c: Piece :: c.Compare? ==> (c in a <==> c in out)
  {
  }

  /** From a texture to behind the parenthesis of its method. */
  lemma MethodOpened(sh: Shader, all: seq<Token>, i: nat, d: nat, m: nat, k: nat)
    requires i < d < m < k < |all| && Ordinary(all) && all[d].text == "." && all[k].text == "("
    requires (forall n :: i < n < d ==> all[n].Blank?) && (forall n :: d < n < m ==> all[n].Blank?)
    requires forall n :: m < n < k ==> all[n].Blank?
    requires !Bare(sh, PrevAt(all, i), all[i])
    ensures Walked(sh, all, i, Ok(Chunk([], all[k], all[k..][1..])))
  {
    assert all[k..][1..] == all[k + 1..];
    assert !Comparator(all, m + 1);
    forall n | i <= n < k + 1
      ensures !(Bare(sh, PrevAt(all, n), all[n]) && Comparator(all, n + 1))
    {
      if n > i && n != m { NotBare(sh, PrevAt(all, n), all[n]); }
    }
    hide Bare, Comparator;
    PassedOver(sh, all, i, k + 1, []);
    hide Compares;
  }

  lemma {:induction false} TextureCompares(sh: Shader, data: Analysis, all: seq<Token>, i: nat, call: string, k: nat)
    requires i < k < |all| && Ordinary(all) && Walked(sh, all, i, Ok(Chunk([], all[k], all[k..][1..])))
    ensures var r := TextureCall(sh, data, call, all[k..]);
      r.Ok? ==> Walked(sh, all, i, r) && EndsPlainly(r.value.out)
    decreases |all| - k, 1
  {
    hide Transpile, Walked, Ordinary, EndsPlainly, SkipBlanks, ReadCall, TextureCall;
    var open := Chunk([], all[k], all[k..][1..]);
    if call == "Load" {
      LoadCompares(sh, data, all, i, k);
    } else {
      Argument(sh, data, all, i, open, ",");
      var a := Transpile(sh, data, open.last, open.rest, ",");
      if a.Ok? {
        var so := Chunk([] + a.value.out, a.value.last, a.value.rest);
        assert so == a.value;
        if call == "Sample" {
          ShortCompares(sh, data, all, i, k, so);
        } else {
          Argument(sh, data, all, i, so, ",");
          var b := Transpile(sh, data, so.last, so.rest, ",");
          if b.Ok? {
            LongCompares(sh, data, all, i, k, call, so, Chunk(so.out + b.value.out, b.value.last, b.value.rest));
          } else {
            NoSecond(sh, data, all, k, call);
          }
        }
      } else {
        NoFirst(sh, data, all, k, call);
      }
    }
  }

  lemma NoFirst(sh: Shader, data: Analysis, all: seq<Token>, k: nat, call: string)
    requires k < |all| && call != "Load" && Transpile(sh, data, all[k], all[k..][1..], ",").Thrown?
    ensures TextureCall(sh, data, call, all[k..]).Thrown?
  {
    hide Transpile;
  }

  lemma NoSecond(sh: Shader, data: Analysis, all: seq<Token>, k: nat, call: string)
    requires k < |all| && call != "Load" && call != "Sample"
    requires var a := Transpile(sh, data, all[k], all[k..][1..], ",");
      a.Ok? && Transpile(sh, data, a.value.last, a.value.rest, ",").Thrown?
    ensures TextureCall(sh, data, call, all[k..]).Thrown?
  {
    hide Transpile, SkipBlanks;
  }

  lemma {:induction false} LoadCompares(sh: Shader, data: Analysis, all: seq<Token>, i: nat, k: nat)
    requires i < k < |all| && Ordinary(all) && Walked(sh, all, i, Ok(Chunk([], all[k], all[k..][1..])))
    ensures var r := TextureCall(sh, data, "Load", all[k..]);
      r.Ok? ==> Walked(sh, all, i, r) && EndsPlainly(r.value.out)
    decreases |all| - k, 0
  {
    hide Transpile, Walked, Ordinary, EndsPlainly, ReadCall;
    var open := Chunk([], all[k], all[k..][1..]);
    Argument(sh, data, all, i, open, ")");
    var a := Transpile(sh, data, open.last, open.rest, ")");
    if a.Ok? && ReadCall(a.value.out).Ok? {
      var read := ReadCall(a.value.out).value;
      forall c: Piece | c.Compare?
        ensures c in [] + a.value.out <==> c in read
      {
        ReadKeeps(a.value.out, c);
      }
      ReadEnds(a.value.out);
      Dressed(sh, all, i, Chunk([] + a.value.out, a.value.last, a.value.rest), read);
    }
  }

  lemma ReadEnds(ps: seq<Piece>)
    requires ReadCall(ps).Ok?
    ensures EndsPlainly(ReadCall(ps).value)
  {
    hide Split;
  }

  lemma {:induction false} ShortCompares(sh: Shader, data: Analysis, all: seq<Token>, i: nat, k: nat, so: Chunk)
    requires i < k < |all| && Ordinary(all) && Walked(sh, all, i, Ok(so)) && |so.rest| < |all| - k
    requires Transpile(sh, data, all[k], all[k..][1..], ",") == Ok(so)
    ensures var r := TextureCall(sh, data, "Sample", all[k..]);
      r.Ok? ==> Walked(sh, all, i, r) && EndsPlainly(r.value.out)
    decreases |all| - k, 0
  {
    hide Transpile, Walked, Ordinary, EndsPlainly, SkipBlanks;
    Argument(sh, data, all, i, so, ")");
    var b := Transpile(sh, data, so.last, so.rest, ")");
    if b.Ok? {
      var out := [Text("sample(")] + so.out + SEPARATOR + b.value.out + [Text(")")];
      EndsInText(out);
      Dressed(sh, all, i, Chunk(so.out + b.value.out, b.value.last, b.value.rest), out);
    }
  }

  lemma {:induction false} LongCompares(sh: Shader, data: Analysis, all: seq<Token>, i: nat, k: nat, call: string,
                                        so: Chunk, more: Chunk)
    requires i < k < |all| && Ordinary(all) && Walked(sh, all, i, Ok(more)) && |more.rest| < |all| - k
    requires call != "Load" && call != "Sample" && Transpile(sh, data, all[k], all[k..][1..], ",") == Ok(so)
    requires var b := Transpile(sh, data, so.last, so.rest, ",");
      b.Ok? && more == Chunk(so.out + b.value.out, b.value.last, b.value.rest)
    ensures var r := TextureCall(sh, data, call, all[k..]);
      r.Ok? ==> Walked(sh, all, i, r) && EndsPlainly(r.value.out)
    decreases |all| - k, 0
  {
    hide Transpile, Walked, Ordinary, EndsPlainly, SkipBlanks;
    var b := Transpile(sh, data, so.last, so.rest, ",").value;
    if call == "SampleGrad" {
      Argument(sh, data, all, i, more, ",");
      var c := Transpile(sh, data, more.last, more.rest, ",");
      if c.Ok? {
        var last := Chunk(more.out + c.value.out, c.value.last, c.value.rest);
        Argument(sh, data, all, i, last, ")");
        var d := Transpile(sh, data, last.last, last.rest, ")");
        if d.Ok? {
          var out := [Text("sample(")] + so.out + SEPARATOR + b.out + SEPARATOR + [Text("gradient2d(")] + c.value.out
                     + SEPARATOR + d.value.out + [Text("))")];
          EndsInText(out);
          Dressed(sh, all, i, Chunk(last.out + d.value.out, d.value.last, d.value.rest), out);
        }
      }
    } else {
      Argument(sh, data, all, i, more, ")");
      var c := Transpile(sh, data, more.last, more.rest, ")");
      if c.Ok? {
        var option := if call == "SampleBias" then "bias(" else "level(";
        var out := [Text("sample(")] + so.out + SEPARATOR + b.out + SEPARATOR + [Text(option)] + c.value.out
                   + [Text("))")];
        EndsInText(out);
        Dressed(sh, all, i, Chunk(more.out + c.value.out, c.value.last, c.value.rest), out);
      }
    }
  }

  // ---------------------------------------------------------------------------------------------------------
  // When an emitted function is in scope

  /** A bare name directly followed by a comparator, with a uniform on one of the two sides. */
  ghost predicate RawUniform(sh: Shader, body: seq<Token>, k: nat) {
    && k < |body| && Bare(sh, PrevAt(body, k), body[k]) && Comparator(body, k + 1)
    && (body[k].text in UniformNames(sh) || Operand(body, k + 1).text in UniformNames(sh))
  }

  /** Only names are spelled like textures and samplers, names are not spelled like punctuation, and blanks are not
      spelled like the closing brace. */
  ghost predicate GlobalsByName(sh: Shader, i: nat)
    requires i < |sh.funcs|
  {
    && Ordinary(sh.funcs[i].body)
    && (forall t :: t in Body(sh.funcs[i]) ==> !(t.Blank? && t.text == "}"))
    && (forall t :: t in Body(sh.funcs[i]) && IsHandle(sh, t.text) ==> t.Name?)
    && !IsHandle(sh, "")
  }

  ghost predicate IsHandle(sh: Shader, n: string) {
    n in Declared(sh, Textures) || n in Declared(sh, Samplers)
  }

  ghost predicate EndsWith(ts: seq<Token>, rest: seq<Token>, end: string) {
    rest == [] || (|rest| < |ts| && rest == ts[|ts| - |rest|..] && ts[|ts| - |rest| - 1].text == end)
  }

  lemma EndsLater(ts: seq<Token>, inner: seq<Token>, rest: seq<Token>, end: string)
    requires ts != [] && Suffix(inner, ts[1..]) && EndsWith(inner, rest, end)
    ensures EndsWith(ts, rest, end)
  {
  }

  lemma {:induction false} SkipToEnd(ts: seq<Token>, end: string)
    requires ts != []
    ensures EndsWith(ts, SkipTo(ts, end), end)
    decreases |ts|
  {
    hide EndsWith;
    if ts[0].text == end {
      StopsAtOnce(ts, end);
    } else {
      var inner := if ts[0] == Other("{") then SkipTo(ts[1..], "}")
                   else if ts[0] == Other("(") then SkipTo(ts[1..], ")") else ts[1..];
      SkipToSuffix(ts[1..], if ts[0] == Other("{") then "}" else ")");
      if inner == [] {
        NothingBehind(ts, end);
      } else {
        SkipToEnd(inner, end);
      }
      EndsLater(ts, inner, SkipTo(inner, end), end);
    }
  }

  lemma StopsAtOnce(ts: seq<Token>, end: string)
    requires ts != [] && ts[0].text == end
    ensures EndsWith(ts, SkipTo(ts, end), end)
  {
  }

  lemma NothingBehind(ts: seq<Token>, end: string)
    ensures SkipTo([], end) == [] && EndsWith([], [], end)
  {
  }

  /** The operand of a comparison in the body lies in the body. */
  lemma OperandInBody(sh: Shader, i: nat, k: nat)
    requires i < |sh.funcs| && GlobalsByName(sh, i)
    requires var body, all := Body(sh.funcs[i]), sh.funcs[i].body;
      k < |body| <= |all| && all[k].Name? && Comparator(all, k + 1)
    ensures var body, all := Body(sh.funcs[i]), sh.funcs[i].body;
      && body == all[..|body|] && Comparator(body, k + 1) && Operand(body, k + 1) == Operand(all, k + 1)
      && (Operand(body, k + 1) == NONE || Operand(body, k + 1) in body)
  {
    hide *;
    BodyIsPrefix(sh.funcs[i]);
    if |Body(sh.funcs[i])| < |sh.funcs[i].body| {
      LastOfBody(sh, i);
    }
    OperandWithin(sh.funcs[i].body, |Body(sh.funcs[i])|, k);
  }

  lemma OperandWithin(all: seq<Token>, n: nat, k: nat)
    requires k < n <= |all| && all[k].Name? && Comparator(all, k + 1)
    requires n < |all| ==> all[n - 1].text == "}" && !all[n - 1].Name? && !all[n - 1].Blank?
    ensures Comparator(all[..n], k + 1) && Operand(all[..n], k + 1) == Operand(all, k + 1)
    ensures Operand(all[..n], k + 1) == NONE || Operand(all[..n], k + 1) in all[..n]
  {
    if n == |all| {
      assert all[..n] == all;
      SkipEnds(all, k + 2);
    } else {
      assert all[k + 1].text != "}" && k + 1 < n - 1;
      SkipEnds(all, k + 2);
      var m := |all| - |SkipBlanks(all[k + 2..])|;
      hide SkipBlanks;
      assert m < n;
      OperandStays(all, n, k + 1, m);
    }
  }

  lemma BodyIsPrefix(f: Func)
    ensures |Body(f)| <= |f.body| && Body(f) == f.body[..|Body(f)|] && |f.body| - |Body(f)| == |SkipTo(f.body, "}")|
  {
  }

  lemma LastOfBody(sh: Shader, i: nat)
    requires i < |sh.funcs| && GlobalsByName(sh, i) && |Body(sh.funcs[i])| < |sh.funcs[i].body|
    ensures var n, all := |Body(sh.funcs[i])|, sh.funcs[i].body;
      n > 0 && all[n - 1].text == "}" && !all[n - 1].Name? && !all[n - 1].Blank?
  {
    var f := sh.funcs[i];
    SkipToEnd(f.body, "}");
    assert EndsWith(f.body, SkipTo(f.body, "}"), "}");
    BodyIsPrefix(f);
    var n := |Body(f)|;
    hide Scanned, SkipTo;
    assert Body(f)[n - 1] == f.body[n - 1] && f.body[n - 1] in Body(f);
  }

  lemma OperandStays(all: seq<Token>, n: nat, k: nat, m: nat)
    requires k < m < n <= |all| && !all[m].Blank? && forall j :: k < j < m ==> all[j].Blank?
    ensures Operand(all[..n], k) == Operand(all, k) == all[m] && all[m] in all[..n]
  {
    FirstAt(all, k + 1, m);
    FirstAt(all[..n], k + 1, m);
    assert all[..n][m] == all[m];
    hide SkipBlanks;
  }

  lemma FirstAt(ts: seq<Token>, j: nat, m: nat)
    requires j <= m < |ts| && !ts[m].Blank? && forall k :: j <= k < m ==> ts[k].Blank?
    ensures SkipBlanks(ts[j..]) == ts[m..]
    decreases m - j
  {
    if j < m {
      assert ts[j..][1..] == ts[j + 1..];
      FirstAt(ts, j + 1, m);
    }
  }

  /** A texture or a sampler that the body mentions is a parameter. */
  lemma HandleIsParameter(sh: Shader, i: nat, n: string)
    requires WellFormed(sh) && i < |sh.funcs| && Mentions(sh, i, n) && IsHandle(sh, n)
    ensures n in Signature(sh, FinalData(sh, i), sh.funcs[i])
  {
    SignatureEndsWithExtras(sh, i);
    hide WellFormed, Mentions, Signature, FinalData, Extras;
    if n in Declared(sh, Textures) {
      OwnIsExtra(sh, i, Textures, n, n);
    } else {
      OwnIsExtra(sh, i, Samplers, n, n);
    }
  }

  /** A comparison is in scope exactly if there is no uniform on either side. */
  lemma ComparisonInScope(sh: Shader, i: nat, k: nat)
    requires WellFormed(sh) && i < |sh.funcs| && GlobalsByName(sh, i)
    requires var body, all := Body(sh.funcs[i]), sh.funcs[i].body;
      k < |body| <= |all| && Bare(sh, PrevAt(all, k), all[k]) && Comparator(all, k + 1)
    ensures var all := sh.funcs[i].body;
      InScope(sh, Signature(sh, FinalData(sh, i), sh.funcs[i]),
              Compare(all[k].text, all[k + 1].text, Operand(all, k + 1).text))
      <==> !RawUniform(sh, Body(sh.funcs[i]), k)
  {
    hide *;
    var body, all := Body(sh.funcs[i]), sh.funcs[i].body;
    BareIsName(sh, PrevAt(all, k), all[k]);
    OperandInBody(sh, i, k);
    SameAt(all, |body|, k);
    var l, r := body[k].text, Operand(body, k + 1);
    assert body[k] == Name(l) && body[k] in body;
    Mentioned(sh, i, l);
    if IsHandle(sh, l) {
      HandleIsParameter(sh, i, l);
    }
    if IsHandle(sh, r.text) {
      OperandIsName(sh, i, r);
      Mentioned(sh, i, r.text);
      HandleIsParameter(sh, i, r.text);
    }
    RawIs(sh, Signature(sh, FinalData(sh, i), sh.funcs[i]), body, k);
  }

  lemma SameAt(all: seq<Token>, n: nat, k: nat)
    requires k < n <= |all|
    ensures PrevAt(all[..n], k) == PrevAt(all, k) && all[..n][k] == all[k]
    ensures Comparator(all[..n], k + 1) ==> k + 1 < n && all[..n][k + 1] == all[k + 1]
  {
  }

  lemma OperandIsName(sh: Shader, i: nat, r: Token)
    requires i < |sh.funcs| && GlobalsByName(sh, i) && IsHandle(sh, r.text)
    requires r == NONE || r in Body(sh.funcs[i])
    ensures r == Name(r.text) && Name(r.text) in Body(sh.funcs[i])
  {
    hide Ordinary, IsHandle, Body;
  }

  lemma RawIs(sh: Shader, params: seq<string>, body: seq<Token>, k: nat)
    requires k < |body| && Bare(sh, PrevAt(body, k), body[k]) && Comparator(body, k + 1)
    requires var l, r := body[k].text, Operand(body, k + 1).text;
      (IsHandle(sh, l) ==> l in params) && (IsHandle(sh, r) ==> r in params)
    ensures InScope(sh, params, Compare(body[k].text, body[k + 1].text, Operand(body, k + 1).text))
       <==> !RawUniform(sh, body, k)
  {
    hide Bare, Operand, UniformNames, Declared;
  }

  lemma Mentioned(sh: Shader, i: nat, n: string)
    requires i < |sh.funcs| && Name(n) in Body(sh.funcs[i])
    ensures Mentions(sh, i, n)
  {
  }

  /** The comparisons that are emitted for a function are those of its body, if every call that is taken apart has its
      operands between its parentheses. */
  lemma EmittedCompares(sh: Shader, i: nat)
    requires i < |sh.funcs| && Ordinary(sh.funcs[i].body)
    requires Lexical(sh.funcs[i].body) && Complete(sh, sh.funcs[i].body, "}")
    ensures EmittedBody(sh, i).Ok? ==>
        Compares(sh, sh.funcs[i].body, 0, |Body(sh.funcs[i])|, EmittedBody(sh, i).value.out)
  {
    var all := sh.funcs[i].body;
    BodyIsPrefix(sh.funcs[i]);
    BodyEnds(sh, i);
    assert all[0..] == all;
    hide Transpile, SkipTo, Body, Ordinary, Compares, FinalAnalysis, Lexical, Complete;
    if all == [] {
      NothingLeft(sh, FinalAnalysis(sh), all, BEGIN, "}");
    } else {
      WalkCompares(sh, FinalAnalysis(sh), all, 0, "}");
    }
  }

  /** Everything that an emitted function names is a parameter of it exactly when in its body no bare name that is
      directly followed by a comparator has a uniform beside it. This needs every call that is taken apart to have its
      operands between its own parentheses: a `mul` with one operand takes the second one from the functions behind. */
  lemma ScopedExactly(sh: Shader, i: nat)
    requires WellFormed(sh) && i < |sh.funcs| && CallsByName(sh, i) && GlobalsByName(sh, i)
    requires Lexical(sh.funcs[i].body) && Complete(sh, sh.funcs[i].body, "}")
    ensures EmittedBody(sh, i).Ok? ==>
        ((forall p :: p in EmittedBody(sh, i).value.out ==>
            InScope(sh, Signature(sh, FinalData(sh, i), sh.funcs[i]), p))
         <==> forall k: nat :: !RawUniform(sh, Body(sh.funcs[i]), k))
  {
    hide WellFormed, CallsByName, SkipTo, Transpile, Signature, FinalData, Bare, Comparator, Operand, InScope, Body,
         RawUniform, Lexical, Complete;
    if EmittedBody(sh, i).Thrown? {
      return;
    }
    var all, body, out := sh.funcs[i].body, Body(sh.funcs[i]), EmittedBody(sh, i).value.out;
    var params := Signature(sh, FinalData(sh, i), sh.funcs[i]);
    BodyIsPrefix(sh.funcs[i]);
    EmittedCompares(sh, i);
    EmittedBodyInScope(sh, i);
    if forall k: nat :: !RawUniform(sh, body, k) {
      forall p | p in out
        ensures InScope(sh, params, p)
      {
        if p.Compare? {
          var k :| 0 <= k < |body| && ComparedAt(sh, all, k, p);
          ComparisonInScope(sh, i, k);
        }
      }
    }
    if k: nat :| RawUniform(sh, body, k) {
      RawIsCompared(sh, i, k);
      var c := Compare(all[k].text, all[k + 1].text, Operand(all, k + 1).text);
      assert ComparedAt(sh, all, k, c);
      assert ComparedIn(sh, all, 0, |body|, c);
      assert c in out;
      ComparisonInScope(sh, i, k);
    }
  }

  /** A body that can be translated is translated, and everything it names is a parameter under that condition. */
  lemma TranslatedIsScoped(sh: Shader, i: nat)
    requires WellFormed(sh) && i < |sh.funcs| && CallsByName(sh, i) && GlobalsByName(sh, i) && TranslatableBody(sh, i)
    ensures EmittedBody(sh, i).Ok?
    ensures (forall p :: p in EmittedBody(sh, i).value.out ==>
              InScope(sh, Signature(sh, FinalData(sh, i), sh.funcs[i]), p))
       <==> forall k: nat :: !RawUniform(sh, Body(sh.funcs[i]), k)
  {
    hide *;
    BodyIsTranslated(sh, i);
    TranslatableParts(sh, i);
    ScopedExactly(sh, i);
  }

  lemma TranslatableParts(sh: Shader, i: nat)
    requires i < |sh.funcs| && TranslatableBody(sh, i)
    ensures Lexical(sh.funcs[i].body) && Complete(sh, sh.funcs[i].body, "}")
  {
    hide Lexical, Complete, Closed, AllSplitWell, MarksAreHarmless, SkipTo, FinalAnalysis;
  }

  lemma RawIsCompared(sh: Shader, i: nat, k: nat)
    requires i < |sh.funcs| && RawUniform(sh, Body(sh.funcs[i]), k)
    ensures var body, all := Body(sh.funcs[i]), sh.funcs[i].body;
      k < |body| <= |all| && k + 1 < |all| && Bare(sh, PrevAt(all, k), all[k]) && Comparator(all, k + 1)
  {
    BodyIsPrefix(sh.funcs[i]);
    var body, all := Body(sh.funcs[i]), sh.funcs[i].body;
    assert PrevAt(body, k) == PrevAt(all, k) && body[k] == all[k] && body[k + 1] == all[k + 1];
    hide Body, Bare;
  }
}
