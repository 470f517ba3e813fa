/** The texts of two shader stages, from the flattened structs to the final names: where the text is renamed rightly,
    and that the vertex shader's results are the pixel shader's inputs. */
module GlslStages {
  import opened GlslWriter
  import opened GlslInterface
  import opened GlslLinking
  import opened GlslInterfaceWriter
  import opened GlslRenaming
  import opened GlslApart

  /** What the interface of a shader is made from. `head` is the text up to the interface, `middle` that between the
      interface and the wrapper's assignments, and `args` the arguments of the call in between. */
  datatype Shader = Shader(stage: Stage, params: seq<Var>, result: Var, head: string, middle: string, args: string)

  function Inputs(s: Shader): seq<Attrib> {
    AttribsOf(s.stage, s.params, true, "inputval_")
  }

  function Outputs(s: Shader): seq<Attrib> {
    Attribs(s.stage, s.result, false, "")
  }

  function Variables(s: Shader): seq<Attrib> {
    Inputs(s) + Outputs(s)
  }

  /** The wrapper takes its parameter from the inputs. */
  function ReadText(s: Shader): string {
    if s.params == [] then "" else AssignmentText(Assigns(s.stage, s.params[0], "\t", "inputval_", true))
  }

  /** It passes on a result that is a struct. */
  function WriteText(s: Shader): string {
    if s.result.Leaf? then "" else "\n" + AssignmentText(Assigns(s.stage, s.result, "\t", "", false))
  }

  function CallText(s: Shader): string {
    "\n\t" + "outputval" + (" = _main_wrap(" + s.args + ");\n")
  }

  /** The text before renaming. */
  function Emitted(s: Shader): string {
    s.head + Declarations(Inputs(s)) + "\n" + Declarations(Outputs(s)) + "\n" + s.middle + ReadText(s) + CallText(s)
    + WriteText(s) + "}\n"
  }

  // ---------------------------------------------------------------------------------------------------------
  // Where the variables stand in it

  function DeclarationStart(a: Attrib): string {
    (if a.input then "in " else "out ") + TypeText(a.typeName) + " "
  }

  function DeclarationSegments(attribs: seq<Attrib>, n: nat): seq<Segment> {
    if attribs == [] then []
    else
      var a := attribs[0];
      [Plain(DeclarationStart(a)), Ref(n), Plain(";\n")]
      + DeclarationSegments(attribs[1..], n + 1)
  }

  function ReadOne(stage: Stage, l: LeafRef, n: nat): seq<Segment> {
    var a := Reading(stage, l, "");
    if BuiltIn(stage, l.mapping, true) then [Plain(a.dst + " = " + a.src + ";\n")]
    else [Plain(a.dst + " = "), Ref(n), Plain(";\n")]
  }

  function WriteOne(stage: Stage, l: LeafRef, n: nat): seq<Segment> {
    var a := Writing(stage, l);
    if BuiltIn(stage, l.mapping, false) then [Plain(a.dst + " = " + a.src + ";\n")]
    else [Plain("\t"), Ref(n), Plain(" = " + a.src + ";\n")]
  }

  function Taken(stage: Stage, l: LeafRef, input: bool): nat {
    if BuiltIn(stage, l.mapping, input) then 0 else 1
  }

  function ReadSegments(stage: Stage, ls: seq<LeafRef>, n: nat): seq<Segment> {
    if ls == [] then []
    else ReadOne(stage, ls[0], n) + ReadSegments(stage, ls[1..], n + Taken(stage, ls[0], true))
  }

  function WriteSegments(stage: Stage, ls: seq<LeafRef>, n: nat): seq<Segment> {
    if ls == [] then []
    else WriteOne(stage, ls[0], n) + WriteSegments(stage, ls[1..], n + Taken(stage, ls[0], false))
  }

  /** A result that is no struct is assigned by the call itself. */
  function CallSegments(s: Shader): seq<Segment> {
    if s.result.Leaf? && !BuiltIn(s.stage, s.result.mapping, false) then
      [Plain("\n\t"), Ref(|Inputs(s)|), Plain(" = _main_wrap(" + s.args + ");\n")]
    else [Plain(CallText(s))]
  }

  function ReadPart(s: Shader): seq<Segment> {
    if s.params == [] then [] else ReadSegments(s.stage, Leaves(s.params[0], []), 0)
  }

  function WritePart(s: Shader): seq<Segment> {
    if s.result.Leaf? then []
    else [Plain("\n")] + WriteSegments(s.stage, Leaves(s.result, []), |Inputs(s)|)
  }

  function Segments(s: Shader): seq<Segment> {
    [Plain(s.head)] + DeclarationSegments(Inputs(s), 0) + [Plain("\n")] + DeclarationSegments(Outputs(s), |Inputs(s)|)
    + [Plain("\n" + s.middle)] + ReadPart(s) + CallSegments(s) + WritePart(s) + [Plain("}\n")]
  }

  // ---------------------------------------------------------------------------------------------------------
  // The segments spell the text

  /** From number `n` on, these are the names of those variables. */
  predicate Named(names: seq<string>, n: nat, attribs: seq<Attrib>) {
    n + |attribs| <= |names| && forall i :: 0 <= i < |attribs| ==> names[n + i] == attribs[i].name
  }

  lemma NamedParts(names: seq<string>, n: nat, a: seq<Attrib>, b: seq<Attrib>)
    requires Named(names, n, a + b)
    ensures Named(names, n, a) && Named(names, n + |a|, b)
  {
    assert forall i :: 0 <= i < |a| ==> (a + b)[i] == a[i];
    assert forall i :: 0 <= i < |b| ==> (a + b)[|a| + i] == b[i];
  }

  lemma SpellingAppend(a: seq<Segment>, b: seq<Segment>, names: seq<string>)
    ensures Spelling(a + b, names) == Spelling(a, names) + Spelling(b, names)
  {
    if a == [] {
      assert a + b == b;
    } else {
      assert (a + b)[1..] == a[1..] + b;
      SpellingAppend(a[1..], b, names);
    }
  }

  lemma SpellingOne(s: Segment, names: seq<string>)
    ensures Spelling([s], names) == SegmentText(s, names)
  {
    assert [s][1..] == [];
  }

  lemma SpellingThree(a: string, n: nat, b: string, names: seq<string>)
    requires n < |names|
    ensures Spelling([Plain(a), Ref(n), Plain(b)], names) == a + names[n] + b
  {
    SpellingOne(Plain(a), names);
    SpellingOne(Ref(n), names);
    SpellingOne(Plain(b), names);
    SpellingAppend([Plain(a)], [Ref(n)], names);
    SpellingAppend([Plain(a)] + [Ref(n)], [Plain(b)], names);
    assert [Plain(a), Ref(n), Plain(b)] == [Plain(a)] + [Ref(n)] + [Plain(b)];
    hide Spelling;
  }

  lemma DeclarationUnfolds(attribs: seq<Attrib>, n: nat)
    requires attribs != []
    ensures DeclarationSegments(attribs, n)
         == [Plain(DeclarationStart(attribs[0])), Ref(n), Plain(";\n")] + DeclarationSegments(attribs[1..], n + 1)
    ensures Declarations(attribs) == DeclarationStart(attribs[0]) + attribs[0].name + ";\n" + Declarations(attribs[1..])
  {
    hide TypeText;
  }

  lemma NothingDeclared(n: nat, names: seq<string>)
    ensures Spelling(DeclarationSegments([], n), names) == Declarations([])
  {
  }

  lemma FirstNamed(names: seq<string>, n: nat, attribs: seq<Attrib>)
    requires Named(names, n, attribs) && attribs != []
    ensures n < |names| && names[n] == attribs[0].name && Named(names, n + 1, attribs[1..])
  {
    assert names[n + 0] == attribs[0].name;
    assert attribs == [attribs[0]] + attribs[1..];
    NamedParts(names, n, [attribs[0]], attribs[1..]);
  }

  lemma {:induction false} DeclarationsSpelled(attribs: seq<Attrib>, n: nat, names: seq<string>)
    requires Named(names, n, attribs)
    ensures Spelling(DeclarationSegments(attribs, n), names) == Declarations(attribs)
  {
    hide *;
    if attribs == [] {
      NothingDeclared(n, names);
    } else {
      var a, rest := attribs[0], attribs[1..];
      FirstNamed(names, n, attribs);
      DeclarationUnfolds(attribs, n);
      DeclarationsSpelled(rest, n + 1, names);
      SpellingThree(DeclarationStart(a), n, ";\n", names);
      SpellingAppend([Plain(DeclarationStart(a)), Ref(n), Plain(";\n")], DeclarationSegments(rest, n + 1), names);
    }
  }

  function Line(a: Assignment): string {
    a.dst + " = " + a.src + ";\n"
  }

  lemma ReadOneSpelled(stage: Stage, l: LeafRef, n: nat, prefix: string, names: seq<string>)
    requires Named(names, n, VariableOf(stage, l, true, prefix))
    ensures Spelling(ReadOne(stage, l, n), names) == Line(Reading(stage, l, prefix))
  {
    var a, b := Reading(stage, l, ""), Reading(stage, l, prefix);
    hide Spelling, Join;
    if BuiltIn(stage, l.mapping, true) {
      SpellingOne(Plain(a.dst + " = " + a.src + ";\n"), names);
    } else {
      assert names[n + 0] == VariableOf(stage, l, true, prefix)[0].name == b.src;
      SpellingThree(a.dst + " = ", n, ";\n", names);
    }
  }

  lemma WriteOneSpelled(stage: Stage, l: LeafRef, n: nat, names: seq<string>)
    requires Named(names, n, VariableOf(stage, l, false, ""))
    ensures Spelling(WriteOne(stage, l, n), names) == Line(Writing(stage, l))
  {
    var a := Writing(stage, l);
    WriteOneIs(stage, l, n);
    if BuiltIn(stage, l.mapping, false) {
      hide *;
      PlainSpelled(Line(a), names);
    } else {
      var rest := " = " + a.src + ";\n";
      assert names[n + 0] == VariableOf(stage, l, false, "")[0].name;
      hide *;
      SpellingThree("\t", n, rest, names);
    }
  }

  lemma WriteOneIs(stage: Stage, l: LeafRef, n: nat)
    ensures var a := Writing(stage, l);
      && (BuiltIn(stage, l.mapping, false) ==> WriteOne(stage, l, n) == [Plain(Line(a))])
      && (!BuiltIn(stage, l.mapping, false) ==>
            var rest := " = " + a.src + ";\n";
            && WriteOne(stage, l, n) == [Plain("\t"), Ref(n), Plain(rest)]
            && Line(a) == "\t" + VariableOf(stage, l, false, "")[0].name + rest)
  {
    var a := Writing(stage, l);
    var name := Join(l.path, "_");
    assert "" + name == name;
    assert !BuiltIn(stage, l.mapping, false) ==> a.dst == "\t" + name;
    hide Join;
    assert "\t" + name + (" = " + a.src + ";\n") == "\t" + name + " = " + a.src + ";\n";
  }

  lemma ReadUnfolds(stage: Stage, ls: seq<LeafRef>, n: nat, prefix: string)
    requires ls != []
    ensures |VariableOf(stage, ls[0], true, prefix)| == Taken(stage, ls[0], true)
    ensures VariablesOf(stage, ls, true, prefix)
         == VariableOf(stage, ls[0], true, prefix) + VariablesOf(stage, ls[1..], true, prefix)
    ensures ReadSegments(stage, ls, n)
         == ReadOne(stage, ls[0], n) + ReadSegments(stage, ls[1..], n + Taken(stage, ls[0], true))
    ensures AssignmentText(Readings(stage, ls, prefix))
         == Line(Reading(stage, ls[0], prefix)) + AssignmentText(Readings(stage, ls[1..], prefix))
  {
    assert Readings(stage, ls, prefix)[1..] == Readings(stage, ls[1..], prefix);
    hide Join, ReadOne;
  }

  lemma NothingRead(stage: Stage, n: nat, prefix: string, names: seq<string>)
    ensures Spelling(ReadSegments(stage, [], n), names) == AssignmentText(Readings(stage, [], prefix)) == ""
  {
  }

  lemma NothingWritten(stage: Stage, n: nat, names: seq<string>)
    ensures Spelling(WriteSegments(stage, [], n), names) == AssignmentText(Writings(stage, [])) == ""
  {
  }

  lemma {:induction false} ReadsSpelled(stage: Stage, ls: seq<LeafRef>, n: nat, prefix: string, names: seq<string>)
    requires Named(names, n, VariablesOf(stage, ls, true, prefix))
    ensures Spelling(ReadSegments(stage, ls, n), names) == AssignmentText(Readings(stage, ls, prefix))
  {
    hide *;
    if ls == [] {
      NothingRead(stage, n, prefix, names);
      return;
    }
    var k := Taken(stage, ls[0], true);
    ReadUnfolds(stage, ls, n, prefix);
    NamedParts(names, n, VariableOf(stage, ls[0], true, prefix), VariablesOf(stage, ls[1..], true, prefix));
    ReadsSpelled(stage, ls[1..], n + k, prefix, names);
    ReadOneSpelled(stage, ls[0], n, prefix, names);
    SpellingAppend(ReadOne(stage, ls[0], n), ReadSegments(stage, ls[1..], n + k), names);
  }

  lemma WriteUnfolds(stage: Stage, ls: seq<LeafRef>, n: nat)
    requires ls != []
    ensures |VariableOf(stage, ls[0], false, "")| == Taken(stage, ls[0], false)
    ensures VariablesOf(stage, ls, false, "")
         == VariableOf(stage, ls[0], false, "") + VariablesOf(stage, ls[1..], false, "")
    ensures WriteSegments(stage, ls, n)
         == WriteOne(stage, ls[0], n) + WriteSegments(stage, ls[1..], n + Taken(stage, ls[0], false))
    ensures AssignmentText(Writings(stage, ls))
         == Line(Writing(stage, ls[0])) + AssignmentText(Writings(stage, ls[1..]))
  {
    assert Writings(stage, ls)[1..] == Writings(stage, ls[1..]);
    hide Join, WriteOne;
  }

  lemma {:induction false} WritesSpelled(stage: Stage, ls: seq<LeafRef>, n: nat, names: seq<string>)
    requires Named(names, n, VariablesOf(stage, ls, false, ""))
    ensures Spelling(WriteSegments(stage, ls, n), names) == AssignmentText(Writings(stage, ls))
  {
    hide *;
    if ls == [] {
      NothingWritten(stage, n, names);
      return;
    }
    var k := Taken(stage, ls[0], false);
    WriteUnfolds(stage, ls, n);
    NamedParts(names, n, VariableOf(stage, ls[0], false, ""), VariablesOf(stage, ls[1..], false, ""));
    WritesSpelled(stage, ls[1..], n + k, names);
    WriteOneSpelled(stage, ls[0], n, names);
    SpellingAppend(WriteOne(stage, ls[0], n), WriteSegments(stage, ls[1..], n + k), names);
  }

  function OldNames(s: Shader): seq<string> {
    NamesAfter(s.stage, Variables(s), 0)
  }

  function NewNames(s: Shader): seq<string> {
    NamesAfter(s.stage, Variables(s), |Variables(s)|)
  }

  lemma OldNamesAre(s: Shader)
    ensures Named(OldNames(s), 0, Inputs(s)) && Named(OldNames(s), |Inputs(s)|, Outputs(s))
  {
    assert Named(OldNames(s), 0, Variables(s));
    hide Inputs, Outputs, OldNames;
    NamedParts(OldNames(s), 0, Inputs(s), Outputs(s));
  }

  lemma InputsPerLeaf(s: Shader)
    ensures Inputs(s) == VariablesOf(s.stage, LeavesOf(s.params, []), true, "inputval_")
    ensures s.params != [] ==>
      LeavesOf(s.params, []) == Leaves(s.params[0], []) + LeavesOf(s.params[1..], [])
  {
    assert "inputval_" + Prefix([], "_") == "inputval_";
    DeclaredPerLeafOf(s.stage, s.params, true, "inputval_", []);
    hide AttribsOf, VariablesOf;
  }

  lemma OutputsPerLeaf(s: Shader)
    ensures Outputs(s) == VariablesOf(s.stage, Leaves(s.result, []), false, "")
  {
    assert "" + Prefix([], "_") == "";
    DeclaredPerLeaf(s.stage, s.result, false, "", []);
    hide Attribs, VariablesOf;
  }

  lemma ReadPartSpelled(s: Shader, names: seq<string>)
    requires Named(names, 0, Inputs(s))
    ensures Spelling(ReadPart(s), names) == ReadText(s)
  {
    if s.params != [] {
      var ls, rest := Leaves(s.params[0], []), LeavesOf(s.params[1..], []);
      InputsPerLeaf(s);
      assert "\t" + Prefix([], ".") == "\t" && "inputval_" + Prefix([], "_") == "inputval_";
      ReadPerLeaf(s.stage, s.params[0], "inputval_", []);
      assert ReadText(s) == AssignmentText(Readings(s.stage, ls, "inputval_"));
      assert ReadPart(s) == ReadSegments(s.stage, ls, 0);
      hide *;
      VariablesAppend(s.stage, ls, rest, true, "inputval_");
      NamedParts(names, 0, VariablesOf(s.stage, ls, true, "inputval_"),
                 VariablesOf(s.stage, rest, true, "inputval_"));
      ReadsSpelled(s.stage, ls, 0, "inputval_", names);
    }
  }

  lemma WritePartSpelled(s: Shader, names: seq<string>)
    requires Named(names, |Inputs(s)|, Outputs(s))
    ensures Spelling(WritePart(s), names) == WriteText(s)
  {
    if s.result.Nested? {
      var ls := Leaves(s.result, []);
      OutputsPerLeaf(s);
      assert "\t" + Prefix([], "_") == "\t" && Prefix([], ".") == "";
      WrittenPerLeaf(s.stage, s.result, []);
      assert WriteText(s) == "\n" + AssignmentText(Writings(s.stage, ls));
      assert WritePart(s) == [Plain("\n")] + WriteSegments(s.stage, ls, |Inputs(s)|);
      SpellingOne(Plain("\n"), names);
      assert SegmentText(Plain("\n"), names) == "\n";
      hide *;
      WritesSpelled(s.stage, ls, |Inputs(s)|, names);
      SpellingAppend([Plain("\n")], WriteSegments(s.stage, ls, |Inputs(s)|), names);
    }
  }

  lemma CallSpelled(s: Shader, names: seq<string>)
    requires s.result.name == "outputval" && Named(names, |Inputs(s)|, Outputs(s))
    ensures Spelling(CallSegments(s), names) == CallText(s)
  {
    var n := |Inputs(s)|;
    if s.result.Leaf? && !BuiltIn(s.stage, s.result.mapping, false) {
      assert names[n + 0] == Outputs(s)[0].name == "outputval";
      SpellingThree("\n\t", n, " = _main_wrap(" + s.args + ");\n", names);
      hide Spelling, Inputs, Outputs;
    } else {
      SpellingOne(Plain(CallText(s)), names);
    }
  }

  /** The text is the segments, spelled with the names of the flattened members. */
  lemma EmittedIsSpelled(s: Shader)
    requires s.result.name == "outputval"
    ensures Emitted(s) == Spelling(Segments(s), OldNames(s))
  {
    var names := OldNames(s);
    var ds, es := DeclarationSegments(Inputs(s), 0), DeclarationSegments(Outputs(s), |Inputs(s)|);
    var a := [Plain(s.head)] + ds;
    var b := a + [Plain("\n")] + es;
    var c := b + [Plain("\n" + s.middle)] + ReadPart(s);
    var d := c + CallSegments(s) + WritePart(s);
    assert Segments(s) == d + [Plain("}\n")];
    PlainSpelled(s.head, names);
    PlainSpelled("\n", names);
    PlainSpelled("\n" + s.middle, names);
    PlainSpelled("}\n", names);
    OldNamesAre(s);
    hide *;
    DeclarationsSpelled(Inputs(s), 0, names);
    DeclarationsSpelled(Outputs(s), |Inputs(s)|, names);
    ReadPartSpelled(s, names);
    CallSpelled(s, names);
    WritePartSpelled(s, names);
    SpellingAppend([Plain(s.head)], ds, names);
    SpellingAppend(a, [Plain("\n")], names);
    SpellingAppend(a + [Plain("\n")], es, names);
    SpellingAppend(b, [Plain("\n" + s.middle)], names);
    SpellingAppend(b + [Plain("\n" + s.middle)], ReadPart(s), names);
    SpellingAppend(c, CallSegments(s), names);
    SpellingAppend(c + CallSegments(s), WritePart(s), names);
    SpellingAppend(d, [Plain("}\n")], names);
    EmittedParts(s);
  }

  lemma PlainSpelled(text: string, names: seq<string>)
    ensures Spelling([Plain(text)], names) == text
  {
    SpellingOne(Plain(text), names);
  }

  lemma EmittedParts(s: Shader)
    ensures Emitted(s)
         == s.head + Declarations(Inputs(s)) + "\n" + Declarations(Outputs(s)) + ("\n" + s.middle) + ReadText(s)
            + CallText(s) + WriteText(s) + "}\n"
  {
    hide Declarations, Inputs, Outputs, ReadText, CallText, WriteText;
    var q := s.head + Declarations(Inputs(s)) + "\n" + Declarations(Outputs(s));
    assert q + "\n" + s.middle == q + ("\n" + s.middle);
  }

  // ---------------------------------------------------------------------------------------------------------
  // The text is fit for renaming

  /** Between its segments, and behind the last one, stand characters that no name holds. */
  predicate Fit(segments: seq<Segment>, n: nat) {
    && Delimited(segments) && RefsBelow(segments, n)
    && (segments != [] ==> var last := segments[|segments| - 1];
          last.Plain? && EndsOpen(last.text))
  }

  lemma FitAppend(a: seq<Segment>, b: seq<Segment>, n: nat)
    requires Fit(a, n) && Fit(b, n)
    ensures Fit(a + b, n)
  {
    var c := a + b;
    hide EndsOpen, StartsOpen;
    forall i | 0 <= i < |c| - 1
      ensures Boundary(c[i], c[i + 1])
    {
      if i < |a| - 1 {
        assert c[i] == a[i] && c[i + 1] == a[i + 1];
      } else if i >= |a| {
        assert c[i] == b[i - |a|] && c[i + 1] == b[i - |a| + 1];
      }
    }
    assert forall i :: 0 <= i < |c| ==> c[i] == if i < |a| then a[i] else b[i - |a|];
  }

  lemma FitOne(text: string, n: nat)
    requires EndsOpen(text)
    ensures Fit([Plain(text)], n)
  {
  }

  lemma FitThree(a: string, i: nat, b: string, n: nat)
    requires EndsOpen(a) && StartsOpen(b) && EndsOpen(b) && i < n
    ensures Fit([Plain(a), Ref(i), Plain(b)], n)
  {
  }

  lemma LastOpen(a: string, b: string)
    requires EndsOpen(b)
    ensures EndsOpen(a + b)
  {
  }

  lemma FirstOpen(a: string, b: string)
    requires StartsOpen(a)
    ensures StartsOpen(a + b)
  {
  }

  lemma {:induction false} DeclarationsFit(attribs: seq<Attrib>, k: nat, n: nat)
    requires k + |attribs| <= n
    ensures Fit(DeclarationSegments(attribs, k), n)
  {
    if attribs != [] {
      var a := attribs[0];
      DeclarationsFit(attribs[1..], k + 1, n);
      LastOpen((if a.input then "in " else "out ") + TypeText(a.typeName), " ");
      FitThree(DeclarationStart(a), k, ";\n", n);
      FitAppend([Plain(DeclarationStart(a)), Ref(k), Plain(";\n")], DeclarationSegments(attribs[1..], k + 1), n);
      hide Fit, DeclarationStart;
    }
  }

  lemma OneFits(stage: Stage, l: LeafRef, k: nat, n: nat)
    ensures k + Taken(stage, l, true) <= n ==> Fit(ReadOne(stage, l, k), n)
    ensures k + Taken(stage, l, false) <= n ==> Fit(WriteOne(stage, l, k), n)
  {
    var a, b := Reading(stage, l, ""), Writing(stage, l);
    hide Fit, Join, Reading, Writing, EndsOpen, StartsOpen;
    LineFits(a, n);
    LineFits(b, n);
    if !BuiltIn(stage, l.mapping, true) && k < n {
      Open();
      LastOpen(a.dst, " = ");
      FitThree(a.dst + " = ", k, ";\n", n);
    }
    if !BuiltIn(stage, l.mapping, false) && k < n {
      Open();
      LastOpen(" = " + b.src, ";\n");
      FirstOpen(" = ", b.src + ";\n");
      assert " = " + (b.src + ";\n") == " = " + b.src + ";\n";
      FitThree("\t", k, " = " + b.src + ";\n", n);
    }
  }

  lemma Open()
    ensures EndsOpen(" = ") && StartsOpen(" = ") && EndsOpen(";\n") && StartsOpen(";\n") && EndsOpen("\t")
  {
  }

  lemma LineFits(a: Assignment, n: nat)
    ensures Fit([Plain(a.dst + " = " + a.src + ";\n")], n)
  {
    LastOpen(a.dst + " = " + a.src, ";\n");
    FitOne(a.dst + " = " + a.src + ";\n", n);
    hide Fit;
  }

  lemma {:induction false} ReadsFit(stage: Stage, ls: seq<LeafRef>, k: nat, prefix: string, n: nat)
    requires k + |VariablesOf(stage, ls, true, prefix)| <= n
    ensures Fit(ReadSegments(stage, ls, k), n)
  {
    if ls == [] {
      return;
    }
    ReadUnfolds(stage, ls, k, prefix);
    hide *;
    ReadsFit(stage, ls[1..], k + Taken(stage, ls[0], true), prefix, n);
    OneFits(stage, ls[0], k, n);
    FitAppend(ReadOne(stage, ls[0], k), ReadSegments(stage, ls[1..], k + Taken(stage, ls[0], true)), n);
  }

  lemma {:induction false} WritesFit(stage: Stage, ls: seq<LeafRef>, k: nat, n: nat)
    requires k + |VariablesOf(stage, ls, false, "")| <= n
    ensures Fit(WriteSegments(stage, ls, k), n)
  {
    if ls == [] {
      return;
    }
    WriteUnfolds(stage, ls, k);
    hide *;
    WritesFit(stage, ls[1..], k + Taken(stage, ls[0], false), n);
    OneFits(stage, ls[0], k, n);
    FitAppend(WriteOne(stage, ls[0], k), WriteSegments(stage, ls[1..], k + Taken(stage, ls[0], false)), n);
  }

  lemma ReadPartFits(s: Shader)
    ensures Fit(ReadPart(s), |Variables(s)|)
  {
    if s.params != [] {
      var ls, rest := Leaves(s.params[0], []), LeavesOf(s.params[1..], []);
      InputsPerLeaf(s);
      VariablesAppend(s.stage, ls, rest, true, "inputval_");
      ReadsFit(s.stage, ls, 0, "inputval_", |Variables(s)|);
      hide Fit, ReadSegments, Leaves, Inputs, Outputs;
    }
  }

  lemma WritePartFits(s: Shader)
    ensures Fit(WritePart(s), |Variables(s)|)
  {
    if s.result.Nested? {
      var ls := Leaves(s.result, []);
      OutputsPerLeaf(s);
      WritesFit(s.stage, ls, |Inputs(s)|, |Variables(s)|);
      FitOne("\n", |Variables(s)|);
      hide Fit, WriteSegments, Leaves, Inputs, Outputs;
      FitAppend([Plain("\n")], WriteSegments(s.stage, ls, |Inputs(s)|), |Variables(s)|);
    }
  }

  lemma CallFits(s: Shader)
    ensures Fit(CallSegments(s), |Variables(s)|)
  {
    var rest := " = _main_wrap(" + s.args + ");\n";
    LastOpen(" = _main_wrap(" + s.args, ");\n");
    FirstOpen(" = _main_wrap(", s.args + ");\n");
    assert rest == " = _main_wrap(" + (s.args + ");\n");
    LastOpen("\n\t" + "outputval", rest);
    FitOne(CallText(s), |Variables(s)|);
    if s.result.Leaf? && !BuiltIn(s.stage, s.result.mapping, false) {
      assert |Outputs(s)| == 1;
      FitThree("\n\t", |Inputs(s)|, rest, |Variables(s)|);
    }
    hide Fit, Inputs, Outputs;
  }

  /** What comes before the interface ends a line, and so does what stands in the middle. */
  predicate EndsLines(s: Shader) {
    EndsOpen(s.head) && (s.middle != "" ==> EndsOpen(s.middle))
  }

  lemma SegmentsFit(s: Shader)
    requires EndsLines(s)
    ensures Fit(Segments(s), |Variables(s)|)
  {
    var n := |Variables(s)|;
    var ds, es := DeclarationSegments(Inputs(s), 0), DeclarationSegments(Outputs(s), |Inputs(s)|);
    var a := [Plain(s.head)] + ds;
    var b := a + [Plain("\n")] + es;
    var c := b + [Plain("\n" + s.middle)] + ReadPart(s);
    var d := c + CallSegments(s) + WritePart(s);
    assert Segments(s) == d + [Plain("}\n")];
    assert s.middle == "" ==> "\n" + s.middle == "\n";
    assert |Variables(s)| == |Inputs(s)| + |Outputs(s)|;
    if s.middle != "" {
      LastOpen("\n", s.middle);
    }
    FitOne(s.head, n);
    FitOne("\n", n);
    FitOne("\n" + s.middle, n);
    FitOne("}\n", n);
    hide *;
    DeclarationsFit(Inputs(s), 0, n);
    DeclarationsFit(Outputs(s), |Inputs(s)|, n);
    ReadPartFits(s);
    CallFits(s);
    WritePartFits(s);
    FitAppend([Plain(s.head)], ds, n);
    FitAppend(a, [Plain("\n")], n);
    FitAppend(a + [Plain("\n")], es, n);
    FitAppend(b, [Plain("\n" + s.middle)], n);
    FitAppend(b + [Plain("\n" + s.middle)], ReadPart(s), n);
    FitAppend(c, CallSegments(s), n);
    FitAppend(c + CallSegments(s), WritePart(s), n);
    FitAppend(d, [Plain("}\n")], n);
  }

  /** All names are words. */
  predicate Spoken(v: Var) {
    Word(v.name) && (v.Nested? ==> forall i :: 0 <= i < |v.members| ==> Spoken(v.members[i]))
  }

  predicate AllSpoken(vs: seq<Var>) {
    forall i :: 0 <= i < |vs| ==> Spoken(vs[i])
  }

  lemma {:induction false} SpokenAttribs(stage: Stage, v: Var, input: bool, prefix: string, a: Attrib)
    requires Spoken(v) && (prefix == "" || Word(prefix)) && a in Attribs(stage, v, input, prefix)
    ensures Word(a.name) && prefix + v.name <= a.name
    decreases v
  {
    assert Word(prefix + v.name);
    if v.Nested? {
      assert Word(prefix + v.name + "_");
      SpokenAttribsOf(stage, v.members, input, prefix + v.name + "_", a);
    }
  }

  lemma {:induction false} SpokenAttribsOf(stage: Stage, vs: seq<Var>, input: bool, prefix: string, a: Attrib)
    requires AllSpoken(vs) && (prefix == "" || Word(prefix)) && a in AttribsOf(stage, vs, input, prefix)
    ensures Word(a.name) && prefix <= a.name
    decreases vs
  {
    if a in Attribs(stage, vs[0], input, prefix) {
      SpokenAttribs(stage, vs[0], input, prefix, a);
    } else {
      assert forall i :: 0 <= i < |vs[1..]| ==> vs[1..][i] == vs[i + 1];
      SpokenAttribsOf(stage, vs[1..], input, prefix, a);
    }
    hide Word, Spoken;
  }

  lemma VariablesFlattened(s: Shader)
    requires AllSpoken(s.params) && Spoken(s.result) && s.result.name == "outputval"
    ensures AllFlattened(Variables(s))
  {
    var all := Variables(s);
    assert Word("inputval_");
    forall i | 0 <= i < |all|
      ensures Flattened(all[i].name)
    {
      if i < |Inputs(s)| {
        assert all[i] == Inputs(s)[i];
        SpokenAttribsOf(s.stage, s.params, true, "inputval_", all[i]);
      } else {
        assert all[i] == Outputs(s)[i - |Inputs(s)|];
        SpokenAttribs(s.stage, s.result, false, "", all[i]);
        assert "" + "outputval" == "outputval";
      }
    }
  }

  // ---------------------------------------------------------------------------------------------------------
  // The final text, and the two stages

  /** The shader's names are words and its lines are ended. */
  predicate WellFormed(s: Shader) {
    AllSpoken(s.params) && Spoken(s.result) && s.result.name == "outputval" && EndsLines(s)
  }

  function FinalText(s: Shader): string
    requires WellFormed(s)
  {
    VariablesFlattened(s);
    After(s.stage, Variables(s), Emitted(s), |Variables(s)|)
  }

  /** Every variable alone is renamed to its new name, and other text alone stays as it is. */
  predicate RenamedRight(s: Shader)
    requires WellFormed(s)
  {
    VariablesFlattened(s);
    AllRight(s.stage, Variables(s), Segments(s))
  }

  /** The final text has the new names exactly where the old ones were meant, and all else as it was, if and only if
      every variable alone is renamed to its new name and other text alone stays as it is. */
  lemma FinalTextIsExact(s: Shader)
    requires WellFormed(s)
    ensures FinalText(s) == Spelling(Segments(s), NewNames(s)) <==> RenamedRight(s)
  {
    VariablesFlattened(s);
    SegmentsFit(s);
    EmittedIsSpelled(s);
    assert Delimited(Segments(s)) && RefsBelow(Segments(s), |Variables(s)|);
    hide Variables, Segments, Emitted, Spelling, NamesAfter, Fit, Delimited, RefsBelow, After, AllRight;
    FinalExactly(s.stage, Variables(s), Segments(s));
  }

  /** That is so if no name stands in other text or in a later name. */
  lemma UntangledIsExact(s: Shader)
    requires WellFormed(s) && Untangled(Variables(s), Segments(s))
    ensures RenamedRight(s)
  {
    VariablesFlattened(s);
    SegmentsFit(s);
    assert RefsBelow(Segments(s), |Variables(s)|);
    hide Variables, Segments, Untangled, Fit, Delimited, RefsBelow, AllRight;
    UntangledIsRight(s.stage, Variables(s), Segments(s));
  }

  /** The vertex shader's variable for the leaf at `k` of the struct it returns. */
  function ReturnedAt(v: Shader, members: seq<Var>, k: nat): nat
    requires k < |LeavesOf(members, ["outputval"])|
  {
    |Inputs(v)| + Index(Vertex, LeavesOf(members, ["outputval"]), k, false)
  }

  /** The pixel shader's variable for the leaf at `k` of the struct it takes. */
  function TakenAt(members: seq<Var>, param: string, k: nat): nat
    requires k < |LeavesOf(members, [param])|
  {
    Index(Pixel, LeavesOf(members, [param]), k, true)
  }

  lemma ReturnedIsNamed(v: Shader, members: seq<Var>, k: nat)
    requires v.stage == Vertex && v.result == Nested("outputval", members)
    requires k < |LeavesOf(members, ["outputval"])| && Passed(LeavesOf(members, ["outputval"])[k])
    ensures var ls := LeavesOf(members, ["outputval"]);
      var i := ReturnedAt(v, members, k);
      && i < |Variables(v)| && [Variables(v)[i]] == VariableOf(Vertex, ls[k], false, "")
      && NewNames(v)[i] == LinkName(Vertex, ls, k, false)
  {
    var ls := LeavesOf(members, ["outputval"]);
    var vs := VariablesOf(Vertex, ls, false, "");
    ReturnedLast(v, members);
    assert NewNames(v) == NamesAfter(Vertex, Variables(v), |Variables(v)|);
    assert ReturnedAt(v, members, k) == |Inputs(v)| + Index(Vertex, ls, k, false);
    hide *;
    PassedIsNotBuiltIn(ls[k]);
    VariableAt(Vertex, ls, k, false, "");
    NewNameIsLinkName(Vertex, Inputs(v), ls, [], k, false, "");
    NewNameAt(Vertex, Variables(v), ReturnedAt(v, members, k));
    LastPart(Inputs(v), vs, Index(Vertex, ls, k, false));
  }

  lemma LastPart(a: seq<Attrib>, b: seq<Attrib>, i: nat)
    requires i < |b|
    ensures |a| + i < |a + (b + [])| && (a + (b + []))[|a| + i] == b[i]
  {
  }

  lemma ReturnedLast(v: Shader, members: seq<Var>)
    requires v.stage == Vertex && v.result == Nested("outputval", members)
    ensures Variables(v) == Inputs(v) + (VariablesOf(Vertex, LeavesOf(members, ["outputval"]), false, "") + [])
    ensures forall a :: a in Inputs(v) ==> a.input
  {
    var ls := LeavesOf(members, ["outputval"]);
    assert [] + ["outputval"] == ["outputval"];
    assert Leaves(v.result, []) == ls;
    assert Variables(v) == Inputs(v) + Outputs(v);
    hide *;
    OutputsPerLeaf(v);
    InputsPerLeaf(v);
    VariablesDirection(Vertex, LeavesOf(v.params, []), true, "inputval_");
    assert VariablesOf(Vertex, ls, false, "") + [] == VariablesOf(Vertex, ls, false, "");
  }

  lemma TakenIsNamed(p: Shader, members: seq<Var>, param: string, k: nat)
    requires p.stage == Pixel && p.params != [] && p.params[0] == Nested(param, members)
    requires k < |LeavesOf(members, [param])| && Passed(LeavesOf(members, [param])[k])
    ensures var ls := LeavesOf(members, [param]);
      var i := TakenAt(members, param, k);
      && i < |Variables(p)| && [Variables(p)[i]] == VariableOf(Pixel, ls[k], true, "inputval_")
      && NewNames(p)[i] == LinkName(Pixel, ls, k, true)
  {
    var ls, rest := LeavesOf(members, [param]), LeavesOf(p.params[1..], []);
    var vs := VariablesOf(Pixel, ls, true, "inputval_");
    var after := VariablesOf(Pixel, rest, true, "inputval_") + Outputs(p);
    TakenFirst(p, members, param);
    assert NewNames(p) == NamesAfter(Pixel, Variables(p), |Variables(p)|);
    hide *;
    VariableAt(Pixel, ls, k, true, "inputval_");
    NewNameIsLinkName(Pixel, [], ls, after, k, true, "inputval_");
    NewNameAt(Pixel, Variables(p), TakenAt(members, param, k));
    PassedIsNotBuiltIn(ls[k]);
    FirstPart(vs, after, TakenAt(members, param, k));
  }

  lemma FirstPart(a: seq<Attrib>, b: seq<Attrib>, i: nat)
    requires i < |a|
    ensures i < |[] + (a + b)| && ([] + (a + b))[i] == a[i]
  {
  }

  lemma PassedIsNotBuiltIn(l: LeafRef)
    requires Passed(l)
    ensures !BuiltIn(Pixel, l.mapping, true) && !BuiltIn(Vertex, l.mapping, false)
  {
  }

  lemma NewNameAt(stage: Stage, all: seq<Attrib>, i: nat)
    requires i < |all|
    ensures NamesAfter(stage, all, |all|)[i] == NewName(stage, all, i)
  {
  }

  lemma TakenFirst(p: Shader, members: seq<Var>, param: string)
    requires p.stage == Pixel && p.params != [] && p.params[0] == Nested(param, members)
    ensures var ls, rest := LeavesOf(members, [param]), LeavesOf(p.params[1..], []);
      Variables(p) == [] + (VariablesOf(Pixel, ls, true, "inputval_")
                            + (VariablesOf(Pixel, rest, true, "inputval_") + Outputs(p)))
  {
    var ls, rest := LeavesOf(members, [param]), LeavesOf(p.params[1..], []);
    assert [] + [param] == [param];
    assert Leaves(p.params[0], []) == ls;
    assert Variables(p) == Inputs(p) + Outputs(p);
    hide *;
    InputsPerLeaf(p);
    VariablesAppend(Pixel, ls, rest, true, "inputval_");
    ThreeParts(VariablesOf(Pixel, ls, true, "inputval_"), VariablesOf(Pixel, rest, true, "inputval_"), Outputs(p));
  }

  lemma ThreeParts(a: seq<Attrib>, b: seq<Attrib>, c: seq<Attrib>)
    ensures [] + (a + (b + c)) == (a + b) + c
  {
  }

  /** A vertex shader returns a struct, and a pixel shader takes it. In both final texts every variable has its new
      name wherever it was meant, and those of a leaf that is passed on have the same name in both texts, if and only
      if no vertex number comes before the leaf. */
  lemma FinalTextsLink(v: Shader, p: Shader, members: seq<Var>, param: string, k: nat)
    requires WellFormed(v) && v.stage == Vertex && v.result == Nested("outputval", members)
    requires WellFormed(p) && p.stage == Pixel && p.params != [] && p.params[0] == Nested(param, members)
    requires RenamedRight(v) && RenamedRight(p)
    requires k < |LeavesOf(members, ["outputval"])| && Passed(LeavesOf(members, ["outputval"])[k])
    ensures FinalText(v) == Spelling(Segments(v), NewNames(v)) && FinalText(p) == Spelling(Segments(p), NewNames(p))
    ensures var returned, taken := LeavesOf(members, ["outputval"]), LeavesOf(members, [param]);
      && |taken| == |returned|
      && var i, j := ReturnedAt(v, members, k), TakenAt(members, param, k);
      && i < |Variables(v)| && [Variables(v)[i]] == VariableOf(Vertex, returned[k], false, "")
      && j < |Variables(p)| && [Variables(p)[j]] == VariableOf(Pixel, taken[k], true, "inputval_")
      && (NewNames(v)[i] == NewNames(p)[j] <==> forall l :: 0 <= l < k ==> returned[l].mapping != "VERTEXID")
  {
    SameLeaves(members, ["outputval"], [param]);
    FinalTextIsExact(v);
    FinalTextIsExact(p);
    StagesLink(members, param, k);
    ReturnedIsNamed(v, members, k);
    TakenIsNamed(p, members, param, k);
    hide *;
  }
}
