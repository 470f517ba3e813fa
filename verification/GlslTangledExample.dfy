/** A vertex shader with an input `tex` and an input `tex2`: the new name of the second is nowhere in the text. */
module GlslTangledExample {
  import opened Decimals
  import opened GlslInterface
  import opened GlslLinking
  import opened GlslRenaming
  import opened GlslApart
  import opened GlslStages
  import opened GlslStagesExample

  const TEX2 := Leaf("tex2", "float2", "TEXCOORD1")
  const POS := Leaf("pos", "float4", "POSITION")
  const TANGLED := Shader(Vertex, [Nested("v", [TEX, TEX2])], Nested("outputval", [POS]), HEAD, MIDDLE, "v")

  const FIRST := Attrib("inputval_" + "v" + "_" + "tex", "float2", "TEXCOORD0", true)
  const SECOND := Attrib("inputval_" + "v" + "_" + "tex2", "float2", "TEXCOORD1", true)

  lemma TangledVariables()
    ensures Inputs(TANGLED) == [FIRST, SECOND] && Outputs(TANGLED) == [] && Variables(TANGLED) == [FIRST, SECOND]
  {
    var prefix := "inputval_" + "v" + "_";
    var v := Nested("v", [TEX, TEX2]);
    assert [v][1..] == [] && [TEX, TEX2][1..] == [TEX2] && [TEX2][1..] == [] && [POS][1..] == [];
    assert Attribs(Vertex, TEX, true, prefix) == [FIRST] && Attribs(Vertex, TEX2, true, prefix) == [SECOND];
    assert AttribsOf(Vertex, [], true, prefix) == [] == AttribsOf(Vertex, [], true, "inputval_");
    assert AttribsOf(Vertex, [TEX2], true, prefix) == [SECOND];
    assert AttribsOf(Vertex, [TEX, TEX2], true, prefix) == [FIRST] + [SECOND];
    assert Attribs(Vertex, v, true, "inputval_") == AttribsOf(Vertex, [TEX, TEX2], true, prefix);
    assert Attribs(Vertex, POS, false, "" + "outputval" + "_") == [];
    assert AttribsOf(Vertex, [], false, "" + "outputval" + "_") == [];
    assert AttribsOf(Vertex, [POS], false, "" + "outputval" + "_") == [];
  }

  const TEX_LEAF := LeafRef(["v", "tex"], "float2", "TEXCOORD0")
  const TEX2_LEAF := LeafRef(["v", "tex2"], "float2", "TEXCOORD1")
  const POS_LEAF := LeafRef(["outputval", "pos"], "float4", "POSITION")

  lemma TangledLeaves()
    ensures Leaves(Nested("v", [TEX, TEX2]), []) == [TEX_LEAF, TEX2_LEAF]
    ensures Leaves(Nested("outputval", [POS]), []) == [POS_LEAF]
    ensures Join(TEX_LEAF.path, ".") == "v" + "." + "tex" && Join(TEX2_LEAF.path, ".") == "v" + "." + "tex2"
    ensures Join(POS_LEAF.path, ".") == "outputval" + "." + "pos"
  {
    var path, out := [] + ["v"], [] + ["outputval"];
    assert path + ["tex"] == TEX_LEAF.path && path + ["tex2"] == TEX2_LEAF.path && out + ["pos"] == POS_LEAF.path;
    assert [TEX, TEX2][1..] == [TEX2] && [TEX2][1..] == [] && [POS][1..] == [];
    assert Leaves(TEX, path) == [LeafRef(path + ["tex"], "float2", "TEXCOORD0")];
    assert Leaves(TEX2, path) == [LeafRef(path + ["tex2"], "float2", "TEXCOORD1")];
    assert Leaves(POS, out) == [LeafRef(out + ["pos"], "float4", "POSITION")];
    assert Leaves(TEX, path)[0] == TEX_LEAF && Leaves(TEX2, path)[0] == TEX2_LEAF && Leaves(POS, out)[0] == POS_LEAF;
    assert LeavesOf([], path) == [] == LeavesOf([], out);
    assert LeavesOf([TEX2], path) == [TEX2_LEAF];
    assert LeavesOf([TEX, TEX2], path) == [TEX_LEAF] + [TEX2_LEAF];
    assert LeavesOf([POS], out) == [POS_LEAF];
    assert TEX_LEAF.path[..1] == ["v"] == TEX2_LEAF.path[..1] && POS_LEAF.path[..1] == ["outputval"];
    assert Join(["v"], ".") == "v" && Join(["outputval"], ".") == "outputval";
  }

  lemma TangledParts()
    ensures ReadPart(TANGLED) == ReadOne(Vertex, TEX_LEAF, 0) + ReadOne(Vertex, TEX2_LEAF, 1)
    ensures WritePart(TANGLED) == [Plain("\n")] + WriteOne(Vertex, POS_LEAF, 2)
    ensures CallSegments(TANGLED) == [Plain("\n\t" + "outputval" + (" = _main_wrap(" + "v" + ");\n"))]
  {
    TangledVariables();
    TangledLeaves();
    assert ReadPart(TANGLED) == ReadSegments(Vertex, [TEX_LEAF, TEX2_LEAF], 0);
    assert WritePart(TANGLED) == [Plain("\n")] + WriteSegments(Vertex, [POS_LEAF], 2);
    assert [POS_LEAF][1..] == [];
    assert WriteSegments(Vertex, [], 2) == [];
    assert WriteSegments(Vertex, [POS_LEAF], 2) == WriteOne(Vertex, POS_LEAF, 2) + [];
    TwoReads(Vertex, TEX_LEAF, TEX2_LEAF);
    hide ReadOne, WriteOne, Leaves, Join;
  }

  /** Texts between the names. */
  predicate Foreign(c: char) {
    && c !in HEAD && c !in "\n" && c !in "\n" + MIDDLE && c !in "}\n"
    && c !in "in " + "vec2" + " " && c !in "\t" && c !in " = " && c !in ";\n"
    && c !in "v" + "." + "tex" && c !in "v" + "." + "tex2"
  }

  predicate ForeignToOutput(c: char) {
    && c !in "\t" && c !in " = " && c !in ";\n" && c !in "\tgl_Position" && c !in "outputval" + "." + "pos"
    && c !in "\n\t" + "outputval" + (" = _main_wrap(" + "v" + ");\n")
  }

  lemma ForeignTexts(x: Attrib, c: char)
    requires c in x.name && Foreign(c)
    ensures Letter([x], c) && AllHave([x], c)
    ensures c !in HEAD && c !in "\n" && c !in "\n" + MIDDLE && c !in "}\n"
    ensures forall n :: 0 <= n < 2 ==> c !in DeclarationStart([FIRST, SECOND][n])
    ensures c !in Join(TEX_LEAF.path, ".") && c !in Join(TEX2_LEAF.path, ".")
  {
    TangledLeaves();
    assert DeclarationStart(FIRST) == "in " + "vec2" + " " == DeclarationStart(SECOND);
    hide Join;
  }

  lemma ForeignOutputs(x: Attrib, d: char)
    requires d in x.name && ForeignToOutput(d)
    ensures Letter([x], d) && AllHave([x], d) && d !in Join(POS_LEAF.path, ".") && d !in "\tgl_Position"
    ensures d !in "\n\t" + "outputval" + (" = _main_wrap(" + "v" + ");\n")
  {
    TangledLeaves();
    hide Join;
  }

  /** A name with a letter that most texts do not have, and one that the others do not have, stands in none. */
  lemma StandsNowhere(x: Attrib, c: char, d: char)
    requires c in x.name && d in x.name && Foreign(c) && ForeignToOutput(d)
    ensures Untangled([x], Segments(TANGLED))
  {
    var all := [x];
    var call := "\n\t" + "outputval" + (" = _main_wrap(" + "v" + ");\n");
    TangledVariables();
    assert TANGLED.head == HEAD && TANGLED.middle == MIDDLE;
    assert !BuiltIn(Vertex, TEX_LEAF.mapping, true) && !BuiltIn(Vertex, TEX2_LEAF.mapping, true);
    assert DeclarationSegments([], 2) == [] && Untangled(all, []);
    hide *;
    TangledParts();
    ForeignTexts(x, c);
    ForeignOutputs(x, d);
    TextUntouched(all, HEAD, c);
    TextUntouched(all, "\n", c);
    TextUntouched(all, "\n" + MIDDLE, c);
    TextUntouched(all, "}\n", c);
    TextUntouched(all, call, d);
    DeclarationsUntangled(all, [FIRST, SECOND], 0, c);
    ReadOneUntangled(all, Vertex, TEX_LEAF, 0, c);
    ReadOneUntangled(all, Vertex, TEX2_LEAF, 1, c);
    UntangledAppend(all, ReadOne(Vertex, TEX_LEAF, 0), ReadOne(Vertex, TEX2_LEAF, 1));
    WriteOneUntangled(all, Vertex, POS_LEAF, 2, d);
    UntangledAppend(all, [Plain("\n")], WriteOne(Vertex, POS_LEAF, 2));
    UntangledParts(all, TANGLED);
  }

  // ---------------------------------------------------------------------------------------------------------
  // The two replacements

  const NEW_FIRST := "_input_attrib" + "0"
  const NEW_SECOND := "_input_attrib" + "1"

  lemma TangledIsFit()
    ensures WellFormed(TANGLED) && Delimited(Segments(TANGLED)) && RefsBelow(Segments(TANGLED), 2)
    ensures Emitted(TANGLED) == Spelling(Segments(TANGLED), [FIRST.name, SECOND.name])
    ensures NewNames(TANGLED) == [NEW_FIRST, NEW_SECOND] && TANGLED.stage == Vertex
  {
    TangledVariables();
    TangledIsWellFormed();
    NewNamesAre();
    assert OldNames(TANGLED) == NamesAfter(Vertex, [FIRST, SECOND], 0) == [FIRST.name, SECOND.name];
    assert NewNames(TANGLED) == NamesAfter(Vertex, [FIRST, SECOND], 2);
    assert NewNames(TANGLED) == [NewName(Vertex, [FIRST, SECOND], 0), NewName(Vertex, [FIRST, SECOND], 1)];
    assert TANGLED.result.name == "outputval" && EndsLines(TANGLED);
    assert Fit(Segments(TANGLED), 2) by {
      hide *;
      SegmentsFit(TANGLED);
    }
    hide Segments, Emitted, Spelling;
    EmittedIsSpelled(TANGLED);
  }

  lemma NewNamesAre()
    ensures NewName(Vertex, [FIRST, SECOND], 0) == NEW_FIRST && NewName(Vertex, [FIRST, SECOND], 1) == NEW_SECOND
  {
    assert Digits(0) == "0" && Digits(1) == "1";
  }

  lemma TangledIsWellFormed()
    ensures WellFormed(TANGLED)
  {
    assert Word("tex") && Word("tex2") && Word("pos") && Word("v") && Word("outputval");
    assert Spoken(TEX) && Spoken(TEX2) && Spoken(POS);
    assert Spoken(Nested("v", [TEX, TEX2])) && Spoken(Nested("outputval", [POS]));
    assert HEAD[|HEAD| - 1] == '\n' && MIDDLE[|MIDDLE| - 1] == '\n';
  }

  lemma NamesAreWords()
    ensures Word(FIRST.name) && Word(SECOND.name) && Word(NEW_FIRST) && Word(NEW_FIRST + "2") && Word(NEW_SECOND)
    ensures SECOND.name == FIRST.name + "2"
  {
    assert Word("inputval_") && Word("v") && Word("_") && Word("tex") && Word("tex2") && Word("_input_attrib");
    assert "tex2" == "tex" + "2";
  }

  lemma LettersAre()
    ensures 'l' in FIRST.name && 'x' in FIRST.name && 'l' in SECOND.name && 'x' in SECOND.name && '1' in NEW_SECOND
    ensures '1' !in NEW_FIRST && '1' !in NEW_FIRST + "2"
  {
    assert "inputval_"[7] == 'l' && "tex"[2] == 'x' && "tex2"[2] == 'x' && "1"[0] == '1';
  }

  lemma ForeignLetter()
    ensures Foreign('l')
  {
  }

  lemma ForeignDigit()
    ensures Foreign('1')
  {
  }

  lemma ForeignToOutputs()
    ensures ForeignToOutput('x') && ForeignToOutput('1')
  {
  }

  /** The condition on the text before renaming fails: the first name stands in the second. */
  lemma IsTangled()
    ensures !Untangled(Variables(TANGLED), Segments(TANGLED))
  {
    var ss := Segments(TANGLED);
    TangledVariables();
    NamesAreWords();
    SecondStands();
    assert FIRST.name <= SECOND.name && SECOND.name + "" == SECOND.name;
    assert !Absent(FIRST.name, SECOND.name);
    assert !Untouched([FIRST, SECOND], ss[5], 0);
    hide Segments, Absent, Variables;
  }

  lemma SecondStands()
    ensures |Segments(TANGLED)| > 5 && Segments(TANGLED)[5] == Ref(1)
  {
    var s := TANGLED;
    var ds := DeclarationSegments([FIRST, SECOND], 0);
    var es := DeclarationSegments(Outputs(s), |Inputs(s)|);
    TangledVariables();
    assert [FIRST, SECOND][1..] == [SECOND];
    DeclarationUnfolds([FIRST, SECOND], 0);
    DeclarationUnfolds([SECOND], 1);
    assert |ds| > 4 && ds[4] == Ref(1);
    assert Segments(s) == [Plain(s.head)] + ds + [Plain("\n")] + es + [Plain("\n" + s.middle)] + ReadPart(s)
                          + CallSegments(s) + WritePart(s) + [Plain("}\n")];
    hide *;
    FifthStays(s.head, ds, [Plain("\n")], es, [Plain("\n" + s.middle)], ReadPart(s), CallSegments(s), WritePart(s),
               [Plain("}\n")]);
  }

  lemma FifthStays(head: string, ds: seq<Segment>, a: seq<Segment>, b: seq<Segment>, c: seq<Segment>,
      d: seq<Segment>, e: seq<Segment>, f: seq<Segment>, g: seq<Segment>)
    requires |ds| > 4
    ensures var all := [Plain(head)] + ds + a + b + c + d + e + f + g;
      |all| > 5 && all[5] == ds[4]
  {
  }

  /** Nor does the second name alone become its new name, so that the final text is not what it should be. */
  lemma SecondIsWrong()
    ensures WellFormed(TANGLED) && !RenamedRight(TANGLED)
    ensures FinalText(TANGLED) != Spelling(Segments(TANGLED), NewNames(TANGLED))
  {
    hide *;
    TangledIsFit();
    TangledVariables();
    SecondStands();
    NamesBecome();
    SecondNotRight(Segments(TANGLED));
    RightIs(TANGLED);
    FinalTextIsExact(TANGLED);
  }

  lemma RightIs(s: Shader)
    requires WellFormed(s) && s.stage == Vertex
    ensures AllFlattened(Variables(s)) && (RenamedRight(s) ==> AllRight(Vertex, Variables(s), Segments(s)))
  {
    VariablesFlattened(s);
    hide Variables, Segments, AllRight;
  }

  lemma SecondNotRight(segments: seq<Segment>)
    requires AllFlattened([FIRST, SECOND]) && |segments| > 5 && segments[5] == Ref(1)
    requires Alone(Vertex, [FIRST, SECOND], Ref(1)) == NEW_FIRST + "2"
    ensures !AllRight(Vertex, [FIRST, SECOND], segments)
  {
    NewNamesAre();
    LettersAre();
    hide Alone;
    assert !Right(Vertex, [FIRST, SECOND], segments[5]);
  }

  /** The text has the first new name with a tail where the second input is meant. The second new name, by which the
      input is looked up when the program is linked, is nowhere in the text. */
  lemma SecondIsLost()
    ensures WellFormed(TANGLED) && NewNames(TANGLED) == [NEW_FIRST, NEW_SECOND]
    ensures FinalText(TANGLED) == Spelling(Segments(TANGLED), [NEW_FIRST, NEW_FIRST + "2"])
    ensures Absent(NEW_SECOND, FinalText(TANGLED))
  {
    var x := SECOND.(name := NEW_SECOND);
    TangledIsFit();
    TangledVariables();
    NamesAreWords();
    LettersAre();
    ForeignLetter();
    ForeignDigit();
    ForeignToOutputs();
    FinalIs();
    hide *;
    StandsNowhere(FIRST, 'l', 'x');
    StandsNowhere(SECOND, 'l', 'x');
    StandsNowhere(x, '1', '1');
    EachBecomes(Segments(TANGLED));
    MissingLetter(NEW_SECOND, NEW_FIRST, '1');
    MissingLetter(NEW_SECOND, NEW_FIRST + "2", '1');
    NotInParts(Segments(TANGLED), x, NEW_FIRST, NEW_FIRST + "2");
  }

  lemma Flat()
    ensures AllFlattened([FIRST, SECOND]) && Word("2")
  {
    NamesAreWords();
    assert "inputval_" <= FIRST.name && "inputval_" <= SECOND.name;
    hide Word;
  }

  lemma EachBecomes(segments: seq<Segment>)
    requires AllFlattened([FIRST, SECOND]) && RefsBelow(segments, 2)
    requires Untangled([FIRST], segments) && Untangled([SECOND], segments)
    ensures EachAlone(Vertex, [FIRST, SECOND], segments) == Spelling(segments, [NEW_FIRST, NEW_FIRST + "2"])
  {
    NamesBecome();
    hide Absent, Spelling, After, Alone;
    forall j | 0 <= j < |segments|
      ensures Alone(Vertex, [FIRST, SECOND], segments[j]) == SegmentText(segments[j], [NEW_FIRST, NEW_FIRST + "2"])
    {
      if segments[j].Plain? {
        assert Untouched([FIRST], segments[j], 0) && Untouched([SECOND], segments[j], 0);
        PlainStays(segments[j].text);
      }
    }
    EachAloneIs(Vertex, [FIRST, SECOND], segments, [NEW_FIRST, NEW_FIRST + "2"]);
  }

  lemma PlainStays(s: string)
    requires AllFlattened([FIRST, SECOND]) && Absent(FIRST.name, s) && Absent(SECOND.name, s)
    ensures Alone(Vertex, [FIRST, SECOND], Plain(s)) == s
  {
    hide Absent, After;
    TextStays(Vertex, [FIRST, SECOND], s, 2);
  }

  lemma NamesBecome()
    ensures AllFlattened([FIRST, SECOND])
    ensures Alone(Vertex, [FIRST, SECOND], Ref(0)) == NEW_FIRST
    ensures Alone(Vertex, [FIRST, SECOND], Ref(1)) == NEW_FIRST + "2"
  {
    Flat();
    NamesAreWords();
    NewNamesAre();
    TooLong(FIRST.name, "2");
    TooLong(SECOND.name, "2");
    hide *;
    NameIsRight(Vertex, [FIRST, SECOND], 0);
    TailStays(Vertex, [FIRST, SECOND], 0, 1, "2");
    FirstIsNew();
  }

  lemma FirstIsNew()
    requires AllFlattened([FIRST, SECOND]) && Right(Vertex, [FIRST, SECOND], Ref(0))
    ensures Alone(Vertex, [FIRST, SECOND], Ref(0)) == NEW_FIRST
  {
    NewNamesAre();
    hide After;
  }

  lemma FinalIs()
    ensures WellFormed(TANGLED) && AllFlattened([FIRST, SECOND])
    ensures FinalText(TANGLED) == EachAlone(Vertex, [FIRST, SECOND], Segments(TANGLED))
  {
    TangledIsFit();
    TangledVariables();
    Flat();
    assert NamesAfter(Vertex, [FIRST, SECOND], 0) == [FIRST.name, SECOND.name];
    assert TANGLED.stage == Vertex;
    hide After, Emitted, Spelling, Segments, Variables;
    RenamedAlone(Vertex, [FIRST, SECOND], Segments(TANGLED));
  }
}
