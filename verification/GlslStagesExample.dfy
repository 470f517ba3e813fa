/** Two stages that find each other, and a vertex shader whose inputs are not found. */
module GlslStagesExample {
  import opened GlslWriter
  import opened GlslInterface
  import opened GlslLinking
  import opened GlslRenaming
  import opened GlslStages

  // ---------------------------------------------------------------------------------------------------------
  // Texts in which a name does not stand

  lemma {:induction false} MissingLetter(name: string, text: string, c: char)
    requires c in name && c !in text
    ensures Absent(name, text)
  {
    if text != "" {
      assert text + "" == text;
      if name <= text {
        PrefixHas(name, text, c);
      }
      MissingLetter(name, text[1..], c);
    }
  }

  lemma PrefixHas(name: string, text: string, c: char)
    requires c in name && name <= text
    ensures c in text
  {
    var i :| 0 <= i < |name| && name[i] == c;
    assert text[i] == c;
  }

  predicate AllHave(attribs: seq<Attrib>, c: char) {
    forall n :: 0 <= n < |attribs| ==> c in attribs[n].name
  }

  /** No name is shorter than a later one, or the same. */
  predicate Shrinking(attribs: seq<Attrib>) {
    forall m, n :: 0 <= m < n < |attribs| ==>
      |attribs[m].name| >= |attribs[n].name| > 0 && attribs[m].name != attribs[n].name
  }

  /** All names have a letter that the text has not. */
  lemma TextUntouched(attribs: seq<Attrib>, text: string, c: char)
    requires c !in text && AllHave(attribs, c)
    ensures Untangled(attribs, [Plain(text)])
  {
    forall n | 0 <= n < |attribs|
      ensures Absent(attribs[n].name, text)
    {
      MissingLetter(attribs[n].name, text, c);
    }
    hide Absent;
  }

  lemma RefUntouched(attribs: seq<Attrib>, i: nat)
    requires Shrinking(attribs)
    ensures Untangled(attribs, [Ref(i)])
  {
    forall n | 0 <= n < |attribs|
      ensures Untouched(attribs, Ref(i), n)
    {
      if n < i < |attribs| {
        TooLong(attribs[n].name, attribs[i].name);
      }
    }
  }

  lemma UntangledAppend(attribs: seq<Attrib>, a: seq<Segment>, b: seq<Segment>)
    requires Untangled(attribs, a) && Untangled(attribs, b)
    ensures Untangled(attribs, a + b)
  {
    hide Untouched;
    forall n, j | 0 <= n < |attribs| && 0 <= j < |a + b|
      ensures Untouched(attribs, (a + b)[j], n)
    {
      assert (a + b)[j] == if j < |a| then a[j] else b[j - |a|];
    }
  }

  lemma UntangledThree(attribs: seq<Attrib>, a: string, i: nat, b: string, c: char)
    requires AllHave(attribs, c) && Shrinking(attribs) && c !in a && c !in b
    ensures Untangled(attribs, [Plain(a), Ref(i), Plain(b)])
  {
    TextUntouched(attribs, a, c);
    TextUntouched(attribs, b, c);
    RefUntouched(attribs, i);
    hide *;
    UntangledAppend(attribs, [Plain(a)], [Ref(i)]);
    UntangledAppend(attribs, [Plain(a)] + [Ref(i)], [Plain(b)]);
    assert [Plain(a), Ref(i), Plain(b)] == [Plain(a)] + [Ref(i)] + [Plain(b)];
  }

  /** A letter that stands in all names, and in none of the texts between parts. */
  predicate Letter(attribs: seq<Attrib>, c: char) {
    Shrinking(attribs) && AllHave(attribs, c) && c !in "\t" && c !in " = " && c !in ";\n"
  }

  lemma {:induction false} DeclarationsUntangled(all: seq<Attrib>, attribs: seq<Attrib>, k: nat, c: char)
    requires Letter(all, c) && forall n :: 0 <= n < |attribs| ==> c !in DeclarationStart(attribs[n])
    ensures Untangled(all, DeclarationSegments(attribs, k))
  {
    if attribs == [] {
      return;
    }
    DeclarationUnfolds(attribs, k);
    assert c !in DeclarationStart(attribs[0]);
    assert forall n :: 0 <= n < |attribs[1..]| ==> attribs[1..][n] == attribs[n + 1];
    DeclarationsUntangled(all, attribs[1..], k + 1, c);
    assert AllHave(all, c) && Shrinking(all) && c !in ";\n";
    hide *;
    UntangledThree(all, DeclarationStart(attribs[0]), k, ";\n", c);
    UntangledAppend(all, [Plain(DeclarationStart(attribs[0])), Ref(k), Plain(";\n")],
                    DeclarationSegments(attribs[1..], k + 1));
  }

  lemma ReadOneUntangled(all: seq<Attrib>, stage: Stage, l: LeafRef, k: nat, c: char)
    requires Letter(all, c) && c !in Join(l.path, ".")
    requires BuiltIn(stage, l.mapping, true) ==> c !in Reading(stage, l, "").src
    ensures Untangled(all, ReadOne(stage, l, k))
  {
    var a := Reading(stage, l, "");
    assert c !in a.dst;
    if BuiltIn(stage, l.mapping, true) {
      TextUntouched(all, a.dst + " = " + a.src + ";\n", c);
    } else {
      UntangledThree(all, a.dst + " = ", k, ";\n", c);
    }
    hide Untangled, Reading, Join, AllHave, Shrinking;
  }

  lemma WriteOneUntangled(all: seq<Attrib>, stage: Stage, l: LeafRef, k: nat, c: char)
    requires Letter(all, c) && c !in Join(l.path, ".")
    requires BuiltIn(stage, l.mapping, false) ==> c !in "\tgl_Position"
    ensures Untangled(all, WriteOne(stage, l, k))
  {
    var a := Writing(stage, l);
    assert c !in a.src;
    if BuiltIn(stage, l.mapping, false) {
      assert c !in a.dst;
      TextUntouched(all, a.dst + " = " + a.src + ";\n", c);
    } else {
      UntangledThree(all, "\t", k, " = " + a.src + ";\n", c);
    }
    hide Untangled, Writing, Join, AllHave, Shrinking;
  }

  lemma UntangledParts(all: seq<Attrib>, s: Shader)
    requires
      && Untangled(all, [Plain(s.head)]) && Untangled(all, DeclarationSegments(Inputs(s), 0))
      && Untangled(all, [Plain("\n")]) && Untangled(all, DeclarationSegments(Outputs(s), |Inputs(s)|))
      && Untangled(all, [Plain("\n" + s.middle)]) && Untangled(all, ReadPart(s)) && Untangled(all, CallSegments(s))
      && Untangled(all, WritePart(s)) && Untangled(all, [Plain("}\n")])
    ensures Untangled(all, Segments(s))
  {
    var ds, es := DeclarationSegments(Inputs(s), 0), DeclarationSegments(Outputs(s), |Inputs(s)|);
    var a := [Plain(s.head)] + ds + [Plain("\n")] + es;
    var b := a + [Plain("\n" + s.middle)] + ReadPart(s) + CallSegments(s);
    assert Segments(s) == b + WritePart(s) + [Plain("}\n")];
    hide *;
    UntangledAppend(all, [Plain(s.head)], ds);
    UntangledAppend(all, [Plain(s.head)] + ds, [Plain("\n")]);
    UntangledAppend(all, [Plain(s.head)] + ds + [Plain("\n")], es);
    UntangledAppend(all, a, [Plain("\n" + s.middle)]);
    UntangledAppend(all, a + [Plain("\n" + s.middle)], ReadPart(s));
    UntangledAppend(all, a + [Plain("\n" + s.middle)] + ReadPart(s), CallSegments(s));
    UntangledAppend(all, b, WritePart(s));
    UntangledAppend(all, b + WritePart(s), [Plain("}\n")]);
  }

  // ---------------------------------------------------------------------------------------------------------
  // Two stages

  const VTX := Leaf("vtx", "float4", "POSITION")
  const TEX := Leaf("tex", "float2", "TEXCOORD0")
  const MEMBERS := [VTX, TEX]
  const HEAD := "#version 330\n\n"
  const MIDDLE := "void main(void)\n{\n"
  const VERTEX := Shader(Vertex, [Nested("vert_in", MEMBERS)], Nested("outputval", MEMBERS), HEAD, MIDDLE, "vert_in")
  const PIXEL := Shader(Pixel, [Nested("vert_in", MEMBERS)], Leaf("outputval", "float4", "TARGET"), HEAD, MIDDLE,
                        "vert_in")

  const INPUT_VTX := Attrib("inputval_" + "vert_in" + "_" + "vtx", "float4", "POSITION", true)
  const INPUT_TEX := Attrib("inputval_" + "vert_in" + "_" + "tex", "float2", "TEXCOORD0", true)
  const OUTPUT_TEX := Attrib("" + "outputval" + "_" + "tex", "float2", "TEXCOORD0", false)
  const OUTPUT := Attrib("" + "outputval", "float4", "TARGET", false)
  const VERTEX_VARIABLES := [INPUT_VTX, INPUT_TEX, OUTPUT_TEX]
  const PIXEL_VARIABLES := [INPUT_TEX, OUTPUT]

  lemma VariablesAre()
    ensures Inputs(VERTEX) == [INPUT_VTX, INPUT_TEX] && Outputs(VERTEX) == [OUTPUT_TEX]
    ensures Inputs(PIXEL) == [INPUT_TEX] && Outputs(PIXEL) == [OUTPUT]
    ensures Variables(VERTEX) == VERTEX_VARIABLES && Variables(PIXEL) == PIXEL_VARIABLES
  {
    var prefix := "inputval_" + "vert_in" + "_";
    var out := "" + "outputval" + "_";
    MembersFlattened(Vertex, true, prefix);
    MembersFlattened(Pixel, true, prefix);
    MembersFlattened(Vertex, false, out);
    OnlyParameter(Vertex);
    OnlyParameter(Pixel);
    assert Outputs(VERTEX) == AttribsOf(Vertex, MEMBERS, false, out);
  }

  lemma OnlyParameter(stage: Stage)
    ensures AttribsOf(stage, [Nested("vert_in", MEMBERS)], true, "inputval_")
         == AttribsOf(stage, MEMBERS, true, "inputval_" + "vert_in" + "_")
  {
    var v := Nested("vert_in", MEMBERS);
    assert [v][1..] == [];
    assert Attribs(stage, v, true, "inputval_") == AttribsOf(stage, MEMBERS, true, "inputval_" + "vert_in" + "_");
    assert AttribsOf(stage, [], true, "inputval_") == [];
  }

  lemma MembersFlattened(stage: Stage, input: bool, prefix: string)
    ensures AttribsOf(stage, MEMBERS, input, prefix)
         == (if BuiltIn(stage, "POSITION", input) then [] else [Attrib(prefix + "vtx", "float4", "POSITION", input)])
            + [Attrib(prefix + "tex", "float2", "TEXCOORD0", input)]
  {
    assert MEMBERS[1..] == [TEX] && [TEX][1..] == [];
    assert AttribsOf(stage, [], input, prefix) == [];
    assert Attribs(stage, TEX, input, prefix) == [Attrib(prefix + "tex", "float2", "TEXCOORD0", input)];
    assert AttribsOf(stage, [TEX], input, prefix) == [Attrib(prefix + "tex", "float2", "TEXCOORD0", input)];
  }

  function VtxOf(v: string): LeafRef {
    LeafRef([v, "vtx"], "float4", "POSITION")
  }

  function TexOf(v: string): LeafRef {
    LeafRef([v, "tex"], "float2", "TEXCOORD0")
  }

  lemma LeavesAre(v: string)
    ensures Leaves(Nested(v, MEMBERS), []) == [VtxOf(v), TexOf(v)]
    ensures LeavesOf(MEMBERS, [v]) == [VtxOf(v), TexOf(v)]
    ensures Join(VtxOf(v).path, ".") == v + "." + "vtx" && Join(TexOf(v).path, ".") == v + "." + "tex"
  {
    var path := [] + [v];
    assert path == [v] && path + ["vtx"] == VtxOf(v).path && path + ["tex"] == TexOf(v).path;
    assert MEMBERS[1..] == [TEX] && [TEX][1..] == [];
    assert LeavesOf([], path) == [];
    assert LeavesOf([TEX], path) == [TexOf(v)];
    assert Leaves(VTX, path) == [LeafRef(path + ["vtx"], "float4", "POSITION")];
    assert Leaves(VTX, path)[0] == VtxOf(v);
    assert LeavesOf(MEMBERS, path) == [VtxOf(v)] + [TexOf(v)];
    assert VtxOf(v).path[..1] == [v] && TexOf(v).path[..1] == [v];
    assert Join([v], ".") == v;
  }

  lemma InputLetters(member: string, name: string)
    requires name == "inputval_" + "vert_in" + "_" + member
    ensures 'l' in name && 'u' in name && '_' in name && 'e' in name
  {
    assert "inputval_"[7] == 'l' && "inputval_"[3] == 'u' && "inputval_"[8] == '_' && "vert_in"[1] == 'e';
  }

  lemma OutputLetters()
    ensures 'l' in OUTPUT_TEX.name && '_' in OUTPUT_TEX.name && 'e' in OUTPUT_TEX.name
    ensures 'l' in OUTPUT.name && 'u' in OUTPUT.name
  {
    assert "outputval"[8] == 'l' && "outputval"[1] == 'u' && "tex"[1] == 'e' && "_"[0] == '_';
  }

  lemma LastLetter()
    ensures 'x' in INPUT_VTX.name && 'x' in INPUT_TEX.name && 'x' in OUTPUT_TEX.name
  {
    assert "vtx"[2] == 'x' && "tex"[2] == 'x';
  }

  lemma NameLetters()
    ensures AllHave(VERTEX_VARIABLES, 'l') && AllHave(VERTEX_VARIABLES, 'x') && AllHave(VERTEX_VARIABLES, '_')
    ensures AllHave(VERTEX_VARIABLES, 'e')
    ensures AllHave(PIXEL_VARIABLES, 'l') && AllHave(PIXEL_VARIABLES, 'u')
  {
    InputLetters("vtx", INPUT_VTX.name);
    InputLetters("tex", INPUT_TEX.name);
    OutputLetters();
    LastLetter();
    EachHas([INPUT_VTX, INPUT_TEX, OUTPUT_TEX], 'l');
    EachHas([INPUT_VTX, INPUT_TEX, OUTPUT_TEX], 'x');
    EachHas([INPUT_VTX, INPUT_TEX, OUTPUT_TEX], '_');
    EachHas([INPUT_VTX, INPUT_TEX, OUTPUT_TEX], 'e');
    EachHas([INPUT_TEX, OUTPUT], 'l');
    EachHas([INPUT_TEX, OUTPUT], 'u');
    hide AllHave;
  }

  lemma EachHas(attribs: seq<Attrib>, c: char)
    requires 2 <= |attribs| <= 3 && c in attribs[0].name && c in attribs[1].name
    requires |attribs| == 3 ==> c in attribs[2].name
    ensures AllHave(attribs, c)
  {
  }

  lemma NameLengths()
    ensures Shrinking(VERTEX_VARIABLES) && Shrinking(PIXEL_VARIABLES)
  {
    assert INPUT_VTX.name[17] == 'v' && INPUT_TEX.name[17] == 't';
    assert |INPUT_VTX.name| == |INPUT_TEX.name| == 20 && |OUTPUT_TEX.name| == 13 && |OUTPUT.name| == 9;
  }

  lemma ReadLetters()
    ensures var a, b := VtxOf("vert_in"), TexOf("vert_in");
      && 'l' !in Join(a.path, ".") && 'l' !in Join(b.path, ".")
      && 'u' !in Join(a.path, ".") && 'u' !in Join(b.path, ".")
      && !BuiltIn(Vertex, a.mapping, true) && !BuiltIn(Vertex, b.mapping, true) && !BuiltIn(Pixel, b.mapping, true)
      && BuiltIn(Pixel, a.mapping, true) && 'u' !in Reading(Pixel, a, "").src
  {
    LeavesAre("vert_in");
    assert 'l' !in "vert_in" + "." + "vtx" && 'l' !in "vert_in" + "." + "tex";
    assert 'u' !in "vert_in" + "." + "vtx" && 'u' !in "vert_in" + "." + "tex" && 'u' !in "gl_FragCoord";
    hide Join;
    assert Reading(Pixel, VtxOf("vert_in"), "").src == "gl_FragCoord";
  }

  lemma ReadPartsAre()
    ensures var a, b := VtxOf("vert_in"), TexOf("vert_in");
      && ReadPart(VERTEX) == ReadOne(Vertex, a, 0) + ReadOne(Vertex, b, 1)
      && ReadPart(PIXEL) == ReadOne(Pixel, a, 0) + ReadOne(Pixel, b, 0)
  {
    var a, b := VtxOf("vert_in"), TexOf("vert_in");
    LeavesAre("vert_in");
    assert Leaves(VERTEX.params[0], []) == Leaves(PIXEL.params[0], []) == [a, b];
    assert Taken(Vertex, a, true) == 1 && Taken(Pixel, a, true) == 0;
    hide Leaves, ReadSegments, ReadOne;
    TwoReads(Vertex, a, b);
    TwoReads(Pixel, a, b);
  }

  lemma LettersServe()
    ensures Letter(VERTEX_VARIABLES, 'l') && Letter(PIXEL_VARIABLES, 'u')
  {
    NameLetters();
    NameLengths();
    hide AllHave, Shrinking;
  }

  lemma VertexReads()
    ensures Untangled(VERTEX_VARIABLES, ReadPart(VERTEX))
  {
    hide *;
    var all, a, b := VERTEX_VARIABLES, VtxOf("vert_in"), TexOf("vert_in");
    ReadPartsAre();
    ReadLetters();
    LettersServe();
    ReadOneUntangled(all, Vertex, a, 0, 'l');
    ReadOneUntangled(all, Vertex, b, 1, 'l');
    UntangledAppend(all, ReadOne(Vertex, a, 0), ReadOne(Vertex, b, 1));
  }

  lemma TwoReads(stage: Stage, a: LeafRef, b: LeafRef)
    ensures ReadSegments(stage, [a, b], 0) == ReadOne(stage, a, 0) + ReadOne(stage, b, Taken(stage, a, true))
  {
    var k := Taken(stage, a, true);
    assert [a, b][1..] == [b] && [b][1..] == [];
    assert ReadSegments(stage, [], k + Taken(stage, b, true)) == [];
    assert ReadSegments(stage, [b], k) == ReadOne(stage, b, k) + [];
    hide ReadOne, Taken;
  }

  lemma PixelReads()
    ensures Untangled(PIXEL_VARIABLES, ReadPart(PIXEL))
  {
    hide *;
    var all, a, b := PIXEL_VARIABLES, VtxOf("vert_in"), TexOf("vert_in");
    ReadPartsAre();
    ReadLetters();
    LettersServe();
    ReadOneUntangled(all, Pixel, a, 0, 'u');
    ReadOneUntangled(all, Pixel, b, 0, 'u');
    UntangledAppend(all, ReadOne(Pixel, a, 0), ReadOne(Pixel, b, 0));
  }

  lemma TwoWrites(a: LeafRef, b: LeafRef, k: nat)
    ensures WriteSegments(Vertex, [a, b], k)
         == WriteOne(Vertex, a, k) + WriteOne(Vertex, b, k + Taken(Vertex, a, false))
  {
    var n := k + Taken(Vertex, a, false);
    assert [a, b][1..] == [b] && [b][1..] == [];
    assert WriteSegments(Vertex, [], n + Taken(Vertex, b, false)) == [];
    assert WriteSegments(Vertex, [b], n) == WriteOne(Vertex, b, n) + [];
    hide WriteOne, Taken;
  }

  lemma VertexWrites()
    ensures Untangled(VERTEX_VARIABLES, WritePart(VERTEX))
  {
    var all, a, b := VERTEX_VARIABLES, VtxOf("outputval"), TexOf("outputval");
    WritesAre();
    NameLetters();
    NameLengths();
    WriteLetters();
    assert Letter(all, 'e') && Letter(all, '_') && BuiltIn(Vertex, a.mapping, false) && !BuiltIn(Vertex, b.mapping,
         false);
    hide *;
    WriteOneUntangled(all, Vertex, a, 2, 'e');
    WriteOneUntangled(all, Vertex, b, 2, '_');
    UntangledAppend(all, WriteOne(Vertex, a, 2), WriteOne(Vertex, b, 2));
    TextUntouched(all, "\n", 'e');
    UntangledAppend(all, [Plain("\n")], WriteOne(Vertex, a, 2) + WriteOne(Vertex, b, 2));
  }

  lemma WriteLetters()
    ensures 'e' !in Join(VtxOf("outputval").path, ".") && 'e' !in "\tgl_Position" && 'e' !in "\n"
    ensures '_' !in Join(TexOf("outputval").path, ".")
  {
    LeavesAre("outputval");
    assert 'e' !in "outputval" + "." + "vtx" && '_' !in "outputval" + "." + "tex";
    hide Join;
  }

  lemma WritesAre()
    ensures var a, b := VtxOf("outputval"), TexOf("outputval");
      WritePart(VERTEX) == [Plain("\n")] + (WriteOne(Vertex, a, 2) + WriteOne(Vertex, b, 2))
  {
    var a, b := VtxOf("outputval"), TexOf("outputval");
    VariablesAre();
    LeavesAre("outputval");
    assert WritePart(VERTEX) == [Plain("\n")] + WriteSegments(Vertex, [a, b], 2);
    hide WritePart, WriteOne, WriteSegments;
    TwoWrites(a, b, 2);
  }

  lemma FixedTexts()
    ensures 'l' !in HEAD && 'l' !in "\n" && 'l' !in "\n" + MIDDLE && 'l' !in "}\n"
    ensures 'l' !in "in " + "vec4" + " " && 'l' !in "in " + "vec2" + " "
    ensures 'l' !in "out " + "vec4" + " " && 'l' !in "out " + "vec2" + " "
    ensures 'l' !in "\t" && 'l' !in " = " && 'l' !in ";\n" && 'l' !in "\n\t"
    ensures 'x' !in "\n\t" + "outputval" + (" = _main_wrap(" + "vert_in" + ");\n")
    ensures 'l' !in " = _main_wrap(" + "vert_in" + ");\n"
  {
  }

  lemma StartsLack(a: Attrib)
    requires a.typeName == "float4" || a.typeName == "float2"
    ensures 'l' !in DeclarationStart(a)
  {
    FixedTexts();
    assert TypeText("float4") == "vec4" && TypeText("float2") == "vec2";
  }

  lemma FixedParts(all: seq<Attrib>)
    requires Shrinking(all) && AllHave(all, 'l')
    ensures Letter(all, 'l')
    ensures Untangled(all, [Plain(HEAD)]) && Untangled(all, [Plain("\n")]) && Untangled(all, [Plain("\n" + MIDDLE)])
    ensures Untangled(all, [Plain("}\n")])
  {
    FixedTexts();
    TextUntouched(all, HEAD, 'l');
    TextUntouched(all, "\n", 'l');
    TextUntouched(all, "\n" + MIDDLE, 'l');
    TextUntouched(all, "}\n", 'l');
    hide Untangled;
  }

  lemma VertexIsUntangled()
    ensures Untangled(Variables(VERTEX), Segments(VERTEX))
  {
    var all := VERTEX_VARIABLES;
    var call := "\n\t" + "outputval" + (" = _main_wrap(" + "vert_in" + ");\n");
    VariablesAre();
    NameLetters();
    NameLengths();
    FixedTexts();
    assert CallSegments(VERTEX) == [Plain(call)];
    assert VERTEX.head == HEAD && VERTEX.middle == MIDDLE;
    StartsLack(INPUT_VTX);
    StartsLack(INPUT_TEX);
    StartsLack(OUTPUT_TEX);
    assert forall n :: 0 <= n < 2 ==> 'l' !in DeclarationStart([INPUT_VTX, INPUT_TEX][n]);
    assert forall n :: 0 <= n < 1 ==> 'l' !in DeclarationStart([OUTPUT_TEX][n]);
    hide *;
    FixedParts(all);
    VertexReads();
    VertexWrites();
    TextUntouched(all, call, 'x');
    DeclarationsUntangled(all, [INPUT_VTX, INPUT_TEX], 0, 'l');
    DeclarationsUntangled(all, [OUTPUT_TEX], 2, 'l');
    UntangledParts(all, VERTEX);
  }

  lemma PixelIsUntangled()
    ensures Untangled(Variables(PIXEL), Segments(PIXEL))
  {
    var all := PIXEL_VARIABLES;
    VariablesAre();
    NameLetters();
    NameLengths();
    FixedTexts();
    assert CallSegments(PIXEL) == [Plain("\n\t"), Ref(1), Plain(" = _main_wrap(" + "vert_in" + ");\n")];
    assert WritePart(PIXEL) == [];
    assert PIXEL.head == HEAD && PIXEL.middle == MIDDLE;
    StartsLack(INPUT_TEX);
    StartsLack(OUTPUT);
    assert forall n :: 0 <= n < 1 ==> 'l' !in DeclarationStart([INPUT_TEX][n]);
    assert forall n :: 0 <= n < 1 ==> 'l' !in DeclarationStart([OUTPUT][n]);
    assert Untangled(all, []);
    hide *;
    FixedParts(all);
    PixelReads();
    UntangledThree(all, "\n\t", 1, " = _main_wrap(" + "vert_in" + ");\n", 'l');
    DeclarationsUntangled(all, [INPUT_TEX], 0, 'l');
    DeclarationsUntangled(all, [OUTPUT], 1, 'l');
    UntangledParts(all, PIXEL);
  }

  lemma AreWellFormed()
    ensures WellFormed(VERTEX) && WellFormed(PIXEL)
  {
    assert Word("vtx") && Word("tex") && Word("vert_in") && Word("outputval");
    assert Spoken(VTX) && Spoken(TEX);
    assert Spoken(Nested("vert_in", MEMBERS)) && Spoken(Nested("outputval", MEMBERS));
    assert HEAD[|HEAD| - 1] == '\n' && MIDDLE[|MIDDLE| - 1] == '\n';
  }

  /** Both texts are renamed rightly, and the texture coordinates that the one writes are those the other reads. */
  lemma StagesMeet()
    ensures WellFormed(VERTEX) && FinalText(VERTEX) == Spelling(Segments(VERTEX), NewNames(VERTEX))
    ensures WellFormed(PIXEL) && FinalText(PIXEL) == Spelling(Segments(PIXEL), NewNames(PIXEL))
    ensures Variables(VERTEX) == [INPUT_VTX, INPUT_TEX, OUTPUT_TEX] && Variables(PIXEL) == [INPUT_TEX, OUTPUT]
    ensures |NewNames(VERTEX)| == 3 && |NewNames(PIXEL)| == 2 && NewNames(VERTEX)[2] == NewNames(PIXEL)[0]
  {
    hide *;
    AreWellFormed();
    VertexIsUntangled();
    PixelIsUntangled();
    UntangledIsExact(VERTEX);
    UntangledIsExact(PIXEL);
    VariablesListed();
    Places();
    AsManyNames(VERTEX);
    AsManyNames(PIXEL);
    FinalTextIsExact(VERTEX);
    FinalTextIsExact(PIXEL);
    FinalTextsLink(VERTEX, PIXEL, MEMBERS, "vert_in", 1);
  }

  lemma VariablesListed()
    ensures Variables(VERTEX) == [INPUT_VTX, INPUT_TEX, OUTPUT_TEX] && Variables(PIXEL) == [INPUT_TEX, OUTPUT]
  {
    hide Variables;
    VariablesAre();
  }

  lemma AsManyNames(s: Shader)
    ensures |NewNames(s)| == |Variables(s)|
  {
    hide Variables;
  }

  lemma Places()
    ensures var ls := LeavesOf(MEMBERS, ["outputval"]);
      |ls| == 2 && Passed(ls[1]) && ls[0].mapping != "VERTEXID" && |LeavesOf(MEMBERS, ["vert_in"])| == 2
    ensures ReturnedAt(VERTEX, MEMBERS, 1) == 2 && TakenAt(MEMBERS, "vert_in", 1) == 0
    ensures VERTEX.stage == Vertex && VERTEX.result == Nested("outputval", MEMBERS)
    ensures PIXEL.stage == Pixel && PIXEL.params != [] && PIXEL.params[0] == Nested("vert_in", MEMBERS)
  {
    LeavesAre("outputval");
    LeavesAre("vert_in");
    VariablesAre();
    hide LeavesOf, Inputs;
    assert Index(Vertex, [VtxOf("outputval"), TexOf("outputval")], 1, false) == 0;
    assert Index(Pixel, [VtxOf("vert_in"), TexOf("vert_in")], 1, true) == 0;
  }
}
