/** The text that is emitted for the vertex shader, and how it is read. */
module MetalExampleText {
  import opened Options
  import opened MetalTranspiler
  import opened MetalScoping
  import opened MetalSyntax
  import opened MetalLexemes
  import opened MetalReading
  import opened MetalEmission
  import opened MetalExample
  import M = MetalText

  lemma PrintFour(ss: seq<M.Stmt>)
    requires |ss| == 4
    ensures M.PrintBody(ss) == M.PrintStmt(ss[0]) + (M.PrintStmt(ss[1]) + (M.PrintStmt(ss[2]) + M.PrintStmt(ss[3])))
  {
    hide M.PrintStmt;
    assert M.PrintBody(ss[1..][1..][1..][1..]) == [];
    assert M.PrintBody(ss[1..][1..][1..]) == M.PrintStmt(ss[3]);
    assert M.PrintBody(ss[1..][1..]) == M.PrintStmt(ss[2]) + M.PrintStmt(ss[3]);
  }

  lemma ProductText()
    ensures M.Print(LiftedProduct())
         == ["(", "float4", "(", "vert_in", ".", "pos", ".", "xyz", ",", "1.0", ")", ")", "*", "(", "uniforms", ".",
             "ViewProj", ")"]
  {
    var pos := M.Member(M.Member(M.Name("vert_in"), "pos"), "xyz");
    assert M.Print(pos) == ["vert_in", ".", "pos", ".", "xyz"];
    assert M.PrintArgs([pos, M.Literal("1.0")][1..]) == ["1.0"];
    assert M.PrintArgs([pos, M.Literal("1.0")]) == ["vert_in", ".", "pos", ".", "xyz", ",", "1.0"];
    assert M.Print(LiftedPosition())
        == ["float4", "(", "vert_in", ".", "pos", ".", "xyz", ",", "1.0", ")"];
    hide LiftedPosition;
    var u := M.Member(M.Name("uniforms"), "ViewProj");
    assert M.Print(u) == ["uniforms", ".", "ViewProj"];
  }

  /** The lexemes of the emitted helper. */
  lemma ExampleText()
    ensures EmittedBody(Example().shader, 0).Ok?
    ensures Lexemes(EmittedBody(Example().shader, 0).value.out)
         == ["VertInOut_Out", "vert_out", ";"]
            + (["vert_out", ".", "pos", "=", "(", "float4", "(", "vert_in", ".", "pos", ".", "xyz", ",", "1.0",
                ")", ")", "*", "(", "uniforms", ".", "ViewProj", ")", ";"]
               + (["vert_out", ".", "uv", "=", "vert_in", ".", "uv", ";"] + ["return", "vert_out", ";"]))
  {
    hide *;
    Shape();
    ExampleIsProper();
    EmittedIsLifted(Example(), 0);
    LiftedExample();
    HelperText();
  }

  lemma HelperText()
    ensures M.PrintBody(LiftedHelper())
         == ["VertInOut_Out", "vert_out", ";"]
            + (["vert_out", ".", "pos", "=", "(", "float4", "(", "vert_in", ".", "pos", ".", "xyz", ",", "1.0",
                ")", ")", "*", "(", "uniforms", ".", "ViewProj", ")", ";"]
               + (["vert_out", ".", "uv", "=", "vert_in", ".", "uv", ";"] + ["return", "vert_out", ";"]))
  {
    var ss := LiftedHelper();
    assert |ss| == 4 && ss[1] == M.Assign("vert_out", ["pos"], "=", LiftedProduct());
    assert ss[2] == M.Assign("vert_out", ["uv"], "=", M.Member(M.Name("vert_in"), "uv"));
    assert M.PrintStmt(ss[0]) == ["VertInOut_Out", "vert_out", ";"];
    assert M.PrintStmt(ss[3]) == ["return", "vert_out", ";"];
    hide *;
    PrintFour(ss);
    PositionText();
    CoordinateText();
  }

  lemma PositionText()
    ensures M.PrintStmt(M.Assign("vert_out", ["pos"], "=", LiftedProduct()))
         == ["vert_out", ".", "pos", "=", "(", "float4", "(", "vert_in", ".", "pos", ".", "xyz", ",", "1.0", ")", ")",
             "*", "(", "uniforms", ".", "ViewProj", ")", ";"]
  {
    hide *;
    ProductText();
    AssignmentText("pos", LiftedProduct());
  }

  lemma CoordinateText()
    ensures M.PrintStmt(M.Assign("vert_out", ["uv"], "=", M.Member(M.Name("vert_in"), "uv")))
         == ["vert_out", ".", "uv", "=", "vert_in", ".", "uv", ";"]
  {
    var uv := M.Member(M.Name("vert_in"), "uv");
    assert M.Print(uv) == ["vert_in", ".", "uv"];
    hide *;
    AssignmentText("uv", uv);
  }

  lemma AssignmentText(field: string, e: M.Expr)
    ensures M.PrintStmt(M.Assign("vert_out", [field], "=", e)) == ["vert_out", ".", field, "="] + (M.Print(e) + [";"])
  {
    hide M.Print;
    assert M.PrintFields([field][1..]) == [] && M.PrintFields([field]) == [".", field];
  }

  /** The Metal compiler reads it as the lifted program. */
  lemma ExampleIsRead()
    ensures EmittedBody(Example().shader, 0).Ok?
    ensures M.ParseBody(Lexemes(EmittedBody(Example().shader, 0).value.out)) == Some((LiftedHelper(), []))
  {
    hide *;
    Shape();
    ExampleIsProper();
    LiftedExample();
    GlobalsOfExample();
    HelperIsRead();
    EmittedReads(Example(), 0);
  }

  lemma GlobalsOfExample()
    ensures GlobalsAreWords(Example().shader)
  {
    NamesOfGlobals();
    assert M.Word("uniforms");
    hide Declared, Example;
  }

  lemma HelperIsRead()
    ensures M.ParseBody(Spoken(BodyTokens(Helper()))) == Some((VerbatimBody(Helper()), []))
    ensures ClearBody(Helper())
  {
    HelperIsReadable();
    BodySpoken(Helper());
    M.BodyReadsBack(VerbatimBody(Helper()));
    hide *;
  }

  lemma HelperIsReadable()
    ensures M.ReadableBody(VerbatimBody(Helper())) && ClearBody(Helper())
  {
    hide *;
    ProductIsClear();
    HelperWords();
    StatementsRead();
  }

  lemma HelperWords()
    ensures M.Identifier("VertInOut") && M.Identifier("vert_out") && M.Word("pos") && M.Word("uv") && M.Word("vert_in")
  {
  }

  lemma ProductIsClear()
    ensures M.Readable(Verbatim(Projected()), 1) && Clear(Projected(), 1)
  {
    assert M.Word("mul") && M.Word("float4") && M.Word("vert_in") && M.Word("pos") && M.Word("xyz");
    assert M.Word("ViewProj") && M.Number("1.0");
    hide M.Word, M.Number;
    var v := Member(Member(Local("vert_in"), "pos"), "xyz");
    assert M.Readable(Verbatim(v), 1) && Clear(v, 1);
    assert M.Readable(Verbatim(Literal("1.0")), 1) && Clear(Literal("1.0"), 1);
    var e := Position();
    assert M.Readable(Verbatim(e), 1) && Clear(e, 1);
    assert M.Readable(Verbatim(Uniform("ViewProj")), 1);
    hide Position;
  }

  lemma StatementsRead()
    requires M.Readable(Verbatim(Projected()), 1) && Clear(Projected(), 1)
    requires M.Identifier("VertInOut") && M.Identifier("vert_out") && M.Word("pos") && M.Word("uv") && M.Word("vert_in")
    ensures M.ReadableBody(VerbatimBody(Helper())) && ClearBody(Helper())
  {
    hide M.Identifier, M.Word, Projected;
    var ss := Helper();
    assert M.Readable(Verbatim(Member(Local("vert_in"), "uv")), 1);
    assert M.Readable(Verbatim(Local("vert_out")), 1) by {
      assert M.Identifier("vert_out");
      IdentifierIsWord("vert_out");
    }
    hide M.Readable, Clear;
    forall k | 0 <= k < |ss| ensures M.ReadableBody(VerbatimStmt(ss[k])) && ClearStmt(ss[k]) {
    }
    hide VerbatimStmt, ClearStmt, Helper, M.ReadableBody;
    EachReads(ss);
  }

  lemma IdentifierIsWord(s: string)
    requires M.Identifier(s)
    ensures M.Word(s)
  {
  }

  lemma {:induction false} EachReads(ss: seq<Stmt>)
    requires forall k :: 0 <= k < |ss| ==> M.ReadableBody(VerbatimStmt(ss[k])) && ClearStmt(ss[k])
    ensures M.ReadableBody(VerbatimBody(ss)) && ClearBody(ss)
  {
    hide VerbatimStmt, ClearStmt, M.ReadableBody;
    if ss == [] {
      NothingReads();
    } else {
      EachReads(ss[1..]);
      ConcatReads(VerbatimStmt(ss[0]), VerbatimBody(ss[1..]));
    }
  }
}
