/** The routines of the GLSL parser object that write the stage interface: they append to its string and its list of
    attributes, and rename the attributes in both. */
module GlslInterfaceWriter {
  import opened Decimals
  import opened GlslWriter
  import opened GlslInterface
  import opened GlslLinking

  function Declarations(attribs: seq<Attrib>): string {
    if attribs == [] then ""
    else
      var a := attribs[0];
      (if a.input then "in " else "out ") + TypeText(a.typeName) + " " + a.name + ";\n" + Declarations(attribs[1..])
  }

  function AssignmentText(assigns: seq<Assignment>): string {
    if assigns == [] then ""
    else assigns[0].dst + " = " + assigns[0].src + ";\n" + AssignmentText(assigns[1..])
  }

  lemma DeclarationsAppend(a: seq<Attrib>, b: seq<Attrib>)
    ensures Declarations(a + b) == Declarations(a) + Declarations(b)
  {
    if a == [] {
      assert a + b == b;
    } else {
      assert (a + b)[1..] == a[1..] + b;
      DeclarationsAppend(a[1..], b);
    }
  }

  lemma AssignmentTextAppend(a: seq<Assignment>, b: seq<Assignment>)
    ensures AssignmentText(a + b) == AssignmentText(a) + AssignmentText(b)
  {
    if a == [] {
      assert a + b == b;
    } else {
      assert (a + b)[1..] == a[1..] + b;
      AssignmentTextAppend(a[1..], b);
    }
  }

  lemma Regroup<T>(a: seq<T>, b: seq<T>, c: seq<T>)
    ensures (a + b) + c == a + (b + c)
  {
  }

  lemma AttribsStep(stage: Stage, vs: seq<Var>, i: nat, input: bool, prefix: string)
    requires i < |vs|
    ensures AttribsOf(stage, vs[i..], input, prefix)
         == Attribs(stage, vs[i], input, prefix) + AttribsOf(stage, vs[i + 1..], input, prefix)
  {
    assert vs[i..][1..] == vs[i + 1..];
  }

  lemma AssignsStep(stage: Stage, vs: seq<Var>, i: nat, dst: string, src: string, input: bool)
    requires i < |vs|
    ensures AssignsOf(stage, vs[i..], dst, src, input)
         == Assigns(stage, vs[i], dst, src, input) + AssignsOf(stage, vs[i + 1..], dst, src, input)
  {
    assert vs[i..][1..] == vs[i + 1..];
  }

  class GlInterfaceWriter {
    const stage: Stage
    var glString: string
    var attribs: seq<Attrib>

    constructor (stage: Stage)
      ensures this.stage == stage && glString == "" && attribs == []
    {
      this.stage, glString, attribs := stage, "", [];
    }

    /** Declares the variables that stand for a parameter or a result. */
    method WriteStorageVar(v: Var, input: bool, prefix: string)
      modifies this
      ensures attribs == old(attribs) + Attribs(stage, v, input, prefix)
      ensures glString == old(glString) + Declarations(Attribs(stage, v, input, prefix))
      decreases v
    {
      match v {
        case Nested(name, members) => UnwrapStorageStruct(members, input, prefix + name + "_");
        case Leaf(name, typeName, mapping) =>
          if input && mapping == "VERTEXID" {
            return;
          }
          if mapping == "POSITION" {
            if !input && stage.Vertex? {
              return;
            }
            if input && stage.Pixel? {
              return;
            }
          }
          var attrib := Attrib(prefix + name, typeName, mapping, input);
          var text := (if input then "in " else "out ") + TypeText(typeName) + " " + attrib.name + ";\n";
          assert Declarations([attrib]) == text + "" == text;
          glString := glString + text;
          attribs := attribs + [attrib];
      }
    }

    method UnwrapStorageStruct(members: seq<Var>, input: bool, prefix: string)
      modifies this
      ensures attribs == old(attribs) + AttribsOf(stage, members, input, prefix)
      ensures glString == old(glString) + Declarations(AttribsOf(stage, members, input, prefix))
      decreases members
    {
      ghost var all := AttribsOf(stage, members, input, prefix);
      ghost var done: seq<Attrib> := [];
      assert members[0..] == members && Declarations([]) == "" && AttribsOf(stage, [], input, prefix) == [];
      hide Attribs, AttribsOf, Declarations;
      for i := 0 to |members|
        invariant done + AttribsOf(stage, members[i..], input, prefix) == all
        invariant attribs == old(attribs) + done && glString == old(glString) + Declarations(done)
      {
        ghost var more := Attribs(stage, members[i], input, prefix);
        AttribsStep(stage, members, i, input, prefix);
        WriteStorageVar(members[i], input, prefix);
        DeclarationsAppend(done, more);
        Regroup(old(attribs), done, more);
        Regroup(done, more, AttribsOf(stage, members[i + 1..], input, prefix));
        Regroup(old(glString), Declarations(done), Declarations(more));
        done := done + more;
      }
      assert done + [] == done;
    }

    /** Writes the assignments between a parameter or a result and its variables. A missing destination is the start
        of a line. */
    method WriteMainStorageAssign(v: Var, dst: string, src: string, input: bool)
      modifies this
      ensures attribs == old(attribs)
      ensures glString == old(glString)
                          + AssignmentText(Assigns(stage, v, if dst == "" then "\t" else dst + Left(input), src, input))
      decreases v
    {
      var dstCopy := (if dst == "" then "\t" else dst + Left(input)) + v.name;
      match v {
        case Nested(name, members) => AssignMembers(members, dstCopy, src + name + Right(input), input);
        case Leaf(name, typeName, mapping) =>
          ghost var before := glString;
          if input || !stage.Vertex? || mapping != "POSITION" {
            var value := if input && mapping == "VERTEXID" then "uint(gl_VertexID)"
                         else if input && stage.Pixel? && mapping == "POSITION" then "gl_FragCoord"
                         else src + name;
            Assign(dstCopy, value);
          }
          if !input && stage.Vertex? && mapping == "POSITION" {
            Assign("\tgl_Position", src + name);
          }
      }
    }

    method Assign(dst: string, src: string)
      modifies this
      ensures attribs == old(attribs) && glString == old(glString) + AssignmentText([Assignment(dst, src)])
    {
      var text := dst + " = " + src + ";\n";
      assert AssignmentText([Assignment(dst, src)]) == text + "" == text;
      glString := glString + text;
    }

    method AssignMembers(members: seq<Var>, dst: string, src: string, input: bool)
      requires dst != ""
      modifies this
      ensures attribs == old(attribs)
      ensures glString == old(glString) + AssignmentText(AssignsOf(stage, members, dst + Left(input), src, input))
      decreases members
    {
      ghost var all := AssignsOf(stage, members, dst + Left(input), src, input);
      ghost var done: seq<Assignment> := [];
      assert members[0..] == members && AssignmentText([]) == "";
      assert AssignsOf(stage, [], dst + Left(input), src, input) == [];
      hide Assigns, AssignsOf, AssignmentText;
      for i := 0 to |members|
        invariant attribs == old(attribs)
        invariant done + AssignsOf(stage, members[i..], dst + Left(input), src, input) == all
        invariant glString == old(glString) + AssignmentText(done)
      {
        ghost var more := Assigns(stage, members[i], dst + Left(input), src, input);
        AssignsStep(stage, members, i, dst + Left(input), src, input);
        WriteMainStorageAssign(members[i], dst, src, input);
        AssignmentTextAppend(done, more);
        Regroup(done, more, AssignsOf(stage, members[i + 1..], dst + Left(input), src, input));
        Regroup(old(glString), AssignmentText(done), AssignmentText(more));
        done := done + more;
      }
      assert done + [] == done;
    }

    /** Renames the attributes one after the other, each wherever its name occurs in the text. */
    method RenameAttributes()
      requires forall i :: 0 <= i < |attribs| ==> attribs[i].name != ""
      modifies this
      ensures NamesOf(attribs) == NamesAfter(stage, old(attribs), |old(attribs)|)
      ensures glString == TextAfter(stage, old(attribs), old(glString), |old(attribs)|)
    {
      var inputIdx, outputIdx := 0, 0;
      ghost var all := attribs;
      RenameStarts(all, stage, glString);
      hide Replace, Digits, LinkPrefix, NewName, CountBefore, TextAfter, AttribsAfter;
      for i := 0 to |attribs|
        invariant attribs == AttribsAfter(stage, all, i)
        invariant inputIdx == CountBefore(all, i, true) && outputIdx == CountBefore(all, i, false)
        invariant glString == TextAfter(stage, all, old(glString), i)
      {
        RenameStep(stage, all, old(glString), i);
        var attrib := attribs[i];
        var val: nat;
        if attrib.input {
          val, inputIdx := inputIdx, inputIdx + 1;
        } else {
          val, outputIdx := outputIdx, outputIdx + 1;
        }
        var newName := LinkPrefix(stage, attrib.input) + Digits(val);
        glString := Replace(glString, attrib.name, newName);
        attribs := attribs[i := attrib.(name := newName)];
      }
      RenameEnds(stage, all);
    }
  }

  /** The attributes when the first `k` of them have been renamed. */
  function AttribsAfter(stage: Stage, all: seq<Attrib>, k: nat): (r: seq<Attrib>)
    requires k <= |all|
    ensures |r| == |all|
  {
    seq(|all|, i requires 0 <= i < |all| => if i < k then all[i].(name := NewName(stage, all, i)) else all[i])
  }

  lemma RenameEnds(stage: Stage, all: seq<Attrib>)
    ensures NamesOf(AttribsAfter(stage, all, |all|)) == NamesAfter(stage, all, |all|)
  {
    NamesAt(AttribsAfter(stage, all, |all|));
  }

  lemma RenameStarts(all: seq<Attrib>, stage: Stage, text: string)
    requires forall i :: 0 <= i < |all| ==> all[i].name != ""
    ensures AttribsAfter(stage, all, 0) == all
    ensures CountBefore(all, 0, true) == CountBefore(all, 0, false) == 0 && TextAfter(stage, all, text, 0) == text
  {
  }

  lemma RenameStep(stage: Stage, all: seq<Attrib>, text: string, i: nat)
    requires i < |all| && forall j :: 0 <= j < |all| ==> all[j].name != ""
    ensures NewName(stage, all, i)
         == LinkPrefix(stage, all[i].input) + Digits(CountBefore(all, i, all[i].input))
    ensures forall input :: CountBefore(all, i + 1, input)
                         == CountBefore(all, i, input) + if all[i].input == input then 1 else 0
    ensures TextAfter(stage, all, text, i + 1)
         == Replace(TextAfter(stage, all, text, i), all[i].name, NewName(stage, all, i))
    ensures AttribsAfter(stage, all, i)[i] == all[i]
    ensures AttribsAfter(stage, all, i + 1)
         == AttribsAfter(stage, all, i)[i := all[i].(name := NewName(stage, all, i))]
  {
    hide Replace, Digits, LinkPrefix;
  }

  function Left(input: bool): string {
    if input then "." else "_"
  }

  function Right(input: bool): string {
    if input then "_" else "."
  }

  lemma NamesAt(attribs: seq<Attrib>)
    ensures forall i :: 0 <= i < |attribs| ==> NamesOf(attribs)[i] == attribs[i].name
  {
    if attribs != [] {
      NamesAt(attribs[1..]);
    }
  }
}
