/** How the variables of the two shader stages find each other: the wrapper uses the variables that were declared, and
    renaming numbers them in the order of declaration. */
module GlslLinking {
  import opened Decimals
  import opened GlslOperands
  import opened GlslInterface

  function NamesOf(attribs: seq<Attrib>): (r: seq<string>)
    ensures |r| == |attribs|
  {
    if attribs == [] then [] else [attribs[0].name] + NamesOf(attribs[1..])
  }

  /** What the wrapper reads that is no variable of GLSL's own. */
  function SourcesOf(stage: Stage, ls: seq<LeafRef>, prefix: string): seq<string> {
    if ls == [] then []
    else (if BuiltIn(stage, ls[0].mapping, true) then [] else [Reading(stage, ls[0], prefix).src])
         + SourcesOf(stage, ls[1..], prefix)
  }

  /** What it writes that is no variable of GLSL's own, behind the tab it starts with. */
  function TargetsOf(stage: Stage, ls: seq<LeafRef>): seq<string> {
    if ls == [] then []
    else (if BuiltIn(stage, ls[0].mapping, false) then [] else [Writing(stage, ls[0]).dst[1..]])
         + TargetsOf(stage, ls[1..])
  }

  lemma NamesAppend(a: seq<Attrib>, b: seq<Attrib>)
    ensures NamesOf(a + b) == NamesOf(a) + NamesOf(b)
  {
    if a == [] {
      assert a + b == b;
    } else {
      assert (a + b)[1..] == a[1..] + b;
      NamesAppend(a[1..], b);
    }
  }

  /** The variables declared for a parameter are those the wrapper reads, in the same order, and those declared for a
      result are those it writes. */
  lemma {:induction false} WrapperUsesDeclared(stage: Stage, ls: seq<LeafRef>, prefix: string)
    ensures NamesOf(VariablesOf(stage, ls, true, prefix)) == SourcesOf(stage, ls, prefix)
    ensures NamesOf(VariablesOf(stage, ls, false, "")) == TargetsOf(stage, ls)
  {
    if ls != [] {
      WrapperUsesDeclared(stage, ls[1..], prefix);
      NamesAppend(VariableOf(stage, ls[0], true, prefix), VariablesOf(stage, ls[1..], true, prefix));
      NamesAppend(VariableOf(stage, ls[0], false, ""), VariablesOf(stage, ls[1..], false, ""));
      assert "" + Join(ls[0].path, "_") == Join(ls[0].path, "_");
      assert ("\t" + Join(ls[0].path, "_"))[1..] == Join(ls[0].path, "_");
      OneName(VariableOf(stage, ls[0], true, prefix));
      OneName(VariableOf(stage, ls[0], false, ""));
      hide NamesOf, VariablesOf, Join;
    }
  }

  lemma OneName(a: seq<Attrib>)
    requires |a| <= 1
    ensures NamesOf(a) == if a == [] then [] else [a[0].name]
  {
  }

  // ---------------------------------------------------------------------------------------------------------
  // Numbers

  /** How many leaves before the one at `k` have a variable. */
  function Index(stage: Stage, ls: seq<LeafRef>, k: nat, input: bool): (n: nat)
    requires k <= |ls|
    ensures n <= k
  {
    if k == 0 then 0
    else Index(stage, ls, k - 1, input) + if BuiltIn(stage, ls[k - 1].mapping, input) then 0 else 1
  }

  lemma VariableAt(stage: Stage, ls: seq<LeafRef>, k: nat, input: bool, prefix: string)
    requires k < |ls| && !BuiltIn(stage, ls[k].mapping, input)
    ensures var vs := VariablesOf(stage, ls, input, prefix);
      var i := Index(stage, ls, k, input);
      i < |vs| && [vs[i]] == VariableOf(stage, ls[k], input, prefix)
  {
    var rest := [ls[k]] + ls[k + 1..];
    VariablesBefore(stage, ls, k, input, prefix);
    assert ls == ls[..k] + rest;
    VariablesAppend(stage, ls[..k], rest, input, prefix);
    assert rest[1..] == ls[k + 1..];
    assert VariablesOf(stage, rest, input, prefix)
        == VariableOf(stage, ls[k], input, prefix) + VariablesOf(stage, ls[k + 1..], input, prefix);
    hide VariablesOf, Index;
  }

  lemma VariablesBefore(stage: Stage, ls: seq<LeafRef>, k: nat, input: bool, prefix: string)
    requires k <= |ls|
    ensures |VariablesOf(stage, ls[..k], input, prefix)| == Index(stage, ls, k, input)
  {
    if k > 0 {
      VariablesBefore(stage, ls, k - 1, input, prefix);
      assert ls[..k] == ls[..k - 1] + [ls[k - 1]];
      VariablesAppend(stage, ls[..k - 1], [ls[k - 1]], input, prefix);
      assert [ls[k - 1]][1..] == [];
    }
  }

  /** What a leaf is called in a stage after renaming. */
  function LinkName(stage: Stage, ls: seq<LeafRef>, k: nat, input: bool): string
    requires k <= |ls|
  {
    "_vertex_shader_attrib" + Digits(Index(stage, ls, k, input))
  }

  /** A leaf that the pixel shader takes from the vertex shader. */
  predicate Passed(l: LeafRef) {
    !BuiltIn(Pixel, l.mapping, true)
  }

  function VertexIds(ls: seq<LeafRef>, k: nat): nat
    requires k <= |ls|
  {
    if k == 0 then 0 else VertexIds(ls, k - 1) + if ls[k - 1].mapping == "VERTEXID" then 1 else 0
  }

  lemma IndexDifference(ls: seq<LeafRef>, k: nat)
    requires k <= |ls|
    ensures Index(Vertex, ls, k, false) == Index(Pixel, ls, k, true) + VertexIds(ls, k)
  {
  }

  lemma NoVertexIds(ls: seq<LeafRef>, k: nat)
    requires k <= |ls|
    ensures VertexIds(ls, k) == 0 <==> forall j :: 0 <= j < k ==> ls[j].mapping != "VERTEXID"
  {
    if k > 0 {
      NoVertexIds(ls, k - 1);
    }
  }

  lemma LinkNamesDiffer(stage: Stage, ls: seq<LeafRef>, k: nat, t: Stage, ms: seq<LeafRef>, l: nat, a: bool, b: bool)
    requires k <= |ls| && l <= |ms|
    ensures LinkName(stage, ls, k, a) == LinkName(t, ms, l, b) <==> Index(stage, ls, k, a) == Index(t, ms, l, b)
  {
    var prefix := "_vertex_shader_attrib";
    if LinkName(stage, ls, k, a) == LinkName(t, ms, l, b) {
      assert LinkName(stage, ls, k, a)[|prefix|..] == Digits(Index(stage, ls, k, a));
      assert LinkName(t, ms, l, b)[|prefix|..] == Digits(Index(t, ms, l, b));
      DigitsInjective(Index(stage, ls, k, a), Index(t, ms, l, b));
    }
  }

  /** The mappings of the leaves do not depend on what the parameter and the result are called. */
  lemma {:induction false} SameLeaves(vs: seq<Var>, p: seq<string>, q: seq<string>)
    ensures |LeavesOf(vs, p)| == |LeavesOf(vs, q)|
    ensures forall i :: 0 <= i < |LeavesOf(vs, p)| ==> LeavesOf(vs, p)[i].mapping == LeavesOf(vs, q)[i].mapping
    decreases vs
  {
    if vs != [] {
      SameLeaves(vs[1..], p, q);
      match vs[0]
      case Leaf(_, _, _) =>
      case Nested(n, members) => SameLeaves(members, p + [n], q + [n]);
    }
  }

  lemma IndexOfMappings(stage: Stage, ls: seq<LeafRef>, ms: seq<LeafRef>, k: nat, input: bool)
    requires |ls| == |ms| && k <= |ls| && forall i :: 0 <= i < |ls| ==> ls[i].mapping == ms[i].mapping
    ensures Index(stage, ls, k, input) == Index(stage, ms, k, input)
  {
  }

  /** A vertex shader that returns a struct and a pixel shader that takes it call a passed leaf the same if and only if
      no vertex number comes before it in the struct. */
  lemma {:induction false} StagesLink(members: seq<Var>, param: string, k: nat)
    requires k < |LeavesOf(members, ["outputval"])| && Passed(LeavesOf(members, ["outputval"])[k])
    ensures var returned, taken := LeavesOf(members, ["outputval"]), LeavesOf(members, [param]);
      && |taken| == |returned|
      && (LinkName(Vertex, returned, k, false) == LinkName(Pixel, taken, k, true)
          <==> forall j :: 0 <= j < k ==> returned[j].mapping != "VERTEXID")
  {
    var returned, taken := LeavesOf(members, ["outputval"]), LeavesOf(members, [param]);
    SameLeaves(members, ["outputval"], [param]);
    IndexOfMappings(Pixel, returned, taken, k, true);
    IndexDifference(returned, k);
    NoVertexIds(returned, k);
    LinkNamesDiffer(Vertex, returned, k, Pixel, taken, k, false, true);
  }

  /** The vertex shader passes a vertex number on, which the pixel shader takes from elsewhere: from there on the
      variables of the two stages are shifted against each other. */
  lemma VertexNumberShifts(param: string, id: string, name: string, t: string)
    ensures var members := [Leaf(id, "uint", "VERTEXID"), Leaf(name, t, "TEXCOORD0")];
      var returned, taken := LeavesOf(members, ["outputval"]), LeavesOf(members, [param]);
      && |returned| == |taken| == 2 && Passed(returned[1])
      && LinkName(Vertex, returned, 1, false) != LinkName(Pixel, taken, 1, true)
  {
    var members := [Leaf(id, "uint", "VERTEXID"), Leaf(name, t, "TEXCOORD0")];
    TwoLeaves(members[0], members[1], ["outputval"]);
    TwoLeaves(members[0], members[1], [param]);
    var returned := LeavesOf(members, ["outputval"]);
    assert returned[0].mapping == "VERTEXID" && returned[1].mapping == "TEXCOORD0";
    StagesLink(members, param, 1);
  }

  lemma TwoLeaves(a: Var, b: Var, path: seq<string>)
    requires a.Leaf? && b.Leaf?
    ensures LeavesOf([a, b], path)
         == [LeafRef(path + [a.name], a.typeName, a.mapping), LeafRef(path + [b.name], b.typeName, b.mapping)]
  {
    assert [a, b][1..] == [b] && [b][1..] == [] && LeavesOf([], path) == [];
    assert LeavesOf([b], path) == Leaves(b, path) + LeavesOf([b][1..], path) == Leaves(b, path);
  }

  /** Leaves that have variables in a stage have different ones. */
  lemma {:induction false} LeavesAreDistinct(stage: Stage, ls: seq<LeafRef>, j: nat, k: nat, input: bool)
    requires j < k < |ls| && !BuiltIn(stage, ls[j].mapping, input)
    ensures LinkName(stage, ls, j, input) != LinkName(stage, ls, k, input)
  {
    IndexGrows(stage, ls, j + 1, k, input);
    LinkNamesDiffer(stage, ls, j, stage, ls, k, input, input);
  }

  lemma IndexGrows(stage: Stage, ls: seq<LeafRef>, j: nat, k: nat, input: bool)
    requires j <= k <= |ls|
    ensures Index(stage, ls, j, input) <= Index(stage, ls, k, input)
  {
    if j < k {
      IndexGrows(stage, ls, j, k - 1, input);
    }
  }

  // ---------------------------------------------------------------------------------------------------------
  // Renaming in the text

  /** Every occurrence is replaced, from left to right; replaced text is not looked at again. */
  function Replace(text: string, find: string, into: string): string
    requires find != ""
    decreases |text|
  {
    if text == "" then ""
    else if find <= text then into + Replace(text[|find|..], find, into)
    else [text[0]] + Replace(text[1..], find, into)
  }

  /** Text with the variables of the interface marked by their numbers. */
  datatype Segment = Plain(text: string) | Ref(i: nat)

  function Spelling(segments: seq<Segment>, names: seq<string>): string {
    if segments == [] then "" else SegmentText(segments[0], names) + Spelling(segments[1..], names)
  }

  function SegmentText(segment: Segment, names: seq<string>): string {
    match segment
    case Plain(s) => s
    case Ref(i) => if i < |names| then names[i] else ""
  }

  /** The name number `n` occurs where it is meant, and does not start anywhere else, be it across the ends of other
      names or of other text. */
  predicate OnlyMeant(segments: seq<Segment>, names: seq<string>, n: nat)
    requires n < |names|
  {
    segments == [] || (
      && (segments[0] != Ref(n) ==> NotIn(names[n], SegmentText(segments[0], names), Spelling(segments[1..], names)))
      && OnlyMeant(segments[1..], names, n))
  }

  /** `name` does not start inside `s` when `rest` follows. */
  predicate NotIn(name: string, s: string, rest: string) {
    s == "" || (!(name <= s + rest) && NotIn(name, s[1..], rest))
  }

  lemma {:induction false} ReplaceSkips(name: string, s: string, rest: string, into: string)
    requires name != "" && NotIn(name, s, rest)
    ensures Replace(s + rest, name, into) == s + Replace(rest, name, into)
  {
    if s == "" {
      assert s + rest == rest;
    } else {
      assert (s + rest)[1..] == s[1..] + rest;
      ReplaceSkips(name, s[1..], rest, into);
      assert s == [s[0]] + s[1..];
    }
  }

  /** If a name occurs only where it is meant, replacing it renames that variable and nothing else. */
  lemma {:induction false} ReplaceRenames(segments: seq<Segment>, names: seq<string>, n: nat, into: string)
    requires n < |names| && names[n] != "" && OnlyMeant(segments, names, n)
    ensures Replace(Spelling(segments, names), names[n], into) == Spelling(segments, names[n := into])
  {
    if segments != [] {
      var rest := Spelling(segments[1..], names);
      ReplaceRenames(segments[1..], names, n, into);
      if segments[0] == Ref(n) {
        assert (names[n] + rest)[|names[n]|..] == rest;
      } else {
        ReplaceSkips(names[n], SegmentText(segments[0], names), rest, into);
      }
    }
  }

  function LinkPrefix(stage: Stage, input: bool): string {
    if stage.Vertex? && input then "_input_attrib"
    else if stage.Pixel? && !input then "_pixel_shader_attrib"
    else "_vertex_shader_attrib"
  }

  /** How many variables of the same direction come before the one at `k`. */
  function CountBefore(attribs: seq<Attrib>, k: nat, input: bool): nat
    requires k <= |attribs|
  {
    if k == 0 then 0 else CountBefore(attribs, k - 1, input) + if attribs[k - 1].input == input then 1 else 0
  }

  function NewName(stage: Stage, attribs: seq<Attrib>, k: nat): string
    requires k < |attribs|
  {
    var a := attribs[k];
    LinkPrefix(stage, a.input) + Digits(CountBefore(attribs, k, a.input))
  }

  /** The names when the first `k` variables have been renamed. */
  function NamesAfter(stage: Stage, attribs: seq<Attrib>, k: nat): (r: seq<string>)
    requires k <= |attribs|
    ensures |r| == |attribs|
  {
    seq(|attribs|, i requires 0 <= i < |attribs| => if i < k then NewName(stage, attribs, i) else attribs[i].name)
  }

  /** The text when the first `k` variables have been renamed. */
  function TextAfter(stage: Stage, attribs: seq<Attrib>, text: string, k: nat): string
    requires k <= |attribs| && forall i :: 0 <= i < |attribs| ==> attribs[i].name != ""
  {
    if k == 0 then text
    else Replace(TextAfter(stage, attribs, text, k - 1), attribs[k - 1].name, NewName(stage, attribs, k - 1))
  }

  /** Whenever a variable is renamed, its name occurs only where it is meant. */
  predicate Renamable(stage: Stage, attribs: seq<Attrib>, segments: seq<Segment>) {
    forall n :: 0 <= n < |attribs| ==>
      attribs[n].name != "" && OnlyMeant(segments, NamesAfter(stage, attribs, n), n)
  }

  /** Then renaming gives every variable its new name everywhere, and changes nothing else. */
  lemma {:induction false} RenamingIsExact(stage: Stage, attribs: seq<Attrib>, segments: seq<Segment>, k: nat)
    requires Renamable(stage, attribs, segments) && k <= |attribs|
    ensures TextAfter(stage, attribs, Spelling(segments, NamesAfter(stage, attribs, 0)), k)
         == Spelling(segments, NamesAfter(stage, attribs, k))
  {
    hide OnlyMeant, Spelling, NewName, Replace;
    if k > 0 {
      RenamingIsExact(stage, attribs, segments, k - 1);
      var names := NamesAfter(stage, attribs, k - 1);
      assert names[k - 1] == attribs[k - 1].name;
      ReplaceRenames(segments, names, k - 1, NewName(stage, attribs, k - 1));
      assert names[k - 1 := NewName(stage, attribs, k - 1)] == NamesAfter(stage, attribs, k);
    }
  }

  lemma CountAppend(a: seq<Attrib>, b: seq<Attrib>, k: nat, input: bool)
    requires k <= |b|
    ensures CountBefore(a + b, |a| + k, input) == CountBefore(a, |a|, input) + CountBefore(b, k, input)
  {
    if k == 0 {
      CountPrefix(a, b, |a|, input);
    } else {
      CountAppend(a, b, k - 1, input);
    }
  }

  lemma CountPrefix(a: seq<Attrib>, b: seq<Attrib>, k: nat, input: bool)
    requires k <= |a|
    ensures CountBefore(a + b, k, input) == CountBefore(a, k, input)
  {
  }

  lemma CountAll(a: seq<Attrib>, k: nat, input: bool)
    requires k <= |a|
    ensures (forall x :: x in a ==> x.input == input) ==> CountBefore(a, k, input) == k
    ensures (forall x :: x in a ==> x.input != input) ==> CountBefore(a, k, input) == 0
  {
  }

  lemma VariablesDirection(stage: Stage, ls: seq<LeafRef>, input: bool, prefix: string)
    ensures forall a :: a in VariablesOf(stage, ls, input, prefix) ==> a.input == input
  {
  }

  /** Among the variables of a shader, those of the struct at the interface are numbered as `LinkName` says. */
  lemma {:induction false} NewNameIsLinkName(stage: Stage, before: seq<Attrib>, ls: seq<LeafRef>, after: seq<Attrib>,
                                             k: nat, input: bool, prefix: string)
    requires k < |ls| && !BuiltIn(stage, ls[k].mapping, input) && (stage.Vertex? <==> !input)
    requires forall a :: a in before ==> a.input != input
    ensures var all := before + (VariablesOf(stage, ls, input, prefix) + after);
      var i := |before| + Index(stage, ls, k, input);
      i < |all| && all[i].input == input && NewName(stage, all, i) == LinkName(stage, ls, k, input)
  {
    var vs := VariablesOf(stage, ls, input, prefix);
    var i := Index(stage, ls, k, input);
    var all := before + (vs + after);
    VariableAt(stage, ls, k, input, prefix);
    VariablesDirection(stage, ls, input, prefix);
    assert vs[i] in vs;
    assert LinkPrefix(stage, input) == "_vertex_shader_attrib";
    hide VariablesOf, Index;
    Within(before, vs, after, i);
    CountAppend(before, vs + after, i, input);
    CountPrefix(vs, after, i, input);
    CountAll(before, |before|, input);
    CountAll(vs, i, input);
    assert CountBefore(all, |before| + i, input) == i;
    hide CountBefore, Digits, LinkPrefix;
  }

  lemma Within(a: seq<Attrib>, b: seq<Attrib>, c: seq<Attrib>, i: nat)
    requires i < |b|
    ensures |a| + i < |a + (b + c)| && (a + (b + c))[|a| + i] == b[i]
  {
  }
}
