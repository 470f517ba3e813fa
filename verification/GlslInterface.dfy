/** The stage interface of GLSL shaders: structs are flattened into variables, a wrapper puts them together again, and
    the variables are renamed so that the two stages find each other. */
module GlslInterface {
  /** A parameter, a result or a member, with its type resolved: a plain type with a semantic, or a struct. */
  datatype Var =
    | Leaf(name: string, typeName: string, mapping: string)
    | Nested(name: string, members: seq<Var>)

  datatype Stage = Vertex | Pixel

  /** A variable of the interface. */
  datatype Attrib = Attrib(name: string, typeName: string, mapping: string, input: bool)

  /** `dst = src;` in the wrapper. */
  datatype Assignment = Assignment(dst: string, src: string)

  /** Values that GLSL passes in variables of its own. */
  predicate BuiltIn(stage: Stage, mapping: string, input: bool) {
    (input && mapping == "VERTEXID") || (mapping == "POSITION" && input == stage.Pixel?)
  }

  // ---------------------------------------------------------------------------------------------------------
  // What the generator makes

  /** The interface variables that stand for `v`. */
  function Attribs(stage: Stage, v: Var, input: bool, prefix: string): seq<Attrib> {
    match v
    case Leaf(n, t, m) => if BuiltIn(stage, m, input) then [] else [Attrib(prefix + n, t, m, input)]
    case Nested(n, members) => AttribsOf(stage, members, input, prefix + n + "_")
  }

  function AttribsOf(stage: Stage, vs: seq<Var>, input: bool, prefix: string): seq<Attrib> {
    if vs == [] then [] else Attribs(stage, vs[0], input, prefix) + AttribsOf(stage, vs[1..], input, prefix)
  }

  /** The assignments that fill `v` from the interface, or the interface from `v`. */
  function Assigns(stage: Stage, v: Var, dst: string, src: string, input: bool): seq<Assignment> {
    match v
    case Leaf(n, t, m) =>
      if input && m == "VERTEXID" then [Assignment(dst + n, "uint(gl_VertexID)")]
      else if input && stage.Pixel? && m == "POSITION" then [Assignment(dst + n, "gl_FragCoord")]
      else if !input && stage.Vertex? && m == "POSITION" then [Assignment("\tgl_Position", src + n)]
      else [Assignment(dst + n, src + n)]
    case Nested(n, members) =>
      AssignsOf(stage, members, dst + n + (if input then "." else "_"), src + n + (if input then "_" else "."), input)
  }

  function AssignsOf(stage: Stage, vs: seq<Var>, dst: string, src: string, input: bool): seq<Assignment> {
    if vs == [] then []
    else Assigns(stage, vs[0], dst, src, input) + AssignsOf(stage, vs[1..], dst, src, input)
  }

  // ---------------------------------------------------------------------------------------------------------
  // The leaves of a variable

  /** A leaf by the names on the way to it. */
  datatype LeafRef = LeafRef(path: seq<string>, typeName: string, mapping: string)

  function Leaves(v: Var, path: seq<string>): seq<LeafRef> {
    match v
    case Leaf(n, t, m) => [LeafRef(path + [n], t, m)]
    case Nested(n, members) => LeavesOf(members, path + [n])
  }

  function LeavesOf(vs: seq<Var>, path: seq<string>): seq<LeafRef> {
    if vs == [] then [] else Leaves(vs[0], path) + LeavesOf(vs[1..], path)
  }

  /** The names of a path with a separator behind each but the last. */
  function Join(path: seq<string>, sep: string): string {
    if path == [] then ""
    else if |path| == 1 then path[0]
    else Join(path[..|path| - 1], sep) + sep + path[|path| - 1]
  }

  /** The variable that stands for a leaf, if one does. */
  function VariableOf(stage: Stage, l: LeafRef, input: bool, prefix: string): seq<Attrib> {
    if BuiltIn(stage, l.mapping, input) then []
    else [Attrib(prefix + Join(l.path, "_"), l.typeName, l.mapping, input)]
  }

  function VariablesOf(stage: Stage, ls: seq<LeafRef>, input: bool, prefix: string): seq<Attrib> {
    if ls == [] then []
    else VariableOf(stage, ls[0], input, prefix) + VariablesOf(stage, ls[1..], input, prefix)
  }

  /** How the wrapper of a stage gets at a leaf of its parameter. */
  function Reading(stage: Stage, l: LeafRef, prefix: string): Assignment {
    Assignment("\t" + Join(l.path, "."),
               if l.mapping == "VERTEXID" then "uint(gl_VertexID)"
               else if stage.Pixel? && l.mapping == "POSITION" then "gl_FragCoord"
               else prefix + Join(l.path, "_"))
  }

  /** How it passes on a leaf of the result. */
  function Writing(stage: Stage, l: LeafRef): Assignment {
    Assignment(if stage.Vertex? && l.mapping == "POSITION" then "\tgl_Position" else "\t" + Join(l.path, "_"),
               Join(l.path, "."))
  }

  /** Where the generator stands while it works on what lies at `path`. */
  function Prefix(path: seq<string>, sep: string): string {
    if path == [] then "" else Join(path, sep) + sep
  }

  lemma JoinLast(path: seq<string>, n: string, sep: string)
    ensures Join(path + [n], sep) == Prefix(path, sep) + n
  {
    assert (path + [n])[..|path|] == path;
  }

  lemma PrefixLast(start: string, path: seq<string>, n: string, sep: string)
    ensures start + Prefix(path, sep) + n + sep == start + Prefix(path + [n], sep)
  {
    JoinLast(path, n, sep);
    assert start + Prefix(path, sep) + n + sep == start + (Prefix(path, sep) + n + sep);
  }

  lemma VariablesAppend(stage: Stage, a: seq<LeafRef>, b: seq<LeafRef>, input: bool, prefix: string)
    ensures VariablesOf(stage, a + b, input, prefix)
         == VariablesOf(stage, a, input, prefix) + VariablesOf(stage, b, input, prefix)
  {
    if a == [] {
      assert a + b == b;
    } else {
      assert (a + b)[1..] == a[1..] + b;
      VariablesAppend(stage, a[1..], b, input, prefix);
    }
  }

  /** One variable is declared for each leaf that has no variable of GLSL's own, named after the way to it. */
  lemma {:induction false} DeclaredPerLeaf(stage: Stage, v: Var, input: bool, start: string, path: seq<string>)
    ensures Attribs(stage, v, input, start + Prefix(path, "_"))
         == VariablesOf(stage, Leaves(v, path), input, start)
    decreases v
  {
    match v
    case Leaf(n, t, m) =>
      JoinLast(path, n, "_");
      assert start + Prefix(path, "_") + n == start + (Prefix(path, "_") + n);
      assert VariablesOf(stage, [LeafRef(path + [n], t, m)], input, start)
          == VariableOf(stage, LeafRef(path + [n], t, m), input, start);
    case Nested(n, members) =>
      PrefixLast(start, path, n, "_");
      DeclaredPerLeafOf(stage, members, input, start, path + [n]);
  }

  lemma {:induction false} DeclaredPerLeafOf(stage: Stage, vs: seq<Var>, input: bool, start: string,
                                             path: seq<string>)
    ensures AttribsOf(stage, vs, input, start + Prefix(path, "_"))
         == VariablesOf(stage, LeavesOf(vs, path), input, start)
    decreases vs
  {
    if vs != [] {
      DeclaredPerLeaf(stage, vs[0], input, start, path);
      DeclaredPerLeafOf(stage, vs[1..], input, start, path);
      VariablesAppend(stage, Leaves(vs[0], path), LeavesOf(vs[1..], path), input, start);
    }
  }

  function Readings(stage: Stage, ls: seq<LeafRef>, prefix: string): (r: seq<Assignment>)
    ensures |r| == |ls|
  {
    seq(|ls|, i requires 0 <= i < |ls| => Reading(stage, ls[i], prefix))
  }

  function Writings(stage: Stage, ls: seq<LeafRef>): (r: seq<Assignment>)
    ensures |r| == |ls|
  {
    seq(|ls|, i requires 0 <= i < |ls| => Writing(stage, ls[i]))
  }

  /** Every leaf of the parameter is assigned exactly once, from its variable or from GLSL's own. */
  lemma {:induction false} ReadPerLeaf(stage: Stage, v: Var, start: string, path: seq<string>)
    ensures Assigns(stage, v, "\t" + Prefix(path, "."), start + Prefix(path, "_"), true)
         == Readings(stage, Leaves(v, path), start)
    decreases v
  {
    match v
    case Leaf(n, t, m) =>
      JoinLast(path, n, "_");
      JoinLast(path, n, ".");
      assert start + Prefix(path, "_") + n == start + (Prefix(path, "_") + n);
      assert "\t" + Prefix(path, ".") + n == "\t" + (Prefix(path, ".") + n);
    case Nested(n, members) =>
      PrefixLast(start, path, n, "_");
      PrefixLast("\t", path, n, ".");
      ReadPerLeafOf(stage, members, start, path + [n]);
  }

  lemma {:induction false} ReadPerLeafOf(stage: Stage, vs: seq<Var>, start: string, path: seq<string>)
    ensures AssignsOf(stage, vs, "\t" + Prefix(path, "."), start + Prefix(path, "_"), true)
         == Readings(stage, LeavesOf(vs, path), start)
    decreases vs
  {
    if vs != [] {
      ReadPerLeaf(stage, vs[0], start, path);
      ReadPerLeafOf(stage, vs[1..], start, path);
    }
  }

  /** Every leaf of the result is passed on exactly once, to its variable or to `gl_Position`. */
  lemma {:induction false} WrittenPerLeaf(stage: Stage, v: Var, path: seq<string>)
    ensures Assigns(stage, v, "\t" + Prefix(path, "_"), Prefix(path, "."), false) == Writings(stage, Leaves(v, path))
    decreases v
  {
    match v
    case Leaf(n, t, m) =>
      JoinLast(path, n, "_");
      JoinLast(path, n, ".");
      assert "\t" + Prefix(path, "_") + n == "\t" + (Prefix(path, "_") + n);
    case Nested(n, members) =>
      PrefixLast("\t", path, n, "_");
      PrefixLast("", path, n, ".");
      assert "" + Prefix(path, ".") == Prefix(path, ".") && "" + Prefix(path + [n], ".") == Prefix(path + [n], ".");
      WrittenPerLeafOf(stage, members, path + [n]);
  }

  lemma {:induction false} WrittenPerLeafOf(stage: Stage, vs: seq<Var>, path: seq<string>)
    ensures AssignsOf(stage, vs, "\t" + Prefix(path, "_"), Prefix(path, "."), false)
         == Writings(stage, LeavesOf(vs, path))
    decreases vs
  {
    if vs != [] {
      WrittenPerLeaf(stage, vs[0], path);
      WrittenPerLeafOf(stage, vs[1..], path);
    }
  }
}
