/** When the variables that stand for the members of a struct have different names. */
module GlslNames {
  import opened GlslInterface

  /** In every struct the members have different names, and none has an underscore. */
  predicate Tidy(vs: seq<Var>) {
    && (forall i, j :: 0 <= i < j < |vs| ==> vs[i].name != vs[j].name)
    && (forall i :: 0 <= i < |vs| ==> '_' !in vs[i].name && (vs[i].Nested? ==> Tidy(vs[i].members)))
  }

  /** A path that goes on behind `path`, by names without underscores. */
  predicate Behind(p: seq<string>, path: seq<string>) {
    |path| < |p| && p[..|path|] == path && forall i :: |path| <= i < |p| ==> '_' !in p[i]
  }

  lemma {:induction false} LeavesBehind(vs: seq<Var>, path: seq<string>, l: LeafRef)
    requires Tidy(vs) && l in LeavesOf(vs, path)
    ensures Behind(l.path, path) && exists i :: 0 <= i < |vs| && l.path[|path|] == vs[i].name
    decreases vs
  {
    var v := vs[0];
    if l in Leaves(v, path) {
      if v.Nested? {
        LeavesBehind(v.members, path + [v.name], l);
      }
      assert l.path[|path|] == v.name;
    } else {
      LeavesBehind(vs[1..], path, l);
      var i :| 0 <= i < |vs[1..]| && l.path[|path|] == vs[1..][i].name;
      assert vs[1..][i] == vs[i + 1];
    }
  }

  lemma {:induction false} PathsDiffer(vs: seq<Var>, path: seq<string>, j: nat, k: nat)
    requires Tidy(vs) && j < k < |LeavesOf(vs, path)|
    ensures LeavesOf(vs, path)[j].path != LeavesOf(vs, path)[k].path
    decreases vs
  {
    var first, rest := Leaves(vs[0], path), LeavesOf(vs[1..], path);
    var ls := LeavesOf(vs, path);
    assert ls == first + rest;
    if k < |first| {
      PathsDiffer(vs[0].members, path + [vs[0].name], j, k);
    } else if j >= |first| {
      PathsDiffer(vs[1..], path, j - |first|, k - |first|);
    } else {
      assert ls[j] in first && ls[k] == rest[k - |first|] && rest[k - |first|] in rest;
      LeavesBehind(vs[1..], path, ls[k]);
      FirstStep(vs[0], path, ls[j]);
    }
  }

  lemma FirstStep(v: Var, path: seq<string>, l: LeafRef)
    requires l in Leaves(v, path) && Tidy([v])
    ensures |l.path| > |path| && l.path[|path|] == v.name
  {
    assert [v][0] == v;
    if v.Nested? {
      LeavesBehind(v.members, path + [v.name], l);
    }
  }

  /** Underscores in front of names without any can be told apart from the names. */
  lemma LastName(a: string, x: string, b: string, y: string)
    requires '_' !in x && '_' !in y && a + "_" + x == b + "_" + y
    ensures a == b && x == y
  {
    var s := a + "_" + x;
    var t := b + "_" + y;
    assert forall k :: |a| < k < |s| ==> s[k] == x[k - |a| - 1];
    assert forall k :: |b| < k < |t| ==> t[k] == y[k - |b| - 1];
    assert s[|a|] == '_' == t[|b|];
    assert |a| == |b|;
    assert s[..|a|] == a && s[|a| + 1..] == x && t[..|b|] == b && t[|b| + 1..] == y;
  }

  lemma JoinGrows(p: seq<string>, path: seq<string>)
    requires Behind(p, path)
    ensures path != [] ==> |Join(p, "_")| > |Join(path, "_")|
    ensures |p| > 1 ==> '_' in Join(p, "_")
  {
    var init := p[..|p| - 1];
    if |init| > |path| {
      assert init[..|path|] == path;
      JoinGrows(init, path);
    } else {
      assert init == path;
    }
    if |p| > 1 {
      assert Join(p, "_")[|Join(init, "_")|] == '_';
    }
  }

  lemma {:induction false} JoinInjective(p: seq<string>, q: seq<string>, path: seq<string>)
    requires Behind(p, path) && Behind(q, path) && Join(p, "_") == Join(q, "_")
    ensures p == q
  {
    JoinGrows(p, path);
    JoinGrows(q, path);
    if |p| > 1 && |q| > 1 {
      var a, b := p[..|p| - 1], q[..|q| - 1];
      LastName(Join(a, "_"), p[|p| - 1], Join(b, "_"), q[|q| - 1]);
      if |a| > |path| && |b| > |path| {
        assert a[..|path|] == path && b[..|path|] == path;
        JoinInjective(a, b, path);
      } else if |a| > |path| {
        assert a[..|path|] == path && b == path;
        JoinGrows(a, path);
      } else if |b| > |path| {
        assert b[..|path|] == path && a == path;
        JoinGrows(b, path);
      }
      assert p == a + [p[|p| - 1]] && q == b + [q[|q| - 1]];
    }
  }

  lemma {:induction false} NamedByLeaf(stage: Stage, ls: seq<LeafRef>, input: bool, prefix: string, i: nat)
    requires i < |VariablesOf(stage, ls, input, prefix)|
    ensures exists k :: 0 <= k < |ls| && VariablesOf(stage, ls, input, prefix)[i].name == prefix + Join(ls[k].path, "_")
  {
    var first := VariableOf(stage, ls[0], input, prefix);
    if i >= |first| {
      NamedByLeaf(stage, ls[1..], input, prefix, i - |first|);
      var k :| 0 <= k < |ls[1..]|
        && VariablesOf(stage, ls[1..], input, prefix)[i - |first|].name == prefix + Join(ls[1..][k].path, "_");
      assert ls[1..][k] == ls[k + 1];
    } else {
      assert VariablesOf(stage, ls, input, prefix)[i].name == prefix + Join(ls[0].path, "_");
    }
    hide Join;
  }

  lemma {:induction false} VariablesDiffer(stage: Stage, ls: seq<LeafRef>, input: bool, prefix: string, i: nat, j: nat)
    requires forall a, b :: 0 <= a < b < |ls| ==> Join(ls[a].path, "_") != Join(ls[b].path, "_")
    requires i < j < |VariablesOf(stage, ls, input, prefix)|
    ensures VariablesOf(stage, ls, input, prefix)[i].name != VariablesOf(stage, ls, input, prefix)[j].name
  {
    hide Join;
    var vs := VariablesOf(stage, ls, input, prefix);
    var first, rest := VariableOf(stage, ls[0], input, prefix), VariablesOf(stage, ls[1..], input, prefix);
    assert vs == first + rest;
    if i >= |first| {
      assert forall a :: 0 <= a < |ls[1..]| ==> ls[1..][a] == ls[a + 1];
      VariablesDiffer(stage, ls[1..], input, prefix, i - |first|, j - |first|);
    } else {
      NamedByLeaf(stage, ls[1..], input, prefix, j - |first|);
      var k :| 0 <= k < |ls[1..]| && rest[j - |first|].name == prefix + Join(ls[1..][k].path, "_");
      assert ls[1..][k] == ls[k + 1];
      SamePrefix(prefix, Join(ls[0].path, "_"), Join(ls[k + 1].path, "_"));
    }
  }

  lemma SamePrefix(prefix: string, a: string, b: string)
    ensures prefix + a == prefix + b ==> a == b
  {
    assert (prefix + a)[|prefix|..] == a && (prefix + b)[|prefix|..] == b;
  }

  /** Without underscores in the names of its members, a struct is flattened into variables with different names,
      whatever the struct's own name and the prefix are. */
  lemma DeclaredNamesDiffer(stage: Stage, members: seq<Var>, input: bool, start: string, name: string, i: nat, j: nat)
    requires Tidy(members) && i < j < |Attribs(stage, Nested(name, members), input, start)|
    ensures Attribs(stage, Nested(name, members), input, start)[i].name
         != Attribs(stage, Nested(name, members), input, start)[j].name
  {
    var ls := LeavesOf(members, [name]);
    assert start + Prefix([], "_") == start && [] + [name] == [name];
    DeclaredPerLeaf(stage, Nested(name, members), input, start, []);
    forall a, b | 0 <= a < b < |ls|
      ensures Join(ls[a].path, "_") != Join(ls[b].path, "_")
    {
      PathsDiffer(members, [name], a, b);
      LeavesBehind(members, [name], ls[a]);
      LeavesBehind(members, [name], ls[b]);
      if Join(ls[a].path, "_") == Join(ls[b].path, "_") {
        JoinInjective(ls[a].path, ls[b].path, [name]);
      }
    }
    VariablesDiffer(stage, ls, input, start, i, j);
  }

  /** With them it need not be: the member `a_b`, and `b` inside the member `a`. */
  lemma NamesMayCollide(stage: Stage, t: string, start: string, name: string)
    ensures var members := [Leaf("a_b", t, "TEXCOORD0"), Nested("a", [Leaf("b", t, "TEXCOORD1")])];
      var declared := Attribs(stage, Nested(name, members), true, start);
      |declared| == 2 && declared[0].name == declared[1].name && declared[0].mapping != declared[1].mapping
  {
    var inner := [Leaf("b", t, "TEXCOORD1")];
    var members := [Leaf("a_b", t, "TEXCOORD0"), Nested("a", inner)];
    var prefix := start + name + "_";
    assert inner[1..] == [] && members[1..] == [Nested("a", inner)] && members[1..][1..] == [];
    assert AttribsOf(stage, inner, true, prefix + "a" + "_")
        == [Attrib(prefix + "a" + "_" + "b", t, "TEXCOORD1", true)];
    assert AttribsOf(stage, members[1..], true, prefix) == AttribsOf(stage, inner, true, prefix + "a" + "_");
    assert Attribs(stage, members[0], true, prefix) == [Attrib(prefix + "a_b", t, "TEXCOORD0", true)];
    assert prefix + "a" + "_" + "b" == prefix + "a_b";
  }
}
