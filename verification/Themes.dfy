/** The themes of the Qt frontend: every theme may extend another one, and the application finds out which themes have
    to be loaded before which. */
module Themes {

  /** A theme as its file describes it, and what resolving adds: the first ancestor that is a base theme, and all
      ancestors from the root on. An empty string stands for no theme. */
  datatype Theme = Theme(id: string, extends_: string, isBase: bool, parent: string, dependencies: seq<string>)

  predicate Distinct(s: seq<string>) {
    forall i, j :: 0 <= i < j < |s| ==> s[i] != s[j]
  }

  /** `deps` is a path of ancestors of `t`: from the last one, which it extends, up to the first. */
  predicate Path(themes: map<string, Theme>, t: Theme, deps: seq<string>) {
    && Distinct(deps) && t.id !in deps
    && (forall i :: 0 <= i < |deps| ==> deps[i] in themes && deps[i] != "")
    && (deps != [] ==> deps[|deps| - 1] == t.extends_)
    && (forall i :: 0 < i < |deps| ==> themes[deps[i]].extends_ == deps[i - 1])
  }

  /** Where the path goes on. */
  function Above(themes: map<string, Theme>, t: Theme, deps: seq<string>): string
    requires Path(themes, t, deps)
  {
    if deps == [] then t.extends_ else themes[deps[0]].extends_
  }

  /** The path reaches a base theme that extends nothing; over base themes only if it starts at one. */
  predicate Ancestry(themes: map<string, Theme>, t: Theme, deps: seq<string>) {
    && Path(themes, t, deps) && Above(themes, t, deps) == ""
    && (deps == [] ==> t.isBase)
    && (deps != [] ==> themes[deps[0]].isBase)
    && (t.isBase ==> forall d :: d in deps ==> themes[d].isBase)
  }

  ghost predicate Survives(themes: map<string, Theme>, t: Theme) {
    exists deps :: Ancestry(themes, t, deps)
  }

  predicate IsSuffix(s: seq<string>, t: seq<string>) {
    |s| <= |t| && s == t[|t| - |s|..]
  }

  /** The first base theme above a variant. */
  function FirstBase(themes: map<string, Theme>, deps: seq<string>): string
    requires forall d :: d in deps ==> d in themes
  {
    if deps == [] then ""
    else if themes[deps[|deps| - 1]].isBase then deps[|deps| - 1]
    else FirstBase(themes, deps[..|deps| - 1])
  }

  lemma DistinctIsSmall(s: seq<string>, keys: set<string>)
    requires Distinct(s) && forall i :: 0 <= i < |s| ==> s[i] in keys
    ensures |s| <= |keys|
  {
    if s != [] {
      DistinctIsSmall(s[1..], keys - {s[0]});
    }
  }

  /** One more step of a path that has to be taken by every complete one. */
  lemma Onwards(themes: map<string, Theme>, t: Theme, deps: seq<string>, all: seq<string>)
    requires Path(themes, t, deps) && Ancestry(themes, t, all) && IsSuffix(deps, all)
    ensures Above(themes, t, deps) != "" ==> |deps| < |all| && all[|all| - |deps| - 1] == Above(themes, t, deps)
    ensures Above(themes, t, deps) == "" ==> deps == all
  {
    if |deps| < |all| {
      var i := |all| - |deps| - 1;
      assert deps != [] ==> deps[0] == all[i + 1];
      assert all[i] != "";
    } else {
      assert deps == all;
    }
  }

  lemma {:induction false} OnePath(themes: map<string, Theme>, t: Theme, deps: seq<string>, all: seq<string>)
    requires Path(themes, t, deps) && Ancestry(themes, t, all)
    ensures IsSuffix(deps, all)
  {
    if deps != [] {
      var rest := deps[1..];
      assert Path(themes, t, rest) by {
        assert forall i :: 0 <= i < |rest| ==> rest[i] == deps[i + 1];
      }
      OnePath(themes, t, rest, all);
      Onwards(themes, t, rest, all);
      assert rest != [] ==> rest[0] == deps[1];
      assert Above(themes, t, rest) == deps[0];
      assert deps == [deps[0]] + rest;
    }
  }

  /** If every dependency of a theme survives, it can be loaded. That is so if and only if no base theme among its
      ancestors has a variant above it. */
  lemma DependenciesSurvive(themes: map<string, Theme>, t: Theme, deps: seq<string>)
    requires Ancestry(themes, t, deps) && forall d :: d in themes ==> themes[d].id == d
    ensures (forall d :: d in deps ==> Survives(themes, themes[d]))
        <==> forall i, j :: 0 <= i < j < |deps| && themes[deps[j]].isBase ==> themes[deps[i]].isBase
  {
    forall j | 0 <= j < |deps|
      ensures Survives(themes, themes[deps[j]])
          <==> (themes[deps[j]].isBase ==> forall i :: 0 <= i < j ==> themes[deps[i]].isBase)
    {
      AncestorSurvives(themes, t, deps, j);
    }
    if forall i, j :: 0 <= i < j < |deps| && themes[deps[j]].isBase ==> themes[deps[i]].isBase {
      forall d | d in deps ensures Survives(themes, themes[d]) {
        var j :| 0 <= j < |deps| && deps[j] == d;
      }
    }
  }

  lemma AncestorSurvives(themes: map<string, Theme>, t: Theme, deps: seq<string>, j: nat)
    requires Ancestry(themes, t, deps) && j < |deps| && forall d :: d in themes ==> themes[d].id == d
    ensures Survives(themes, themes[deps[j]])
        <==> (themes[deps[j]].isBase ==> forall i :: 0 <= i < j ==> themes[deps[i]].isBase)
  {
    var a, above := themes[deps[j]], deps[..j];
    AncestorPath(themes, t, deps, j);
    if Survives(themes, a) {
      var all :| Ancestry(themes, a, all);
      OnePath(themes, a, above, all);
      Onwards(themes, a, above, all);
      assert forall i :: 0 <= i < j ==> deps[i] == above[i] && above[i] in all;
    }
    if a.isBase ==> forall i :: 0 <= i < j ==> themes[deps[i]].isBase {
      forall d | a.isBase && d in above ensures themes[d].isBase {
        var i :| 0 <= i < |above| && above[i] == d;
        assert deps[i] == d;
      }
      assert Ancestry(themes, a, above);
    }
  }

  lemma AncestorPath(themes: map<string, Theme>, t: Theme, deps: seq<string>, j: nat)
    requires Ancestry(themes, t, deps) && j < |deps| && forall d :: d in themes ==> themes[d].id == d
    ensures var a, above := themes[deps[j]], deps[..j];
      && Path(themes, a, above) && Above(themes, a, above) == ""
      && (above == [] ==> a.isBase) && (above != [] ==> themes[above[0]].isBase)
  {
    assert deps[..j] != [] ==> deps[..j][0] == deps[0];
  }

  /** Two base themes with a variant between them: `t` extends `b`, `b` extends `v`, and `v` extends `r`. */
  const CHAIN := map[
    "r" := Theme("r", "", true, "", []),
    "v" := Theme("v", "r", false, "", []),
    "b" := Theme("b", "v", true, "", []),
    "t" := Theme("t", "b", false, "", [])]

  /** The variant `t` survives, but `b`, which it depends on, does not. */
  lemma DependencyIsLost()
    ensures Survives(CHAIN, CHAIN["t"]) && Ancestry(CHAIN, CHAIN["t"], ["r", "v", "b"])
    ensures !Survives(CHAIN, CHAIN["b"])
  {
    var deps := ["r", "v", "b"];
    assert Ancestry(CHAIN, CHAIN["t"], deps);
    assert deps[0] == "r" && deps[1] == "v" && deps[2] == "b";
    AncestorSurvives(CHAIN, CHAIN["t"], deps, 2);
  }

  class OBSApp {
    var themes: map<string, Theme>

    ghost predicate Valid()
      reads this
    {
      forall d :: d in themes ==> themes[d].id == d
    }

    constructor (themes: map<string, Theme>)
      requires forall d :: d in themes ==> themes[d].id == d && themes[d].parent == "" && themes[d].dependencies == []
      ensures this.themes == themes && Valid()
    {
      this.themes := themes;
    }

    /** Follows what a theme extends until there is nothing more, or something is wrong with it. This ends even where
        themes extend each other in a circle. */
    method ResolveTheme(t: Theme) returns (r: Theme, valid: bool)
      requires t.id in themes && t.parent == "" && t.dependencies == []
      requires forall d :: d in themes ==> themes[d].id == d
      ensures valid <==> Survives(themes, t)
      ensures valid ==> Ancestry(themes, t, r.dependencies)
      ensures valid && !t.isBase ==> r.parent == FirstBase(themes, r.dependencies)
      ensures r.id == t.id && r.extends_ == t.extends_ && r.isBase == t.isBase
    {
      r := t;
      if t.extends_ == "" {
        assert Path(themes, t, []);
        if !t.isBase {
          forall deps ensures !Ancestry(themes, t, deps) {
            if Ancestry(themes, t, deps) {
              OnePath(themes, t, [], deps);
              Onwards(themes, t, [], deps);
            }
          }
          return r, false;
        }
        assert Ancestry(themes, t, []);
        return r, true;
      }
      var parentId := t.extends_;
      valid := true;
      while parentId != ""
        invariant valid && r == t.(parent := r.parent, dependencies := r.dependencies)
        invariant Path(themes, t, r.dependencies) && Above(themes, t, r.dependencies) == parentId
        invariant parentId == "" ==> r.dependencies != [] && themes[r.dependencies[0]].isBase
        invariant t.isBase ==> forall d :: d in r.dependencies ==> themes[d].isBase
        invariant r.parent == if t.isBase then "" else FirstBase(themes, r.dependencies)
        decreases |themes.Keys| - |r.dependencies|
      {
        var deps := r.dependencies;
        forall all | Ancestry(themes, t, all)
          ensures parentId in themes && parentId != t.id && parentId !in deps
               && (t.isBase ==> themes[parentId].isBase)
               && (themes[parentId].extends_ == "" ==> themes[parentId].isBase)
        {
          OnePath(themes, t, deps, all);
          Onwards(themes, t, deps, all);
          var i := |all| - |deps| - 1;
          assert all[i] == parentId && all[i] in all;
          assert forall k :: 0 <= k < |deps| ==> deps[k] == all[i + 1 + k];
          assert i > 0 ==> themes[all[i]].extends_ == all[i - 1] != "";
        }
        if parentId !in themes {
          return r, false;
        }
        var parent := themes[parentId];
        if t.isBase && !parent.isBase {
          return r, false;
        }
        if parent.id == t.id || parent.id in deps {
          return r, false;
        }
        if !t.isBase && parent.isBase && r.parent == "" {
          r := r.(parent := parent.id);
        }
        r := r.(dependencies := [parent.id] + deps);
        PathGrows(themes, t, deps, parent.id);
        FirstBaseGrows(themes, deps, parent.id);
        DistinctIsSmall(r.dependencies, themes.Keys);
        parentId := parent.extends_;
        if parentId == "" && !parent.isBase {
          return r, false;
        }
      }
      assert Ancestry(themes, t, r.dependencies);
    }

    /** Resolves all themes and drops those that cannot be resolved. */
    method BuildDependencyTree()
      requires Valid()
      requires forall d :: d in themes ==> themes[d].parent == "" && themes[d].dependencies == []
      modifies this
      ensures Valid()
      ensures forall d :: d in themes <==> d in old(themes) && Survives(old(themes), old(themes)[d])
      ensures forall d :: d in themes ==>
                && Ancestry(old(themes), old(themes)[d], themes[d].dependencies)
                && themes[d].extends_ == old(themes)[d].extends_ && themes[d].isBase == old(themes)[d].isBase
    {
      ghost var all := themes;
      var todo := themes.Keys;
      var resolved: map<string, Theme> := map[];
      var invalid: set<string> := {};
      while todo != {}
        invariant todo <= themes.Keys && themes == all
        invariant resolved.Keys == themes.Keys - todo && invalid <= resolved.Keys
        invariant forall d :: d in resolved ==>
          && resolved[d].id == d && resolved[d].extends_ == all[d].extends_ && resolved[d].isBase == all[d].isBase
          && (d in invalid <==> !Survives(all, all[d]))
          && (d !in invalid ==> Ancestry(all, all[d], resolved[d].dependencies))
        decreases todo
      {
        var id :| id in todo;
        var theme, valid := ResolveTheme(themes[id]);
        resolved := resolved[id := theme];
        if !valid {
          invalid := invalid + {id};
        }
        todo := todo - {id};
      }
      themes := resolved - invalid;
    }
  }

  lemma PathGrows(themes: map<string, Theme>, t: Theme, deps: seq<string>, p: string)
    requires Path(themes, t, deps) && p in themes && p != "" && p == Above(themes, t, deps)
    requires p != t.id && p !in deps
    ensures Path(themes, t, [p] + deps) && Above(themes, t, [p] + deps) == themes[p].extends_
  {
  }

  lemma FirstBaseGrows(themes: map<string, Theme>, deps: seq<string>, p: string)
    requires p in themes && p != "" && forall d :: d in deps ==> d in themes && d != ""
    ensures forall d :: d in [p] + deps ==> d in themes
    ensures FirstBase(themes, [p] + deps)
         == if FirstBase(themes, deps) == "" && themes[p].isBase then p else FirstBase(themes, deps)
  {
    var all := [p] + deps;
    if deps != [] {
      assert all[..|all| - 1] == [p] + deps[..|deps| - 1] && all[|all| - 1] == deps[|deps| - 1];
      FirstBaseGrows(themes, deps[..|deps| - 1], p);
    } else {
      assert all[..0] == [];
    }
  }
}
