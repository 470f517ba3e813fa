/** A call passes the callee's needs in the order of their first use; a signature lists them in declaration order.
    The two always hold the same names, and agree position by position exactly when first uses are in order. */
module MetalSignatures {
  import opened MetalTranspiler
  import opened MetalAnalysis

  /** `a` is declared before `b`. */
  ghost predicate Before(decl: seq<string>, a: string, b: string) {
    exists i, j :: 0 <= i < j < |decl| && decl[i] == a && decl[j] == b
  }

  ghost predicate InOrder(decl: seq<string>, xs: seq<string>) {
    forall i, j :: 0 <= i < j < |xs| ==> Before(decl, xs[i], xs[j])
  }

  /** Nothing is used for the first time after something declared later was used. */
  ghost predicate FirstUsesInOrder(decl: seq<string>, uses: seq<string>) {
    forall p, q :: 0 <= p < q < |uses| && Before(decl, uses[q], uses[p]) ==> uses[q] in uses[..p]
  }

  ghost predicate DeclaredIn(decl: seq<string>, xs: seq<string>) {
    forall x :: x in xs ==> x in decl
  }

  lemma BeforeTotal(decl: seq<string>, a: string, b: string)
    requires a in decl && b in decl && a != b
    ensures Before(decl, a, b) || Before(decl, b, a)
  {
    var i :| 0 <= i < |decl| && decl[i] == a;
    var j :| 0 <= j < |decl| && decl[j] == b;
  }

  lemma BeforeStrict(decl: seq<string>, a: string, b: string)
    requires Distinct(decl) && Before(decl, a, b)
    ensures a != b && !Before(decl, b, a)
  {
  }

  lemma BeforeAsymmetric(decl: seq<string>, a: string, b: string)
    requires Distinct(decl)
    ensures !(Before(decl, a, b) && Before(decl, b, a))
  {
  }

  // ---------------------------------------------------------------------------------------------------------
  // The signature side

  lemma {:induction false} KeepElements(xs: seq<string>, ys: seq<string>)
    ensures forall x :: x in Keep(xs, ys) <==> x in xs && x in ys
  {
    if xs != [] {
      KeepElements(xs[1..], ys);
      assert xs == [xs[0]] + xs[1..];
    }
  }

  lemma {:induction false} KeepInOrder(xs: seq<string>, ys: seq<string>, pre: seq<string>)
    ensures InOrder(pre + xs, Keep(xs, ys))
    decreases |xs|
  {
    if xs != [] {
      KeepInOrder(xs[1..], ys, pre + [xs[0]]);
      assert pre + xs == pre + [xs[0]] + xs[1..];
      var kept := Keep(xs, ys);
      if xs[0] in ys {
        forall j | 0 < j < |kept|
          ensures Before(pre + xs, kept[0], kept[j])
        {
          KeepElements(xs[1..], ys);
          assert kept[j] in Keep(xs[1..], ys);
          var k :| 0 <= k < |xs[1..]| && xs[1..][k] == kept[j];
          assert (pre + xs)[|pre|] == kept[0] && (pre + xs)[|pre| + 1 + k] == kept[j];
        }
        assert kept[1..] == Keep(xs[1..], ys);
        assert forall i, j :: 0 < i < j < |kept| ==> kept[i] == kept[1..][i - 1] && kept[j] == kept[1..][j - 1];
      }
    }
  }

  lemma InOrderDistinct(decl: seq<string>, xs: seq<string>)
    requires Distinct(decl) && InOrder(decl, xs)
    ensures Distinct(xs)
  {
    forall i, j | 0 <= i < j < |xs|
      ensures xs[i] != xs[j]
    {
      BeforeStrict(decl, xs[i], xs[j]);
    }
  }

  lemma NotEmpty(xs: seq<string>, ys: seq<string>)
    requires forall x :: x in xs ==> x in ys
    ensures xs != [] ==> ys != []
  {
    if xs != [] {
      assert xs[0] in ys;
    }
  }

  /** A set of declared names has one arrangement in declaration order. */
  lemma {:induction false} InOrderUnique(decl: seq<string>, xs: seq<string>, ys: seq<string>)
    requires Distinct(decl) && InOrder(decl, xs) && InOrder(decl, ys)
    requires forall x :: x in xs <==> x in ys
    ensures xs == ys
    decreases |xs|
  {
    InOrderDistinct(decl, xs);
    InOrderDistinct(decl, ys);
    NotEmpty(xs, ys);
    NotEmpty(ys, xs);
    if xs != [] {
      assert xs[0] in ys && ys[0] in xs;
      var i :| 0 <= i < |xs| && xs[i] == ys[0];
      var j :| 0 <= j < |ys| && ys[j] == xs[0];
      BeforeAsymmetric(decl, xs[0], ys[0]);
      assert xs[0] == ys[0];
      var xs', ys' := xs[1..], ys[1..];
      assert xs == [xs[0]] + xs' && ys == [xs[0]] + ys';
      assert xs[0] !in xs' && xs[0] !in ys';
      assert forall x :: x in xs' <==> x in xs && x != xs[0];
      assert forall x :: x in ys' <==> x in ys && x != xs[0];
      InOrderUnique(decl, xs', ys');
    }
  }

  // ---------------------------------------------------------------------------------------------------------
  // The call side

  lemma InOrderAppend(decl: seq<string>, us: seq<string>, x: string)
    ensures InOrder(decl, us + [x]) <==> InOrder(decl, us) && forall u :: u in us ==> Before(decl, u, x)
  {
    var xs := us + [x];
    if InOrder(decl, xs) {
      forall i, j | 0 <= i < j < |us|
        ensures Before(decl, us[i], us[j])
      {
        assert us[i] == xs[i] && us[j] == xs[j];
      }
      forall u | u in us
        ensures Before(decl, u, x)
      {
        var i :| 0 <= i < |us| && us[i] == u;
        assert xs[i] == u && xs[|us|] == x;
      }
    }
  }

  lemma FirstUsesInit(decl: seq<string>, uses: seq<string>, x: string)
    requires FirstUsesInOrder(decl, uses + [x])
    ensures FirstUsesInOrder(decl, uses) && (x in uses || forall u :: u in uses ==> !Before(decl, x, u))
  {
    var all := uses + [x];
    assert forall p :: 0 <= p <= |uses| ==> all[..p] == uses[..p];
    forall p, q | 0 <= p < q < |uses| && Before(decl, uses[q], uses[p])
      ensures uses[q] in uses[..p]
    {
      assert all[q] == uses[q] && all[p] == uses[p];
    }
    if x !in uses {
      forall u | u in uses
        ensures !Before(decl, x, u)
      {
        var p :| 0 <= p < |uses| && uses[p] == u;
        assert all[p] == u && all[|uses|] == x;
      }
    }
  }

  lemma FirstUsesExtended(decl: seq<string>, uses: seq<string>, x: string)
    requires Distinct(decl) && FirstUsesInOrder(decl, uses)
    requires x in uses || forall u :: u in uses ==> !Before(decl, x, u)
    ensures FirstUsesInOrder(decl, uses + [x])
  {
    var all := uses + [x];
    assert forall p :: 0 <= p <= |uses| ==> all[..p] == uses[..p];
    forall p, q | 0 <= p < q < |all| && Before(decl, all[q], all[p])
      ensures all[q] in all[..p]
    {
      if q < |uses| {
        assert uses[q] in uses[..p];
      } else {
        assert all[p] in uses && x in uses;
        var k :| 0 <= k < |uses| && uses[k] == x;
        BeforeStrict(decl, x, uses[p]);
        assert k < p ==> uses[..p][k] == x;
      }
    }
  }

  lemma {:induction false} UniqueInOrder(decl: seq<string>, uses: seq<string>)
    requires Distinct(decl) && DeclaredIn(decl, uses)
    ensures InOrder(decl, Unique(uses)) <==> FirstUsesInOrder(decl, uses)
  {
    if uses != [] {
      var init, x := uses[..|uses| - 1], uses[|uses| - 1];
      assert uses == init + [x];
      UniqueInOrder(decl, init);
      UniqueElements(init);
      if FirstUsesInOrder(decl, uses) { FirstUsesInit(decl, init, x); }
      if FirstUsesInOrder(decl, init) && (x in init || forall u :: u in init ==> !Before(decl, x, u)) {
        FirstUsesExtended(decl, init, x);
      }
      if x !in init {
        InOrderAppend(decl, Unique(init), x);
        forall u | u in init
          ensures Before(decl, u, x) <==> !Before(decl, x, u)
        {
          BeforeTotal(decl, u, x);
          if Before(decl, u, x) { BeforeStrict(decl, u, x); }
        }
      }
    }
  }

  // ---------------------------------------------------------------------------------------------------------
  // Calls against signatures

  /** The uses of a function in the order of the scan, its callees' needs inlined where they are named. */
  function Uses(sh: Shader, i: nat, kind: Kind): seq<string>
    requires i < |sh.funcs|
  {
    Occurrences(sh, Analyze(sh, i), kind, Body(sh.funcs[i]))
  }

  lemma NeedsAreUses(sh: Shader, i: nat, kind: Kind)
    requires WellFormed(sh) && i < |sh.funcs|
    ensures FinalData(sh, i).Needs(kind) == Unique(Uses(sh, i, kind))
    ensures DeclaredIn(Declared(sh, kind), Uses(sh, i, kind))
  {
    EntryOf(sh, |sh.funcs|, i);
    FuncDataNeeds(sh, Analyze(sh, i), sh.funcs[i], kind);
    UniqueElements(Uses(sh, i, kind));
    forall x | x in Uses(sh, i, kind)
      ensures x in Declared(sh, kind)
    {
      NeedsAreDeclared(sh, i, kind, x);
    }
  }

  lemma {:induction false} DistinctMultiset(xs: seq<string>)
    requires Distinct(xs)
    ensures forall x :: multiset(xs)[x] == if x in xs then 1 else 0
  {
    if xs != [] {
      var init, last := xs[..|xs| - 1], xs[|xs| - 1];
      DistinctMultiset(init);
      assert xs == init + [last];
    }
  }

  lemma SameNames(decl: seq<string>, uses: seq<string>)
    requires Distinct(decl) && DeclaredIn(decl, uses)
    ensures var args := Unique(uses);
            var params := Keep(decl, args);
            Distinct(args) && Distinct(params) && InOrder(decl, params) && (forall x :: x in args <==> x in params)
  {
    UniqueElements(uses);
    KeepElements(decl, Unique(uses));
    KeepInOrder(decl, Unique(uses), []);
    assert [] + decl == decl;
    InOrderDistinct(decl, Keep(decl, Unique(uses)));
  }

  /** The arguments appended at a call and the parameters appended to the signature are the same names, each once. */
  lemma CallPassesSignature(sh: Shader, i: nat, kind: Kind)
    requires WellFormed(sh) && i < |sh.funcs|
    ensures var args := FinalData(sh, i).Needs(kind);
            var params := ExtraParameters(sh, FinalData(sh, i), false, kind);
            Distinct(args) && Distinct(params) && multiset(args) == multiset(params)
  {
    NeedsAreUses(sh, i, kind);
    SameNames(Declared(sh, kind), Uses(sh, i, kind));
    DistinctMultiset(FinalData(sh, i).Needs(kind));
    DistinctMultiset(ExtraParameters(sh, FinalData(sh, i), false, kind));
  }

  /** They agree position by position exactly when the first uses follow the declarations. */
  lemma CallMatchesSignature(sh: Shader, i: nat, kind: Kind)
    requires WellFormed(sh) && i < |sh.funcs|
    ensures FinalData(sh, i).Needs(kind) == ExtraParameters(sh, FinalData(sh, i), false, kind)
       <==> FirstUsesInOrder(Declared(sh, kind), Uses(sh, i, kind))
  {
    var decl, uses := Declared(sh, kind), Uses(sh, i, kind);
    NeedsAreUses(sh, i, kind);
    UniqueInOrder(decl, uses);
    SameNames(decl, uses);
    if InOrder(decl, Unique(uses)) {
      InOrderUnique(decl, Unique(uses), Keep(decl, Unique(uses)));
    }
  }
}
