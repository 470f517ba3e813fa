/** Parsing commutes with writing. */
module GlslParsing {
  import opened ShaderTokens
  import opened GlslWriter
  import opened GlslPieces
  import opened GlslMeaning

  // ---------------------------------------------------------------------------------------------------------
  // Operators and commas stay where they are

  lemma CoreAppend(env: Env, a: seq<Piece>, b: seq<Piece>)
    ensures CoreList(env, a + b) == CoreList(env, a) + CoreList(env, b)
  {
    hide Core;
    if a == [] {
      assert a + b == b;
    } else {
      assert (a + b)[1..] == a[1..] + b;
      CoreAppend(env, a[1..], b);
    }
  }

  lemma CoreOne(env: Env, p: Piece)
    ensures CoreList(env, [p]) == Core(env, p)
  {
    hide Core;
    assert [p][1..] == [];
  }

  lemma CoreLast(env: Env, ps: seq<Piece>)
    requires ps != []
    ensures CoreList(env, ps) == CoreList(env, ps[..|ps| - 1]) + Core(env, ps[|ps| - 1])
  {
    assert ps == ps[..|ps| - 1] + [ps[|ps| - 1]];
    CoreAppend(env, ps[..|ps| - 1], [ps[|ps| - 1]]);
    CoreOne(env, ps[|ps| - 1]);
    hide Core, CoreList;
  }

  /** A piece becomes one or two; only an operator becomes an operator, and only a comma a comma. */
  lemma CoreShape(env: Env, p: Piece)
    requires NoSincos(p)
    ensures var q := Core(env, p);
      && 1 <= |q| <= 2
      && Level(q[|q| - 1]) == Level(p)
      && (Level(p) < 3 || IsComma(p) || p == Leaf(Other(".")) ==> q == [p])
      && (|q| == 2 ==> q[0].Leaf? && q[0].tok.Name? && q[1].Group? && Level(q[0]) == Level(p) == 3)
      && (forall i :: 0 <= i < |q| ==> IsComma(q[i]) ==> IsComma(p))
      && (q[0] == Leaf(Other("-")) ==> p == Leaf(Other("-")))
      && (q[|q| - 1].Leaf? ==> p.Leaf?)
      && (p.Leaf? && p.tok.Name? ==> q == [Leaf(Name(Spelled(p.tok.text)))])
      && (p.Leaf? && !p.tok.Name? ==> q == [p])
  {
    hide CoreList, Spelled, CallOf;
  }

  lemma CoreGrows(env: Env, ps: seq<Piece>)
    requires NoSincosIn(ps)
    ensures |CoreList(env, ps)| >= |ps|
  {
    hide Core;
    if ps != [] {
      CoreShape(env, ps[0]);
      CoreGrows(env, ps[1..]);
    }
  }

  lemma NoSincosSplit(ps: seq<Piece>, i: nat)
    requires NoSincosIn(ps) && i <= |ps|
    ensures NoSincosIn(ps[..i]) && NoSincosIn(ps[i..]) && (i < |ps| ==> NoSincos(ps[i]))
  {
    if i > 0 {
      NoSincosSplit(ps[1..], i - 1);
      assert ps[1..][i - 1..] == ps[i..] && ps[..i][1..] == ps[1..][..i - 1];
    }
  }

  /** Without its last piece, which is no operator of this level, the list has the same last operator. */
  lemma LastInfixSkips(q: seq<Piece>, r: seq<Piece>, level: nat)
    requires level < 3 && q != [] && 1 <= |r| <= 2
    requires Level(r[|r| - 1]) == level ==> |r| == 1 && Level(q[|q| - 1]) < 3
    requires |r| == 2 ==> Level(r[0]) == 3
    ensures LastInfix(q + r, level) == LastInfix(q, level)
  {
    hide Level;
    var s := q + r;
    assert s[..|s| - 1] == q + r[..|r| - 1];
    if |r| == 2 {
      assert s[..|s| - 1][..|q|] == q;
    } else {
      assert s[..|q|] == q;
    }
  }

  lemma {:induction false} LastInfixInCore(env: Env, ps: seq<Piece>, level: nat)
    requires level < 3 && NoSincosIn(ps)
    ensures var i := LastInfix(ps, level);
      LastInfix(CoreList(env, ps), level) == if i == 0 then 0 else |CoreList(env, ps[..i])|
  {
    hide Core, Level;
    var n := |ps|;
    if n == 1 {
      CoreOne(env, ps[0]);
      CoreShape(env, ps[0]);
    } else if n >= 2 {
      NoSincosSplit(ps, n - 1);
      LastInfixInCore(env, ps[..n - 1], level);
      LastPiece(env, ps, level);
    }
  }

  lemma LastPiece(env: Env, ps: seq<Piece>, level: nat)
    requires level < 3 && NoSincosIn(ps) && |ps| >= 2
    requires var init := ps[..|ps| - 1];
      var i := LastInfix(init, level);
      LastInfix(CoreList(env, init), level) == if i == 0 then 0 else |CoreList(env, init[..i])|
    ensures var i := LastInfix(ps, level);
      LastInfix(CoreList(env, ps), level) == if i == 0 then 0 else |CoreList(env, ps[..i])|
  {
    var n := |ps|;
    var init, p := ps[..n - 1], ps[n - 1];
    var q, r := CoreList(env, init), Core(env, p);
    CoreLast(env, ps);
    NoSincosSplit(ps, n - 1);
    CoreShape(env, p);
    LevelOfLast(env, init);
    hide CoreList, Core, Level;
    if Level(p) == level && Level(ps[n - 2]) == 3 {
      assert (q + r)[|q|] == p && (q + r)[|q| - 1] == q[|q| - 1];
    } else {
      LastInfixSkips(q, r, level);
      var i := LastInfix(init, level);
      assert i > 0 ==> ps[..i] == init[..i];
    }
  }

  lemma LevelOfLast(env: Env, ps: seq<Piece>)
    requires NoSincosIn(ps) && ps != []
    ensures var q := CoreList(env, ps);
      q != [] && Level(q[|q| - 1]) == Level(ps[|ps| - 1])
  {
    hide Core, Level;
    NoSincosSplit(ps, |ps| - 1);
    CoreLast(env, ps);
    CoreShape(env, ps[|ps| - 1]);
    hide CoreList;
  }

  lemma {:induction false} FirstCommaInCore(env: Env, ps: seq<Piece>)
    requires NoSincosIn(ps)
    ensures FirstComma(CoreList(env, ps)) == |CoreList(env, ps[..FirstComma(ps)])|
  {
    hide Core;
    if ps == [] {
    } else if IsComma(ps[0]) {
      CoreShape(env, ps[0]);
      assert ps[..0] == [];
    } else {
      var i := FirstComma(ps[1..]);
      CoreShape(env, ps[0]);
      FirstCommaInCore(env, ps[1..]);
      assert ps[..1 + i][1..] == ps[1..][..i];
      FirstCommaSkips(Core(env, ps[0]), CoreList(env, ps[1..]));
    }
  }

  lemma FirstCommaSkips(q: seq<Piece>, r: seq<Piece>)
    requires forall i :: 0 <= i < |q| ==> !IsComma(q[i])
    ensures FirstComma(q + r) == |q| + FirstComma(r)
  {
    if q == [] {
      assert q + r == r;
    } else {
      assert (q + r)[1..] == q[1..] + r;
      FirstCommaSkips(q[1..], r);
    }
  }

  /** The image of a list, cut where the image of its piece `i` lies. */
  lemma CoreSplit(env: Env, ps: seq<Piece>, i: nat)
    requires i < |ps| && NoSincosIn(ps) && (Level(ps[i]) < 3 || IsComma(ps[i]))
    ensures var q := CoreList(env, ps);
      var j := |CoreList(env, ps[..i])|;
      j < |q| && q[..j] == CoreList(env, ps[..i]) && q[j] == ps[i] && q[j + 1..] == CoreList(env, ps[i + 1..])
  {
    NoSincosSplit(ps, i);
    assert ps == ps[..i] + ([ps[i]] + ps[i + 1..]);
    CoreAppend(env, ps[..i], [ps[i]] + ps[i + 1..]);
    CoreAppend(env, [ps[i]], ps[i + 1..]);
    CoreOne(env, ps[i]);
    CoreShape(env, ps[i]);
    hide CoreList, Core;
  }

  // ---------------------------------------------------------------------------------------------------------
  // The parser on the image

  lemma {:induction false} ParseCore(env: Env, ps: seq<Piece>)
    requires NoSincosIn(ps) && Parse(ps).Ok?
    ensures Parse(CoreList(env, ps)) == Ok(Translate(env, Parse(ps).value))
    decreases ps, 5
  {
    ParseInfixCore(env, ps, 0);
  }

  lemma {:induction false} ParseInfixCore(env: Env, ps: seq<Piece>, level: nat)
    requires level <= 3 && NoSincosIn(ps) && ParseInfix(ps, level).Ok?
    ensures ParseInfix(CoreList(env, ps), level) == Ok(Translate(env, ParseInfix(ps, level).value))
    decreases ps, 4, 3 - level
  {
    if level == 3 {
      ParsePrefixCore(env, ps);
      hide ParsePrefix, CoreList;
    } else {
      var i := LastInfix(ps, level);
      LastInfixInCore(env, ps, level);
      InfixParses(ps, level);
      InfixParses(CoreList(env, ps), level);
      hide *;
      if i == 0 {
        ParseInfixCore(env, ps, level + 1);
      } else {
        NoSincosSplit(ps, i);
        NoSincosSplit(ps, i + 1);
        CoreSplit(env, ps, i);
        CoreGrows(env, ps[..i]);
        ParseInfixCore(env, ps[..i], level);
        ParseInfixCore(env, ps[i + 1..], level + 1);
        InfixTranslated(env, ps[i].tok.text, ParseInfix(ps[..i], level), ParseInfix(ps[i + 1..], level + 1));
      }
    }
  }

  lemma InfixTranslated(env: Env, op: string, l: Result<Expr>, r: Result<Expr>)
    requires l.Ok? && r.Ok?
    ensures Translate(env, Infix(op, l.value, r.value))
         == Infix(op, Translate(env, l.value), Translate(env, r.value))
  {
  }

  lemma InfixParses(ps: seq<Piece>, level: nat)
    requires level < 3
    ensures var i := LastInfix(ps, level);
      && (i == 0 ==> ParseInfix(ps, level) == ParseInfix(ps, level + 1))
      && (i > 0 ==> ps[i].Leaf? && Level(ps[i]) < 3)
      && (i > 0 ==>
            var l, r := ParseInfix(ps[..i], level), ParseInfix(ps[i + 1..], level + 1);
            ParseInfix(ps, level)
            == if l.Ok? && r.Ok? then Ok(Infix(ps[i].tok.text, l.value, r.value)) else Thrown)
  {
    hide LastInfix, ParsePrefix;
  }

  lemma {:induction false} ParsePrefixCore(env: Env, ps: seq<Piece>)
    requires NoSincosIn(ps) && ParsePrefix(ps).Ok?
    ensures ParsePrefix(CoreList(env, ps)) == Ok(Translate(env, ParsePrefix(ps).value))
    decreases ps, 3
  {
    var q := CoreList(env, ps);
    if ps != [] && ps[0] == Leaf(Other("-")) {
      assert Core(env, ps[0]) == [ps[0]];
      assert q == [ps[0]] + CoreList(env, ps[1..]);
      assert q[1..] == CoreList(env, ps[1..]);
      ParsePrefixCore(env, ps[1..]);
    } else {
      if ps != [] {
        CoreShape(env, ps[0]);
        assert q[0] == Core(env, ps[0])[0];
      }
      hide CoreList, Core, ParsePostfix;
      ParsePostfixCore(env, ps);
    }
  }

  lemma EndsInFieldCore(env: Env, ps: seq<Piece>)
    requires NoSincosIn(ps)
    ensures var q := CoreList(env, ps);
      && (EndsInField(q) <==> EndsInField(ps))
      && (EndsInField(ps) ==> q[..|q| - 2] == CoreList(env, ps[..|ps| - 2]))
      && (EndsInField(ps) ==> q[|q| - 1].tok.text == Spelled(ps[|ps| - 1].tok.text))
  {
    var n := |ps|;
    var q := CoreList(env, ps);
    CoreGrows(env, ps);
    if n >= 2 {
      var init := ps[..n - 1];
      NoSincosSplit(ps, n - 1);
      NoSincosSplit(init, n - 2);
      CoreLast(env, ps);
      CoreLast(env, init);
      CoreShape(env, ps[n - 1]);
      CoreShape(env, ps[n - 2]);
      assert init[..n - 2] == ps[..n - 2];
      hide CoreList, Core, Spelled, Level;
      FieldEnd(ps, CoreList(env, ps[..n - 2]), Core(env, ps[n - 2]), Core(env, ps[n - 1]), q);
    } else if n == 1 {
      CoreOne(env, ps[0]);
      CoreShape(env, ps[0]);
    }
  }

  lemma FieldEnd(ps: seq<Piece>, a: seq<Piece>, b: seq<Piece>, c: seq<Piece>, q: seq<Piece>)
    requires |ps| >= 2 && q == a + b + c && |q| >= |ps| && 1 <= |b| <= 2 && 1 <= |c| <= 2
    requires |ps| == 2 ==> a == []
    requires ps[|ps| - 2] == Leaf(Other(".")) ==> b == [ps[|ps| - 2]]
    requires b[|b| - 1].Leaf? ==> ps[|ps| - 2].Leaf?
    requires |b| == 2 ==> b[1].Group?
    requires |c| == 2 ==> c[1].Group?
    requires ps[|ps| - 2].Leaf? && ps[|ps| - 2].tok.Name? ==> b == [Leaf(Name(Spelled(ps[|ps| - 2].tok.text)))]
    requires ps[|ps| - 2].Leaf? && !ps[|ps| - 2].tok.Name? ==> b == [ps[|ps| - 2]]
    requires ps[|ps| - 1].Leaf? && ps[|ps| - 1].tok.Name? ==> c == [Leaf(Name(Spelled(ps[|ps| - 1].tok.text)))]
    requires ps[|ps| - 1].Leaf? && !ps[|ps| - 1].tok.Name? ==> c == [ps[|ps| - 1]]
    requires c[|c| - 1].Leaf? ==> ps[|ps| - 1].Leaf?
    ensures EndsInField(q) <==> EndsInField(ps)
    ensures EndsInField(ps) ==> q[..|q| - 2] == a && q[|q| - 1].tok.text == Spelled(ps[|ps| - 1].tok.text)
  {
    hide Spelled;
  }

  lemma {:induction false} ParsePostfixCore(env: Env, ps: seq<Piece>)
    requires NoSincosIn(ps) && ParsePostfix(ps).Ok?
    ensures ParsePostfix(CoreList(env, ps)) == Ok(Translate(env, ParsePostfix(ps).value))
    decreases ps, 2
  {
    EndsInFieldCore(env, ps);
    PostfixParses(ps);
    PostfixParses(CoreList(env, ps));
    if EndsInField(ps) {
      NoSincosSplit(ps, |ps| - 2);
      hide CoreList, ParsePrimary, Spelled, ParsePostfix;
      ParsePostfixCore(env, ps[..|ps| - 2]);
    } else {
      hide *;
      ParsePrimaryCore(env, ps);
    }
  }

  lemma PostfixParses(ps: seq<Piece>)
    ensures !EndsInField(ps) ==> ParsePostfix(ps) == ParsePrimary(ps)
    ensures EndsInField(ps) ==> var p := ParsePostfix(ps[..|ps| - 2]);
      ParsePostfix(ps) == if p.Ok? then Ok(Field(p.value, ps[|ps| - 1].tok.text)) else Thrown
  {
    hide ParsePrimary;
  }

  lemma SingleParses(p: Piece, level: nat)
    requires level <= 3 && p != Leaf(Other("-"))
    ensures ParseInfix([p], level) == ParsePrimary([p])
    decreases 3 - level
  {
    if level < 3 {
      SingleParses(p, level + 1);
    } else {
      assert ParsePrefix([p]) == ParsePostfix([p]) == ParsePrimary([p]);
    }
  }

  lemma ParensParse(ps: seq<Piece>, level: nat)
    requires level <= 3 && Parse(ps).Ok?
    ensures ParseInfix([Group(OPEN, ps)], level) == Ok(Paren(Parse(ps).value))
  {
    SingleParses(Group(OPEN, ps), level);
    hide Parse, ParseInfix;
  }

  lemma LastInfixOfProduct(a: Piece, b: Piece, level: nat)
    requires level < 3 && Level(a) == Level(b) == 3
    ensures LastInfix([a, Leaf(Other("*")), b], level) == if level == 2 then 1 else 0
  {
    var q := [a, Leaf(Other("*")), b];
    assert q[..2] == [a, Leaf(Other("*"))] && q[..2][..1] == [a];
  }

  lemma LastInfixOfSum(a: Piece, b: Piece, c: Piece, level: nat)
    requires level < 2 && Level(a) == Level(b) == Level(c) == 3
    ensures LastInfix([a, Leaf(Other("*")), b, Leaf(Other("+")), c], level) == if level == 1 then 3 else 0
  {
    var q := [a, Leaf(Other("*")), b, Leaf(Other("+")), c];
    assert q[..4] == [a, Leaf(Other("*")), b, Leaf(Other("+"))];
    assert q[..4][..3] == [a, Leaf(Other("*")), b];
    LastInfixOfProduct(a, b, level);
  }

  /** The product that `mul` is written as parses as one, at every level that products are looked for. */
  lemma ProductParses(a: seq<Piece>, b: seq<Piece>, level: nat)
    requires level <= 2 && Parse(a).Ok? && Parse(b).Ok?
    ensures ParseInfix([Group(OPEN, a), Leaf(Other("*")), Group(OPEN, b)], level)
         == Ok(Infix("*", Paren(Parse(a).value), Paren(Parse(b).value)))
    decreases 2 - level
  {
    var q := [Group(OPEN, a), Leaf(Other("*")), Group(OPEN, b)];
    LastInfixOfProduct(q[0], q[2], level);
    if level < 2 {
      ProductParses(a, b, level + 1);
    } else {
      ParensParse(a, 2);
      ParensParse(b, 3);
      assert q[..1] == [q[0]] && q[2..] == [q[2]];
      hide Parse, LastInfix, ParsePrimary;
    }
  }

  /** A product, and something added to it. */
  lemma SumParses(a: seq<Piece>, b: seq<Piece>, c: Piece, level: nat)
    requires level <= 1 && Parse(a).Ok? && Parse(b).Ok? && Level(c) == 3 && ParsePrimary([c]).Ok?
    ensures ParseInfix([Group(OPEN, a), Leaf(Other("*")), Group(OPEN, b), Leaf(Other("+")), c], level)
         == Ok(Infix("+", Infix("*", Paren(Parse(a).value), Paren(Parse(b).value)), ParsePrimary([c]).value))
    decreases 1 - level
  {
    var q := [Group(OPEN, a), Leaf(Other("*")), Group(OPEN, b), Leaf(Other("+")), c];
    LastInfixOfSum(q[0], q[2], q[4], level);
    if level < 1 {
      SumParses(a, b, c, level + 1);
    } else {
      ProductParses(a, b, 1);
      SingleParses(c, 2);
      assert q[..3] == [q[0], q[1], q[2]] && q[4..] == [q[4]];
      hide Parse, LastInfix, ParsePrimary;
    }
  }

  lemma MulParses(a: seq<Piece>, b: seq<Piece>)
    requires Parse(a).Ok? && Parse(b).Ok?
    ensures ParsePrimary([Group(OPEN, [Group(OPEN, a), Leaf(Other("*")), Group(OPEN, b)])])
         == Ok(Paren(Infix("*", Paren(Parse(a).value), Paren(Parse(b).value))))
  {
    ProductParses(a, b, 0);
    var body := [Group(OPEN, a), Leaf(Other("*")), Group(OPEN, b)];
    assert Parse(body) == ParseInfix(body, 0);
    hide ParseInfix;
  }

  lemma MadParses(a: seq<Piece>, b: seq<Piece>, c: seq<Piece>)
    requires Parse(a).Ok? && Parse(b).Ok? && Parse(c).Ok?
    ensures ParsePrimary([Group(OPEN, [Group(OPEN, a), Leaf(Other("*")), Group(OPEN, b), Leaf(Other("+")),
                                       Group(OPEN, c)])])
         == Ok(Paren(Infix("+", Infix("*", Paren(Parse(a).value), Paren(Parse(b).value)), Paren(Parse(c).value))))
  {
    SingleParses(Group(OPEN, c), 0);
    ParensParse(c, 0);
    SumParses(a, b, Group(OPEN, c), 0);
    var body := [Group(OPEN, a), Leaf(Other("*")), Group(OPEN, b), Leaf(Other("+")), Group(OPEN, c)];
    assert Parse(body) == ParseInfix(body, 0);
    hide ParseInfix;
  }

  lemma FirstArgument(a: seq<Piece>, more: seq<Piece>)
    requires FirstComma(a) == |a| && Parse(a).Ok? && ParseArgs(more).Ok?
    ensures ParseArgs(a + ([Leaf(COMMA)] + more)) == Ok([Parse(a).value] + ParseArgs(more).value)
  {
    var q := a + ([Leaf(COMMA)] + more);
    NoComma(a);
    FirstCommaSkips(a, [Leaf(COMMA)] + more);
    assert FirstComma([Leaf(COMMA)] + more) == 0;
    assert q[..|a|] == a && q[|a| + 1..] == more;
    hide FirstComma, Parse;
  }

  lemma AtomParses(t: Token)
    requires t.Name? || t.Number?
    ensures Parse([Leaf(t)]) == Ok(Atom(t)) && ParseArgs([Leaf(t)]) == Ok([Atom(t)])
    ensures FirstComma([Leaf(t)]) == 1
  {
    SingleParses(Leaf(t), 0);
    assert FirstComma([Leaf(t)]) == 1;
    hide ParseInfix;
  }

  lemma {:induction false} ClampParses(a: seq<Piece>, zero: Token, one: Token)
    requires FirstComma(a) == |a| && Parse(a).Ok? && zero.Number? && one.Number?
    ensures ParseArgs(a + [Leaf(COMMA), Leaf(zero), Leaf(COMMA), Leaf(one)])
         == Ok([Parse(a).value, Atom(zero), Atom(one)])
  {
    AtomParses(zero);
    AtomParses(one);
    hide Parse, ParseArgs, FirstComma;
    FirstArgument([Leaf(zero)], [Leaf(one)]);
    var bounds := [Leaf(zero)] + ([Leaf(COMMA)] + [Leaf(one)]);
    FirstArgument(a, bounds);
    assert [Leaf(COMMA)] + bounds == [Leaf(COMMA), Leaf(zero), Leaf(COMMA), Leaf(one)];
    assert [Parse(a).value] + ([Atom(zero)] + [Atom(one)]) == [Parse(a).value, Atom(zero), Atom(one)];
  }

  lemma NoComma(ps: seq<Piece>)
    requires FirstComma(ps) == |ps|
    ensures forall i :: 0 <= i < |ps| ==> !IsComma(ps[i])
  {
    if ps != [] {
      NoComma(ps[1..]);
      assert forall i :: 1 <= i < |ps| ==> ps[i] == ps[1..][i - 1];
    }
  }

  lemma SamplingParses(n: string, coords: seq<Piece>)
    requires ParseArgs(coords).Ok?
    ensures ParseArgs([Leaf(Name(n)), Leaf(COMMA)] + coords) == Ok([Atom(Name(n))] + ParseArgs(coords).value)
  {
    hide *;
    AtomParses(Name(n));
    FirstArgument([Leaf(Name(n))], coords);
    assert [Leaf(Name(n))] + ([Leaf(COMMA)] + coords) == [Leaf(Name(n)), Leaf(COMMA)] + coords;
  }

  lemma {:induction false} ParsePrimaryCore(env: Env, ps: seq<Piece>)
    requires NoSincosIn(ps) && ParsePrimary(ps).Ok?
    ensures ParsePrimary(CoreList(env, ps)) == Ok(Translate(env, ParsePrimary(ps).value))
    decreases ps, 1
  {
    if |ps| == 1 {
      assert ps == [ps[0]];
      CoreOne(env, ps[0]);
      ParsePieceCore(env, ps[0]);
    } else {
      assert ps == [ps[0]] + [ps[1]];
      CoreAppend(env, [ps[0]], [ps[1]]);
      CoreOne(env, ps[0]);
      CoreOne(env, ps[1]);
      NoSincosSplit(ps, 1);
      CallCore(env, ps[0].tok.text, ps[1].body);
    }
  }

  lemma {:induction false} CallCore(env: Env, f: string, body: seq<Piece>)
    requires NoSincosIn(body) && ParsePrimary([Leaf(Name(f)), Group(OPEN, body)]).Ok?
    ensures ParsePrimary([Leaf(Name(Spelled(f))), Group(OPEN, CoreList(env, body))])
         == Ok(Translate(env, ParsePrimary([Leaf(Name(f)), Group(OPEN, body)]).value))
    decreases body, 7
  {
    CoreGrows(env, body);
    if body != [] {
      ParseArgsCore(env, body);
    }
    hide CoreList, Spelled, ParseArgs;
  }

  lemma {:induction false} ParsePieceCore(env: Env, p: Piece)
    requires NoSincos(p) && ParsePrimary([p]).Ok?
    ensures ParsePrimary(Core(env, p)) == Ok(Translate(env, ParsePrimary([p]).value))
    decreases p, 0
  {
    hide CoreList, Parse, ParseArgs, Spelled, CallOf, FirstComma;
    match p
    case Leaf(_) =>
    case Group(_, body) => ParseCore(env, body);
    case Mul(_, a, _, b) =>
      ParseCore(env, a);
      ParseCore(env, b);
      MulParses(CoreList(env, a), CoreList(env, b));
    case Mad(_, a, _, b, _, c) =>
      ParseCore(env, a);
      ParseCore(env, b);
      ParseCore(env, c);
      MadParses(CoreList(env, a), CoreList(env, b), CoreList(env, c));
    case Saturate(_, a) =>
      ParseCore(env, a);
      NoCommaCore(env, a);
      ClampParses(CoreList(env, a), Number("0.0"), Number("1.0"));
    case Sincos(_, _, _, _, _, _) =>
    case Texture(n, _, coords) =>
      ParseArgsCore(env, coords);
      SamplingParses(n, CoreList(env, coords));
  }

  lemma NoCommaCore(env: Env, ps: seq<Piece>)
    requires NoSincosIn(ps) && FirstComma(ps) == |ps|
    ensures FirstComma(CoreList(env, ps)) == |CoreList(env, ps)|
  {
    FirstCommaInCore(env, ps);
    assert ps[..|ps|] == ps;
  }

  lemma {:induction false} ParseArgsCore(env: Env, ps: seq<Piece>)
    requires NoSincosIn(ps) && ParseArgs(ps).Ok?
    ensures ParseArgs(CoreList(env, ps)) == Ok(TranslateAll(env, ParseArgs(ps).value))
    decreases ps, 6
  {
    var i := FirstComma(ps);
    var q := CoreList(env, ps);
    FirstCommaInCore(env, ps);
    if i == |ps| {
      assert ps[..i] == ps;
      ParseCore(env, ps);
      OneArg(env, Parse(ps).value);
      hide CoreList, Parse, Translate, TranslateAll, FirstComma;
    } else {
      CoreSplit(env, ps, i);
      NoSincosSplit(ps, i);
      NoSincosSplit(ps, i + 1);
      ParseCore(env, ps[..i]);
      ParseArgsCore(env, ps[i + 1..]);
      ArgsStep(env, Parse(ps[..i]).value, ParseArgs(ps[i + 1..]).value);
      hide CoreList, Parse, Translate, TranslateAll, FirstComma;
    }
  }

  lemma OneArg(env: Env, e: Expr)
    ensures TranslateAll(env, [e]) == [Translate(env, e)]
  {
    hide Translate;
    assert [e][1..] == [];
  }

  lemma ArgsStep(env: Env, e: Expr, more: seq<Expr>)
    ensures TranslateAll(env, [e] + more) == [Translate(env, e)] + TranslateAll(env, more)
  {
    hide Translate;
    assert ([e] + more)[1..] == more;
  }
}
