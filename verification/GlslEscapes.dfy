/** Calls whose last operand begins with a parenthesis: what is written for them, and exactly when that is right. */
module GlslEscapes {
  import opened ShaderTokens
  import opened GlslWriter
  import opened GlslPieces
  import opened GlslOperands
  import opened GlslTails
  import opened GlslMeaning
  import opened GlslParsing
  import opened GlslValues

  // ---------------------------------------------------------------------------------------------------------
  // Expressions up to parentheses

  function Naked(e: Expr): Expr {
    match e
    case Atom(_) => e
    case Paren(x) => Naked(x)
    case Call(f, args) => Call(f, NakedAll(args))
    case Field(x, n) => Field(Naked(x), n)
    case Prefix(op, x) => Prefix(op, Naked(x))
    case Infix(op, l, r) => Infix(op, Naked(l), Naked(r))
    case MulCall(a, b) => MulCall(Naked(a), Naked(b))
    case MadCall(a, b, c) => MadCall(Naked(a), Naked(b), Naked(c))
    case SaturateCall(a) => SaturateCall(Naked(a))
    case Sampled(t, lead, args) => Sampled(t, lead, NakedAll(args))
  }

  function NakedAll(es: seq<Expr>): seq<Expr> {
    if es == [] then [] else [Naked(es[0])] + NakedAll(es[1..])
  }

  function Size(e: Expr): nat {
    match e
    case Paren(x) => 1 + Size(x)
    case Field(x, _) => 1 + Size(x)
    case Prefix(_, x) => 1 + Size(x)
    case Infix(_, l, r) => 1 + Size(l) + Size(r)
    case _ => 1
  }

  /** The two readings have the same expression, up to parentheses. */
  predicate SameReading(r: Result<Expr>, s: Result<Expr>) {
    (r.Ok? <==> s.Ok?) && (r.Ok? ==> Naked(r.value) == Naked(s.value))
  }

  /** What was read is this expression, up to parentheses. */
  predicate Reads(r: Result<Expr>, e: Expr) {
    r.Ok? && Naked(r.value) == Naked(e)
  }

  predicate ReadsAs(ps: seq<Piece>, e: Expr) {
    Reads(Parse(StripList(ps)), e)
  }

  // ---------------------------------------------------------------------------------------------------------
  // Operators behind a first operand

  predicate NoInfixFrom(ps: seq<Piece>, k: nat, level: nat)
    requires level < 3
  {
    forall j :: k <= j <= level ==> LastInfix(ps, j) == 0
  }

  /** No infix operator stands in this list outside its brackets, down to the level given. */
  predicate NoInfix(ps: seq<Piece>, level: nat)
    requires level < 3
  {
    NoInfixFrom(ps, 0, level)
  }

  function Joined(op: string, l: Result<Expr>, r: Result<Expr>): Result<Expr> {
    if l.Ok? && r.Ok? then Ok(Infix(op, l.value, r.value)) else Thrown
  }

  /** Other pieces in front of the operand shift its operators, and leave their own if it has none of the level. */
  lemma {:induction false} LastInfixShift(front: seq<Piece>, x: Piece, ps: seq<Piece>, level: nat)
    requires front != [] && Level(front[|front| - 1]) == 3 && Level(x) == 3 && level < 3
    ensures var i := LastInfix([x] + ps, level);
      LastInfix(front + ps, level) == if i > 0 then i + |front| - 1 else LastInfix(front, level)
    decreases |ps|
  {
    hide Level;
    if ps == [] {
      assert front + ps == front && [x] + ps == [x];
    } else {
      var init := ps[..|ps| - 1];
      LastInfixShift(front, x, init, level);
      ShiftStep(front, x, init, ps[|ps| - 1], level);
      assert front + ps == front + init + [ps[|ps| - 1]] && [x] + ps == [x] + init + [ps[|ps| - 1]];
    }
  }

  lemma ShiftStep(front: seq<Piece>, x: Piece, init: seq<Piece>, p: Piece, level: nat)
    requires front != [] && Level(front[|front| - 1]) == 3 && Level(x) == 3 && level < 3
    requires var i := LastInfix([x] + init, level);
      LastInfix(front + init, level) == if i > 0 then i + |front| - 1 else LastInfix(front, level)
    ensures var i := LastInfix([x] + init + [p], level);
      LastInfix(front + init + [p], level) == if i > 0 then i + |front| - 1 else LastInfix(front, level)
  {
    hide *;
    LastInfixOfMore(front + init, p, level);
    LastInfixOfMore([x] + init, p, level);
    LastBehind(front, x, init);
    LoneOperand(x, level);
  }

  lemma LastBehind(front: seq<Piece>, x: Piece, init: seq<Piece>)
    requires front != []
    ensures init == [] ==> front + init == front && [x] + init == [x]
    ensures init != [] ==> (front + init)[|front + init| - 1] == ([x] + init)[|[x] + init| - 1]
  {
  }

  lemma LastInfixOfMore(ps: seq<Piece>, p: Piece, level: nat)
    requires level < 3 && ps != []
    ensures LastInfix(ps + [p], level)
         == if Level(p) == level && Level(ps[|ps| - 1]) == 3 then |ps| else LastInfix(ps, level)
  {
    hide Level;
    assert (ps + [p])[..|ps|] == ps;
  }

  lemma JoinedParses(ps: seq<Piece>, level: nat)
    requires level < 3
    ensures var i := LastInfix(ps, level);
      && (i == 0 ==> ParseInfix(ps, level) == ParseInfix(ps, level + 1))
      && (i > 0 ==> ps[i].Leaf?)
      && (i > 0 ==> ParseInfix(ps, level)
                    == Joined(ps[i].tok.text, ParseInfix(ps[..i], level), ParseInfix(ps[i + 1..], level + 1)))
  {
    InfixParses(ps, level);
    hide ParseInfix, LastInfix, Level;
  }

  lemma CutBehind(front: seq<Piece>, ps: seq<Piece>, i: nat)
    requires front != [] && 0 < i <= |ps|
    ensures var j := i + |front| - 1;
      && (front + ps)[j] == ps[i - 1] && (front + ps)[j + 1..] == ps[i..] && (front + ps)[..j] == front + ps[..i - 1]
  {
  }

  lemma CutInFront(front: seq<Piece>, ps: seq<Piece>, j: nat)
    requires j < |front|
    ensures (front + ps)[j] == front[j] && (front + ps)[..j] == front[..j] && (front + ps)[j + 1..] == front[j
         + 1..] + ps
  {
  }

  /** Where the list is split if the operand has an infix operator of the level. */
  lemma SplitsBehind(front: seq<Piece>, x: Piece, ps: seq<Piece>, level: nat)
    requires front != [] && Level(front[|front| - 1]) == 3 && Level(x) == 3 && level < 3
    requires LastInfix([x] + ps, level) > 0
    ensures var i := LastInfix([x] + ps, level);
      && i <= |ps| && ps[i - 1].Leaf?
      && ParseInfix(front + ps, level)
         == Joined(ps[i - 1].tok.text, ParseInfix(front + ps[..i - 1], level), ParseInfix(ps[i..], level + 1))
  {
    hide *;
    var i := LastInfix([x] + ps, level);
    assert i < |[x] + ps|;
    LastInfixShift(front, x, ps, level);
    JoinedParses(front + ps, level);
    CutBehind(front, ps, i);
  }

  /** Where it is split if the operand has none. */
  lemma SplitsInFront(front: seq<Piece>, x: Piece, ps: seq<Piece>, level: nat)
    requires front != [] && Level(front[|front| - 1]) == 3 && Level(x) == 3 && level < 3
    requires LastInfix([x] + ps, level) == 0
    ensures var j := LastInfix(front, level);
      && (j == 0 ==> ParseInfix(front + ps, level) == ParseInfix(front + ps, level + 1))
      && (j > 0 ==> front[j].Leaf?)
      && (j > 0 ==> ParseInfix(front + ps, level)
                    == Joined(front[j].tok.text, ParseInfix(front[..j], level),
                              ParseInfix(front[j + 1..] + ps, level + 1)))
  {
    hide *;
    var j := LastInfix(front, level);
    LastInfixShift(front, x, ps, level);
    JoinedParses(front + ps, level);
    if j > 0 {
      CutInFront(front, ps, j);
    }
  }

  lemma LoneOperand(x: Piece, level: nat)
    requires level < 3
    ensures LastInfix([x], level) == 0
  {
  }

  /** A second parenthesis around the first operand is not noticed. */
  lemma {:induction false} DoubledReads(b: seq<Piece>, ps: seq<Piece>, level: nat)
    requires level <= 3
    ensures var x := Group(OPEN, b);
      SameReading(ParseInfix([Group(OPEN, [x])] + ps, level), ParseInfix([x] + ps, level))
    decreases |ps|, 3 - level
  {
    var x := Group(OPEN, b);
    var y := Group(OPEN, [x]);
    if level == 3 {
      DoubledPostfix(b, ps);
      GroupFirst(x, ps);
      GroupFirst(y, ps);
      hide *;
    } else {
      var i := LastInfix([x] + ps, level);
      LoneOperand(x, level);
      LoneOperand(y, level);
      if i == 0 {
        SplitsInFront([x], x, ps, level);
        SplitsInFront([y], x, ps, level);
        hide *;
        DoubledReads(b, ps, level + 1);
      } else {
        SplitsBehind([x], x, ps, level);
        SplitsBehind([y], x, ps, level);
        hide *;
        DoubledReads(b, ps[..i - 1], level);
        SameJoined(ps[i - 1].tok.text, ParseInfix([y] + ps[..i - 1], level), ParseInfix([x] + ps[..i - 1], level),
                   ParseInfix(ps[i..], level + 1));
      }
    }
  }

  lemma SameJoined(op: string, l: Result<Expr>, m: Result<Expr>, r: Result<Expr>)
    requires SameReading(l, m)
    ensures SameReading(Joined(op, l, r), Joined(op, m, r))
  {
  }

  lemma {:induction false} DoubledPostfix(b: seq<Piece>, ps: seq<Piece>)
    ensures var x := Group(OPEN, b);
      SameReading(ParsePostfix([Group(OPEN, [x])] + ps), ParsePostfix([x] + ps))
    decreases |ps|
  {
    var x := Group(OPEN, b);
    var y := Group(OPEN, [x]);
    PostfixParses([x] + ps);
    PostfixParses([y] + ps);
    FieldBehind(x, ps);
    FieldBehind(y, ps);
    if EndsInField([x] + ps) {
      DoubledPostfix(b, ps[..|ps| - 2]);
      hide ParsePostfix, EndsInField;
    } else if ps == [] {
      assert [x] + ps == [x] && [y] + ps == [y];
      SingleParses(x, 0);
      hide ParsePostfix, ParseInfix;
    } else {
      GroupAlone(x, ps);
      GroupAlone(y, ps);
      hide ParsePostfix, ParsePrimary;
    }
  }

  lemma FieldBehind(x: Piece, ps: seq<Piece>)
    requires x.Group?
    ensures EndsInField([x] + ps) <==> |ps| >= 2 && ps[|ps| - 2] == Leaf(Other(".")) && ps[|ps| - 1].Leaf?
                                       && ps[|ps| - 1].tok.Name?
    ensures EndsInField([x] + ps) ==> ([x] + ps)[..|ps| - 1] == [x] + ps[..|ps| - 2]
    ensures EndsInField([x] + ps) ==> ([x] + ps)[|ps|] == ps[|ps| - 1]
  {
  }

  lemma GroupFirst(x: Piece, ps: seq<Piece>)
    requires x.Group?
    ensures ParseInfix([x] + ps, 3) == ParsePostfix([x] + ps)
  {
    hide ParsePostfix;
  }

  lemma GroupAlone(x: Piece, ps: seq<Piece>)
    requires x.Group? && ps != []
    ensures ParsePrimary([x] + ps) == Thrown
  {
  }

  // ---------------------------------------------------------------------------------------------------------
  // Products and sums with a tail behind them

  /** A right operand is smaller than what it is part of. */
  lemma RightIsSmaller(op: string, l: Expr, r: Expr)
    ensures Naked(r) != Naked(Infix(op, l, r))
  {
    assert Size(Naked(Infix(op, l, r))) == 1 + Size(Naked(l)) + Size(Naked(r));
  }

  /** A product that awaits its right operand, or a sum: an operator of the level, and an operand in two parentheses. */
  predicate Awaits(front: seq<Piece>, b: seq<Piece>, level: nat)
    requires level < 3
  {
    && |front| >= 3 && front[|front| - 1] == Group(OPEN, [Group(OPEN, b)]) && front[|front| - 2].Leaf?
    && LastInfix(front, level) == |front| - 2 && (forall j :: 0 <= j < level ==> LastInfix(front, j) == 0)
    && ParseInfix(front[..|front| - 2], level).Ok?
  }

  function Whole(front: seq<Piece>, b: seq<Piece>, level: nat, right: Expr): Expr
    requires level < 3 && Awaits(front, b, level)
  {
    var n := |front| - 2;
    Infix(front[n].tok.text, ParseInfix(front[..n], level).value, right)
  }

  /** With a tail behind it, this is read as that operator between what is in front of it and the operand with its
      tail, if and only if no operator of the tail is as loose. */
  lemma {:induction false} TailReads(front: seq<Piece>, b: seq<Piece>, ps: seq<Piece>, level: nat, k: nat)
    requires k <= level < 3 && Awaits(front, b, level) && ParseInfix([Group(OPEN, b)] + ps, k).Ok?
    ensures Reads(ParseInfix(front + ps, k), Whole(front, b, level, ParseInfix([Group(OPEN, b)] + ps, k).value))
        <==> NoInfixFrom([Group(OPEN, b)] + ps, k, level)
    decreases level - k
  {
    hide *;
    var x := Group(OPEN, b);
    NoInfixStep([x] + ps, k, level);
    if LastInfix([x] + ps, k) > 0 {
      TailDiffers(front, b, ps, level, k);
    } else if k < level {
      TailSteps(front, b, ps, level, k);
      TailReads(front, b, ps, level, k + 1);
    } else {
      TailAgrees(front, b, ps, level);
    }
  }

  lemma NoInfixStep(ps: seq<Piece>, k: nat, level: nat)
    requires k <= level < 3
    ensures NoInfixFrom(ps, k, level) <==> LastInfix(ps, k) == 0 && (k < level ==> NoInfixFrom(ps, k + 1, level))
  {
    hide LastInfix;
  }

  lemma TailDiffers(front: seq<Piece>, b: seq<Piece>, ps: seq<Piece>, level: nat, k: nat)
    requires k <= level < 3 && Awaits(front, b, level) && ParseInfix([Group(OPEN, b)] + ps, k).Ok?
    requires LastInfix([Group(OPEN, b)] + ps, k) > 0
    ensures !Reads(ParseInfix(front + ps, k), Whole(front, b, level, ParseInfix([Group(OPEN, b)] + ps, k).value))
  {
    var x := Group(OPEN, b);
    var n := |front| - 2;
    var i := LastInfix([x] + ps, k);
    assert Level(x) == 3 == Level(front[n + 1]);
    hide ParseInfix, LastInfix, Level, Naked, Joined;
    SplitsBehind([x], x, ps, k);
    SplitsBehind(front, x, ps, k);
    SplitDiffers(ps[i - 1].tok.text, ParseInfix([x] + ps[..i - 1], k), ParseInfix(front + ps[..i - 1], k),
                 ParseInfix(ps[i..], k + 1), front[n].tok.text, ParseInfix(front[..n], level).value);
  }

  lemma TailSteps(front: seq<Piece>, b: seq<Piece>, ps: seq<Piece>, level: nat, k: nat)
    requires k < level < 3 && Awaits(front, b, level) && LastInfix([Group(OPEN, b)] + ps, k) == 0
    ensures ParseInfix([Group(OPEN, b)] + ps, k) == ParseInfix([Group(OPEN, b)] + ps, k + 1)
    ensures ParseInfix(front + ps, k) == ParseInfix(front + ps, k + 1)
  {
    var x := Group(OPEN, b);
    assert Level(x) == 3 == Level(front[|front| - 1]);
    hide ParseInfix, LastInfix, Level;
    LoneOperand(x, k);
    SplitsInFront([x], x, ps, k);
    SplitsInFront(front, x, ps, k);
  }

  lemma TailAgrees(front: seq<Piece>, b: seq<Piece>, ps: seq<Piece>, level: nat)
    requires level < 3 && Awaits(front, b, level) && ParseInfix([Group(OPEN, b)] + ps, level).Ok?
    requires LastInfix([Group(OPEN, b)] + ps, level) == 0
    ensures Reads(ParseInfix(front + ps, level), Whole(front, b, level, ParseInfix([Group(OPEN, b)] + ps, level).value))
  {
    var x := Group(OPEN, b);
    var y := Group(OPEN, [x]);
    var n := |front| - 2;
    assert Level(x) == 3 == Level(front[n + 1]);
    assert front[n + 1..] == [y];
    hide ParseInfix, LastInfix, Level, Naked, Joined;
    LoneOperand(x, level);
    SplitsInFront([x], x, ps, level);
    SplitsInFront(front, x, ps, level);
    DoubledReads(b, ps, level + 1);
    SplitAgrees(front[n].tok.text, ParseInfix(front[..n], level), ParseInfix([y] + ps, level + 1),
                ParseInfix([x] + ps, level + 1));
  }

  lemma SplitDiffers(op: string, l: Result<Expr>, m: Result<Expr>, r: Result<Expr>, before: string, left: Expr)
    requires Joined(op, l, r).Ok?
    ensures Joined(op, m, r).Ok? ==>
      Naked(Joined(op, m, r).value) != Naked(Infix(before, left, Joined(op, l, r).value))
  {
    RightIsSmaller(op, l.value, r.value);
  }

  lemma SplitAgrees(op: string, l: Result<Expr>, r: Result<Expr>, s: Result<Expr>)
    requires l.Ok? && s.Ok? && SameReading(r, s)
    ensures Joined(op, l, r).Ok? && Naked(Joined(op, l, r).value) == Naked(Infix(op, l.value, s.value))
  {
  }

  // ---------------------------------------------------------------------------------------------------------
  // `mul` and `mad` with a tail behind the last parenthesis

  function ProductFront(a: seq<Piece>, b: seq<Piece>): seq<Piece> {
    [Group(OPEN, a), Leaf(Other("*")), Group(OPEN, [Group(OPEN, b)])]
  }

  function SumFront(a: seq<Piece>, b: seq<Piece>, c: seq<Piece>): seq<Piece> {
    [Group(OPEN, a), Leaf(Other("*")), Group(OPEN, b), Leaf(Other("+")), Group(OPEN, [Group(OPEN, c)])]
  }

  lemma ProductAwaits(a: seq<Piece>, b: seq<Piece>)
    requires Parse(a).Ok?
    ensures Awaits(ProductFront(a, b), b, 2)
    ensures forall e :: Whole(ProductFront(a, b), b, 2, e) == Infix("*", Paren(Parse(a).value), e)
  {
    var q := ProductFront(a, b);
    forall k | 0 <= k <= 2
      ensures LastInfix(q, k) == if k == 2 then 1 else 0
    {
      LastInfixOfProduct(q[0], q[2], k);
    }
    ParensParse(a, 2);
    assert q[..1] == [q[0]];
    hide ParseInfix, Parse, LastInfix;
  }

  lemma SumAwaits(a: seq<Piece>, b: seq<Piece>, c: seq<Piece>)
    requires Parse(a).Ok? && Parse(b).Ok?
    ensures Awaits(SumFront(a, b, c), c, 1)
    ensures forall e :: Whole(SumFront(a, b, c), c, 1, e)
                     == Infix("+", Infix("*", Paren(Parse(a).value), Paren(Parse(b).value)), e)
  {
    var q := SumFront(a, b, c);
    forall k | 0 <= k <= 1
      ensures LastInfix(q, k) == if k == 1 then 3 else 0
    {
      LastInfixOfSum(q[0], q[2], q[4], k);
    }
    ProductParses(a, b, 1);
    assert q[..3] == [q[0], q[1], q[2]];
    hide ParseInfix, Parse, LastInfix;
  }

  /** Writing moves operators, but neither makes nor removes one. */
  lemma NoInfixInCore(env: Env, b: seq<Piece>, ps: seq<Piece>, level: nat)
    requires level < 3 && NoSincosIn([Group(OPEN, b)] + ps)
    ensures CoreList(env, [Group(OPEN, b)] + ps) == [Group(OPEN, CoreList(env, b))] + CoreList(env, ps)
    ensures NoInfixFrom([Group(OPEN, CoreList(env, b))] + CoreList(env, ps), 0, level)
        <==> NoInfix([Group(OPEN, b)] + ps, level)
  {
    var all := [Group(OPEN, b)] + ps;
    CoreAppend(env, [Group(OPEN, b)], ps);
    CoreOne(env, Group(OPEN, b));
    assert CoreList(env, all) == [Group(OPEN, CoreList(env, b))] + CoreList(env, ps);
    hide CoreList, Core, LastInfix;
    forall k | 0 <= k <= level
      ensures LastInfix(CoreList(env, all), k) == 0 <==> LastInfix(all, k) == 0
    {
      var i := LastInfix(all, k);
      LastInfixInCore(env, all, k);
      if i > 0 {
        NoSincosSplit(all, i);
        CoreGrows(env, all[..i]);
      }
    }
  }

  lemma GroupReads(ps: seq<Piece>, l: string, a: Expr, e: Expr)
    ensures Reads(Parse([Group(OPEN, ps)]), Paren(Infix(l, a, Paren(e)))) <==> Reads(Parse(ps), Infix(l, a, e))
  {
    SingleParses(Group(OPEN, ps), 0);
    assert Parse([Group(OPEN, ps)]) == ParsePrimary([Group(OPEN, ps)]);
    assert Naked(Paren(e)) == Naked(e);
    assert Naked(Infix(l, a, Paren(e))) == Infix(l, Naked(a), Naked(e)) == Naked(Infix(l, a, e));
    hide Parse, ParseInfix;
  }

  lemma EscapedStrips(a: seq<Piece>, b: seq<Piece>, tail: seq<Piece>)
    ensures StripList(Escaped(a, b, tail))
         == [Group(OPEN, ProductFront(StripList(a), StripList(b)) + StripList(tail))]
  {
    var y := Group(OPEN, [Group(OPEN, b)]);
    var q := [Group(OPEN, a)] + STAR + [y];
    StripConstants();
    StripOne(Group(OPEN, a));
    StripOne(Group(OPEN, b));
    StripOne(y);
    hide StripList;
    StripAppend([Group(OPEN, a)], STAR);
    StripAppend([Group(OPEN, a)] + STAR, [y]);
    StripAppend(q, tail);
    StripOne(Group(OPEN, q + tail));
    assert StripList(q) == ProductFront(StripList(a), StripList(b));
  }

  lemma EscapedMadStrips(a: seq<Piece>, b: seq<Piece>, c: seq<Piece>, tail: seq<Piece>)
    ensures StripList(EscapedMad(a, b, c, tail))
         == [Group(OPEN, SumFront(StripList(a), StripList(b), StripList(c)) + StripList(tail))]
  {
    var y := Group(OPEN, [Group(OPEN, c)]);
    var q := [Group(OPEN, a)] + STAR + [Group(OPEN, b)];
    var r := q + CROSS + [y];
    StripConstants();
    StripOne(Group(OPEN, a));
    StripOne(Group(OPEN, b));
    StripOne(Group(OPEN, c));
    StripOne(y);
    hide StripList;
    StripAppend([Group(OPEN, a)], STAR);
    StripAppend([Group(OPEN, a)] + STAR, [Group(OPEN, b)]);
    StripAppend(q, CROSS);
    StripAppend(q + CROSS, [y]);
    StripAppend(r, tail);
    StripOne(Group(OPEN, r + tail));
    assert StripList(q) == [Group(OPEN, StripList(a)), Leaf(Other("*")), Group(OPEN, StripList(b))];
    assert StripList(r) == SumFront(StripList(a), StripList(b), StripList(c));
  }

  /** The last operand without its blanks: a parenthesis and a tail. */
  lemma OperandStrips(b: seq<Piece>, tail: seq<Piece>)
    requires NoSincosIn([Group(OPEN, b)] + tail)
    ensures StripList([Group(OPEN, b)] + tail) == [Group(OPEN, StripList(b))] + StripList(tail)
    ensures NoSincosIn(StripList([Group(OPEN, b)] + tail)) && NoSincosIn(b) && NoSincosIn(tail)
  {
    StripAppend([Group(OPEN, b)], tail);
    StripOne(Group(OPEN, b));
    NoSincosInStripped([Group(OPEN, b)] + tail);
    assert ([Group(OPEN, b)] + tail)[1..] == tail;
    hide StripList;
  }

  /** `mul(a, (b) tail)`: what is written is read as the product it should be, up to parentheses, if and only if no
      infix operator stands in the last operand outside its brackets. Then the tail consists of members. */
  lemma MulIsRight(env: Env, st: State, p: Piece, b: seq<Piece>, tail: seq<Piece>)
    requires p.Mul? && p.b == [Group(OPEN, b)] + tail && NoSincos(p) && Parse(StripList([p])).Ok?
    ensures var s1 := LeftList(env, p.a, st);
      var s2 := LeftList(env, b, s1);
      ReadsAs(Escaped(ImageList(env, p.a, st), ImageList(env, b, s1), ImageList(env, tail, s2)),
              Translate(env, Parse(StripList([p])).value))
      <==> NoInfix(StripList(p.b), 2)
  {
    var s1 := LeftList(env, p.a, st);
    var s2 := LeftList(env, b, s1);
    MulOfStripped(p);
    OperandStrips(b, tail);
    EscapedStrips(ImageList(env, p.a, st), ImageList(env, b, s1), ImageList(env, tail, s2));
    StripImageList(env, p.a, st);
    StripImageList(env, b, s1);
    StripImageList(env, tail, s2);
    NoSincosInStripped(p.a);
    ProductReads(env, StripList(p.a), StripList(b), StripList(tail));
    hide Parse, StripList, ImageList, LeftList, CoreList, NoInfix, Translate, Reads;
  }

  lemma MulOfStripped(p: Piece)
    requires p.Mul? && Parse(StripList([p])).Ok?
    ensures Parse(StripList(p.a)).Ok? && Parse(StripList(p.b)).Ok?
    ensures Parse(StripList([p])).value == MulCall(Parse(StripList(p.a)).value, Parse(StripList(p.b)).value)
  {
    StripOne(p);
    SingleParses(Strip(p), 0);
    assert Parse(StripList([p])) == ParsePrimary([Strip(p)]);
    hide Parse, ParseInfix, StripList;
  }

  lemma ProductReads(env: Env, a: seq<Piece>, b: seq<Piece>, ps: seq<Piece>)
    requires var right := [Group(OPEN, b)] + ps;
      NoSincosIn(a) && NoSincosIn(right) && Parse(a).Ok? && Parse(right).Ok?
    ensures var right := [Group(OPEN, b)] + ps;
      Reads(Parse([Group(OPEN, ProductFront(CoreList(env, a), CoreList(env, b)) + CoreList(env, ps))]),
            Translate(env, MulCall(Parse(a).value, Parse(right).value)))
      <==> NoInfix(right, 2)
  {
    var right := [Group(OPEN, b)] + ps;
    var ca, cb, cp := CoreList(env, a), CoreList(env, b), CoreList(env, ps);
    var front := ProductFront(ca, cb);
    var x, e := Parse(a).value, Parse(right).value;
    assert Translate(env, MulCall(x, e)) == Paren(Infix("*", Paren(Translate(env, x)), Paren(Translate(env, e))));
    NoInfixInCore(env, b, ps, 2);
    ParseCore(env, a);
    ParseCore(env, right);
    assert Parse([Group(OPEN, cb)] + cp) == ParseInfix([Group(OPEN, cb)] + cp, 0);
    assert Parse(front + cp) == ParseInfix(front + cp, 0);
    hide *;
    ProductAwaits(ca, cb);
    TailReads(front, cb, cp, 2, 0);
    GroupReads(front + cp, "*", Paren(Translate(env, x)), Translate(env, e));
  }

  /** `mad(a, b, (c) tail)`: the same for sums. Here operators that bind like `*` may stand in the tail. */
  lemma MadIsRight(env: Env, st: State, p: Piece, c: seq<Piece>, tail: seq<Piece>)
    requires p.Mad? && p.c == [Group(OPEN, c)] + tail && NoSincos(p) && Parse(StripList([p])).Ok?
    ensures var s1 := LeftList(env, p.a, st);
      var s2 := LeftList(env, p.b, s1);
      var s3 := LeftList(env, c, s2);
      ReadsAs(EscapedMad(ImageList(env, p.a, st), ImageList(env, p.b, s1), ImageList(env, c, s2),
                         ImageList(env, tail, s3)),
              Translate(env, Parse(StripList([p])).value))
      <==> NoInfix(StripList(p.c), 1)
  {
    var s1 := LeftList(env, p.a, st);
    var s2 := LeftList(env, p.b, s1);
    var s3 := LeftList(env, c, s2);
    MadOfStripped(p);
    OperandStrips(c, tail);
    EscapedMadStrips(ImageList(env, p.a, st), ImageList(env, p.b, s1), ImageList(env, c, s2), ImageList(env, tail, s3));
    StripImageList(env, p.a, st);
    StripImageList(env, p.b, s1);
    StripImageList(env, c, s2);
    StripImageList(env, tail, s3);
    NoSincosInStripped(p.a);
    NoSincosInStripped(p.b);
    SumReads(env, StripList(p.a), StripList(p.b), StripList(c), StripList(tail));
    hide Parse, StripList, ImageList, LeftList, CoreList, NoInfix, Translate, Reads;
  }

  lemma MadOfStripped(p: Piece)
    requires p.Mad? && Parse(StripList([p])).Ok?
    ensures Parse(StripList(p.a)).Ok? && Parse(StripList(p.b)).Ok? && Parse(StripList(p.c)).Ok?
    ensures Parse(StripList([p])).value
         == MadCall(Parse(StripList(p.a)).value, Parse(StripList(p.b)).value, Parse(StripList(p.c)).value)
  {
    StripOne(p);
    SingleParses(Strip(p), 0);
    assert Parse(StripList([p])) == ParsePrimary([Strip(p)]);
    hide Parse, ParseInfix, StripList;
  }

  lemma SumReads(env: Env, a: seq<Piece>, b: seq<Piece>, c: seq<Piece>, ps: seq<Piece>)
    requires var right := [Group(OPEN, c)] + ps;
      NoSincosIn(a) && NoSincosIn(b) && NoSincosIn(right) && Parse(a).Ok? && Parse(b).Ok? && Parse(right).Ok?
    ensures var right := [Group(OPEN, c)] + ps;
      Reads(Parse([Group(OPEN, SumFront(CoreList(env, a), CoreList(env, b), CoreList(env, c)) + CoreList(env, ps))]),
            Translate(env, MadCall(Parse(a).value, Parse(b).value, Parse(right).value)))
      <==> NoInfix(right, 1)
  {
    var right := [Group(OPEN, c)] + ps;
    var ca, cb, cc, cp := CoreList(env, a), CoreList(env, b), CoreList(env, c), CoreList(env, ps);
    var front := SumFront(ca, cb, cc);
    var x, y, e := Parse(a).value, Parse(b).value, Parse(right).value;
    var product := Infix("*", Paren(Translate(env, x)), Paren(Translate(env, y)));
    assert Translate(env, MadCall(x, y, e)) == Paren(Infix("+", product, Paren(Translate(env, e))));
    NoInfixInCore(env, c, ps, 1);
    ParseCore(env, a);
    ParseCore(env, b);
    ParseCore(env, right);
    assert Parse([Group(OPEN, cc)] + cp) == ParseInfix([Group(OPEN, cc)] + cp, 0);
    assert Parse(front + cp) == ParseInfix(front + cp, 0);
    hide *;
    SumAwaits(ca, cb, cc);
    TailReads(front, cc, cp, 1, 0);
    GroupReads(front + cp, "+", product, Translate(env, e));
  }

  lemma {:induction false} NakedValue<V>(m: Machine<V>, e: Expr)
    ensures Eval(m, Naked(e)) == Eval(m, e)
    decreases e
  {
    match e
    case Atom(_) =>
    case Paren(x) => NakedValue(m, x);
    case Call(_, args) => NakedValues(m, args);
    case Field(x, _) => NakedValue(m, x);
    case Prefix(_, x) => NakedValue(m, x);
    case Infix(_, l, r) =>
      NakedValue(m, l);
      NakedValue(m, r);
    case MulCall(a, b) =>
      NakedValue(m, a);
      NakedValue(m, b);
    case MadCall(a, b, c) =>
      NakedValue(m, a);
      NakedValue(m, b);
      NakedValue(m, c);
    case SaturateCall(a) => NakedValue(m, a);
    case Sampled(_, _, args) => NakedValues(m, args);
  }

  lemma {:induction false} NakedValues<V>(m: Machine<V>, es: seq<Expr>)
    ensures EvalAll(m, NakedAll(es)) == EvalAll(m, es)
    decreases es
  {
    if es != [] {
      NakedValue(m, es[0]);
      NakedValues(m, es[1..]);
      assert NakedAll(es)[1..] == NakedAll(es[1..]);
    }
  }

  /** What is read as the translated expression has the value of the expression as it was. */
  lemma ReadsValue<V(!new)>(h: Machine<V>, g: Machine<V>, env: Env, bound: map<string, nat>, unlike: set<string>,
      ps: seq<Piece>, e: Expr)
    requires ReadsAs(ps, Translate(env, e)) && Agree(h, g, env, bound, unlike) && Portable(h, env, bound, unlike, e)
    ensures Eval(g, Parse(StripList(ps)).value) == Eval(h, e)
  {
    TranslationKeepsValue(h, g, env, bound, unlike, e);
    NakedValue(g, Parse(StripList(ps)).value);
    NakedValue(g, Translate(env, e));
    hide Agree, Portable, Parse, StripList, Eval, Naked, Translate;
  }

  // ---------------------------------------------------------------------------------------------------------
  // `sincos` with a tail behind the last parenthesis

  const EQUALS := Leaf(Other("="))

  function FirstEquals(ps: seq<Piece>): (i: nat)
    ensures i <= |ps| && (i < |ps| ==> ps[i] == EQUALS)
  {
    if ps == [] || ps[0] == EQUALS then 0 else 1 + FirstEquals(ps[1..])
  }

  /** The target and the value of an assignment, which may stand in parentheses. */
  function ReadAssignment(ps: seq<Piece>): Result<(Expr, Expr)> {
    if |ps| == 1 && ps[0].Group? && ps[0].open == OPEN then ReadAssignment(ps[0].body)
    else
      var i := FirstEquals(ps);
      if i == |ps| then Thrown
      else
        var target :- Parse(ps[..i]);
        var value :- Parse(ps[i + 1..]);
        Ok((target, value))
  }

  predicate Assigns(r: Result<(Expr, Expr)>, target: Expr, value: Expr) {
    r.Ok? && Naked(r.value.0) == Naked(target) && Naked(r.value.1) == Naked(value)
  }

  /** What parses holds no assignment. */
  lemma {:induction false} NoEquals(ps: seq<Piece>, level: nat)
    requires level <= 3 && ParseInfix(ps, level).Ok?
    ensures EQUALS !in ps
    decreases |ps|, 3 - level
  {
    hide *;
    if level == 3 {
      NoEqualsInPrefix(ps);
    } else {
      var i := LastInfix(ps, level);
      JoinedParses(ps, level);
      OperatorIsNoEquals(ps, level);
      if i == 0 {
        NoEquals(ps, level + 1);
      } else {
        OperandsOk(ps[i].tok.text, ParseInfix(ps[..i], level), ParseInfix(ps[i + 1..], level + 1));
        NoEquals(ps[..i], level);
        NoEquals(ps[i + 1..], level + 1);
        AroundOne(ps, i);
      }
    }
  }

  lemma OperatorIsNoEquals(ps: seq<Piece>, level: nat)
    requires level < 3
    ensures LastInfix(ps, level) > 0 ==> LastInfix(ps, level) < |ps| && ps[LastInfix(ps, level)] != EQUALS
  {
    assert Level(EQUALS) == 3;
    hide LastInfix, Level;
  }

  lemma AroundOne(ps: seq<Piece>, i: nat)
    requires i < |ps| && ps[i] != EQUALS && EQUALS !in ps[..i] && EQUALS !in ps[i + 1..]
    ensures EQUALS !in ps
  {
    assert ps == ps[..i] + [ps[i]] + ps[i + 1..];
  }

  lemma OperandsOk(op: string, l: Result<Expr>, r: Result<Expr>)
    requires Joined(op, l, r).Ok?
    ensures l.Ok? && r.Ok?
  {
  }

  lemma {:induction false} NoEqualsInPrefix(ps: seq<Piece>)
    requires ParseInfix(ps, 3).Ok?
    ensures EQUALS !in ps
    decreases |ps|
  {
    assert ParseInfix(ps, 3) == ParsePrefix(ps);
    if ps != [] && ps[0] == Leaf(Other("-")) {
      assert ParsePrefix(ps[1..]).Ok? && ParseInfix(ps[1..], 3) == ParsePrefix(ps[1..]);
      NoEqualsInPrefix(ps[1..]);
      assert ps == [ps[0]] + ps[1..];
    } else {
      NoEqualsInPostfix(ps);
    }
    hide ParsePostfix;
  }

  lemma {:induction false} NoEqualsInPostfix(ps: seq<Piece>)
    requires ParsePostfix(ps).Ok?
    ensures EQUALS !in ps
    decreases |ps|
  {
    PostfixParses(ps);
    if EndsInField(ps) {
      var n := |ps| - 2;
      NoEqualsInPostfix(ps[..n]);
      assert ps == ps[..n] + [ps[n], ps[n + 1]];
      hide ParsePostfix;
    } else {
      assert ps == if |ps| == 1 then [ps[0]] else [ps[0], ps[1]];
      hide ParsePostfix, Parse, ParseArgs;
    }
  }

  /** What stands in the first parenthesis of an expression is one. */
  lemma {:induction false} HeadParses(b: seq<Piece>, ps: seq<Piece>, level: nat)
    requires level <= 3 && ParseInfix([Group(OPEN, b)] + ps, level).Ok?
    ensures Parse(b).Ok?
    decreases |ps|, 3 - level
  {
    var x := Group(OPEN, b);
    if level < 3 {
      var i := LastInfix([x] + ps, level);
      LoneOperand(x, level);
      assert Level(x) == 3;
      if i == 0 {
        SplitsInFront([x], x, ps, level);
        HeadParses(b, ps, level + 1);
      } else {
        SplitsBehind([x], x, ps, level);
        HeadParses(b, ps[..i - 1], level);
      }
      hide ParseInfix, LastInfix, Level, Parse;
    } else {
      GroupFirst(x, ps);
      HeadOfPostfix(b, ps);
    }
  }

  lemma {:induction false} HeadOfPostfix(b: seq<Piece>, ps: seq<Piece>)
    requires ParsePostfix([Group(OPEN, b)] + ps).Ok?
    ensures Parse(b).Ok?
    decreases |ps|
  {
    var x := Group(OPEN, b);
    PostfixParses([x] + ps);
    FieldBehind(x, ps);
    if EndsInField([x] + ps) {
      HeadOfPostfix(b, ps[..|ps| - 2]);
    } else if ps == [] {
      assert [x] + ps == [x];
      assert ParsePrimary([x]).Ok?;
    } else {
      GroupAlone(x, ps);
    }
    hide ParsePostfix, EndsInField, Parse;
  }

  /** A call with something behind it is read as something else. */
  lemma {:induction false} CallAndMore(f: string, b: seq<Piece>, ps: seq<Piece>, level: nat)
    requires level <= 3 && ps != []
    ensures var r := ParseInfix([Leaf(Name(f)), Group(OPEN, b)] + ps, level);
      r.Ok? ==> r.value.Infix? || r.value.Field?
    decreases 3 - level
  {
    var q := [Leaf(Name(f)), Group(OPEN, b)] + ps;
    if level < 3 {
      JoinedParses(q, level);
      if LastInfix(q, level) == 0 {
        CallAndMore(f, b, ps, level + 1);
      }
      hide ParseInfix, LastInfix;
    } else {
      assert ParseInfix(q, 3) == ParsePostfix(q);
      PostfixParses(q);
      assert |q| > 2 && !EndsInField(q) ==> ParsePrimary(q) == Thrown;
      hide ParsePostfix, ParsePrimary;
    }
  }

  lemma CosineParses(v: Token)
    requires v.Name?
    ensures Parse([Leaf(Name("cos")), Group(OPEN, [Leaf(v)])]) == Ok(Call("cos", [Atom(v)]))
  {
    var q := [Leaf(Name("cos")), Group(OPEN, [Leaf(v)])];
    AtomParses(v);
    PairParses(q, 0);
    assert ParsePrimary(q) == Ok(Call("cos", [Atom(v)])) by {
      hide ParseArgs, Parse;
    }
    hide ParsePrimary, ParseInfix;
  }

  lemma PairParses(q: seq<Piece>, level: nat)
    requires |q| == 2 && Level(q[1]) == 3 && q[0] != Leaf(Other("-")) && level <= 3
    ensures ParseInfix(q, level) == ParsePrimary(q)
    decreases 3 - level
  {
    if level < 3 {
      assert q[..1] == [q[0]];
      LoneOperand(q[0], level);
      assert LastInfix(q, level) == 0;
      JoinedParses(q, level);
      PairParses(q, level + 1);
      hide ParseInfix, ParsePrimary;
    } else {
      assert ParseInfix(q, 3) == ParsePostfix(q) == ParsePrimary(q);
    }
  }

  lemma FirstEqualsIs(c: seq<Piece>, ps: seq<Piece>)
    requires EQUALS !in c
    ensures FirstEquals(c + ([EQUALS] + ps)) == |c|
  {
    if c != [] {
      assert (c + ([EQUALS] + ps))[1..] == c[1..] + ([EQUALS] + ps);
      FirstEqualsIs(c[1..], ps);
    } else {
      assert c + ([EQUALS] + ps) == [EQUALS] + ps;
    }
  }

  /** The cosine's statement, as it is written: it assigns the cosine to the target if and only if nothing stands
      behind the target's parenthesis. */
  lemma AssignmentReads(v: Token, c: seq<Piece>, ps: seq<Piece>)
    requires v.Name? && Parse([Group(OPEN, c)] + ps).Ok?
    ensures Assigns(ReadAssignment([Group(OPEN, c + ([EQUALS] + ([Leaf(Name("cos")), Group(OPEN, [Leaf(v)])] + ps)))]),
                    Parse([Group(OPEN, c)] + ps).value, Call("cos", [Atom(v)]))
        <==> ps == []
  {
    var cosine := [Leaf(Name("cos")), Group(OPEN, [Leaf(v)])];
    var body := c + ([EQUALS] + (cosine + ps));
    HeadParses(c, ps, 0);
    NoEquals(c, 0);
    FirstEqualsIs(c, cosine + ps);
    assert body[..|c|] == c && body[|c| + 1..] == cosine + ps;
    AssignmentIs(body);
    if ps == [] {
      assert cosine + ps == cosine && [Group(OPEN, c)] + ps == [Group(OPEN, c)];
      CosineParses(v);
      ParensParse(c, 0);
      hide ParseInfix, FirstEquals;
    } else {
      CallAndMore("cos", [Leaf(v)], ps, 0);
      NakedCall(Parse(cosine + ps), Call("cos", [Atom(v)]));
      hide ParseInfix, FirstEquals;
    }
  }

  lemma NakedCall(r: Result<Expr>, e: Expr)
    requires (r.Ok? ==> r.value.Infix? || r.value.Field?) && e.Call?
    ensures r.Ok? ==> Naked(r.value) != Naked(e)
  {
  }

  lemma AssignmentIs(ps: seq<Piece>)
    requires FirstEquals(ps) < |ps| - 2
    ensures var i := FirstEquals(ps);
      var l, r := Parse(ps[..i]), Parse(ps[i + 1..]);
      ReadAssignment([Group(OPEN, ps)]) == if l.Ok? && r.Ok? then Ok((l.value, r.value)) else Thrown
  {
    hide Parse, FirstEquals;
  }

  lemma EscapedCosineStrips(v: Token, c: seq<Piece>, tail: seq<Piece>)
    requires v.Name?
    ensures StripList(EscapedCosine(v, c, tail))
         == [Group(OPEN, StripList(c) + ([EQUALS] + ([Leaf(Name("cos")), Group(OPEN, [Leaf(v)])] + StripList(tail))))]
  {
    var f := Leaves(ASSIGN + [Name("cos")]);
    var g := [Group(OPEN, [Leaf(v)])];
    assert EscapedCosine(v, c, tail) == [Group(OPEN, c + f + g + tail)];
    AssignStrips();
    StripOne(Leaf(v));
    StripOne(Group(OPEN, [Leaf(v)]));
    assert StripList(g) == g;
    StripOne(Group(OPEN, c + f + g + tail));
    assert StripList([Group(OPEN, c + f + g + tail)]) == [Group(OPEN, StripList(c + f + g + tail))];
    hide *;
    StripAppend(c, f);
    StripAppend(c + f, g);
    StripAppend(c + f + g, tail);
    Regroup(StripList(c), [EQUALS], [Leaf(Name("cos"))], g, StripList(tail));
    assert [Leaf(Name("cos"))] + g == [Leaf(Name("cos")), Group(OPEN, [Leaf(v)])];
  }

  lemma AssignStrips()
    ensures StripList(Leaves(ASSIGN + [Name("cos")])) == [EQUALS] + [Leaf(Name("cos"))]
  {
    var ts := [SPACE, Other("="), SPACE, Name("cos")];
    assert ASSIGN + [Name("cos")] == ts;
    assert Leaves(ts) == [Leaf(SPACE), EQUALS, Leaf(SPACE)] + [Leaf(Name("cos"))];
    StripThree(EQUALS);
    StripOne(Leaf(Name("cos")));
    hide StripList, Leaves;
    StripAppend([Leaf(SPACE), EQUALS, Leaf(SPACE)], [Leaf(Name("cos"))]);
  }

  lemma Regroup(a: seq<Piece>, b: seq<Piece>, c: seq<Piece>, d: seq<Piece>, e: seq<Piece>)
    ensures a + (b + c) + d + e == a + (b + ((c + d) + e))
  {
  }

  /** `sincos(a, b, (c) tail)`: the cosine goes to where it should, if and only if the tail is blank. With a member
      behind the parenthesis, the member is taken from the cosine and the whole of `c` is overwritten. */
  lemma SincosIsRight(env: Env, st: State, v: Token, target: seq<Piece>, c: seq<Piece>, tail: seq<Piece>)
    requires v.Name? && target == [Group(OPEN, c)] + tail && NoSincosIn(target) && Parse(StripList(target)).Ok?
    ensures var s1 := LeftList(env, c, st);
      Assigns(ReadAssignment(StripList(EscapedCosine(v, ImageList(env, c, st), ImageList(env, tail, s1)))),
              Translate(env, Parse(StripList(target)).value), Call("cos", [Atom(v)]))
      <==> StripList(tail) == []
  {
    var s1 := LeftList(env, c, st);
    var b, t := StripList(c), StripList(tail);
    OperandStrips(c, tail);
    NoSincosSplit(StripList(target), 1);
    assert StripList(target)[1..] == t;
    CoreGrows(env, t);
    assert CoreList(env, []) == [];
    assert |CoreList(env, t)| >= |t| && (t == [] ==> CoreList(env, t) == []);
    NoInfixInCore(env, b, t, 0);
    hide *;
    EscapedCosineStrips(v, ImageList(env, c, st), ImageList(env, tail, s1));
    StripImageList(env, c, st);
    StripImageList(env, tail, s1);
    ParseCore(env, StripList(target));
    AssignmentReads(v, CoreList(env, b), CoreList(env, t));
  }
}
