/** Metal shading language text as the Metal compiler reads it: expressions with the usual precedences, and statements.
    Text is a sequence of lexemes. Punctuation is cut into single characters, and the reader puts the operators of two
    characters together again. */
module MetalText {
  import opened Options

  datatype Expr =
    | Literal(text: string)
    | Name(x: string)
    | Paren(e: Expr)
    | Negate(e: Expr)
    | Infix(op: string, left: Expr, right: Expr)
    | Conditional(test: Expr, yes: Expr, no: Expr)
    | Member(base: Expr, field: string)
    | Index(base: Expr, index: Expr)
    | Call(f: string, args: seq<Expr>)
    | Method(base: Expr, f: string, args: seq<Expr>)

  type Text = seq<string>

  // ---------------------------------------------------------------------------------------------------------
  // Lexemes

  predicate Word(s: string) {
    s != "" && ('a' <= s[0] <= 'z' || 'A' <= s[0] <= 'Z' || s[0] == '_')
  }

  predicate Number(s: string) {
    s != "" && '0' <= s[0] <= '9'
  }

  const PREFIX: nat := 8
  const POSTFIX: nat := 9

  /** The binding strength of an infix operator; zero for anything else. A conditional has strength one. */
  function OpLevel(s: string): (k: nat)
    ensures k < PREFIX && k != 1
    ensures Word(s) || Number(s) ==> k == 0
    ensures k > 0 ==> 1 <= |s| <= 2
  {
    match s
    case "||" => 2
    case "&&" => 3
    case "==" => 4
    case "!=" => 4
    case "<" => 5
    case ">" => 5
    case "<=" => 5
    case ">=" => 5
    case "+" => 6
    case "-" => 6
    case "*" => 7
    case "/" => 7
    case "%" => 7
    case _ => 0
  }

  /** The characters of an operator. */
  function OpText(op: string): (t: Text)
    ensures t != []
  {
    if |op| == 2 then [op[..1], op[1..]] else [op]
  }

  predicate Double(a: string, b: string) {
    (b == "=" && a in {"=", "!", "<", ">"}) || (a == b && a in {"&", "|"})
  }

  /** What may be an operator here, of two characters if there is one. */
  function NextOp(t: Text): (op: string)
    ensures op != "" ==> |OpText(op)| <= |t|
  {
    if |t| >= 2 && Double(t[0], t[1]) then t[0] + t[1] else if t != [] && |t[0]| == 1 then t[0] else ""
  }

  // ---------------------------------------------------------------------------------------------------------
  // Writing

  function Print(e: Expr): (t: Text)
    ensures t != []
  {
    match e
    case Literal(n) => [n]
    case Name(x) => [x]
    case Paren(x) => ["("] + (Print(x) + [")"])
    case Negate(x) => ["-"] + Print(x)
    case Infix(op, l, r) => Print(l) + (OpText(op) + Print(r))
    case Conditional(c, a, b) => Print(c) + (["?"] + (Print(a) + ([":"] + Print(b))))
    case Member(b, f) => Print(b) + [".", f]
    case Index(b, i) => Print(b) + (["["] + (Print(i) + ["]"]))
    case Call(f, args) => [f, "("] + (PrintArgs(args) + [")"])
    case Method(b, f, args) => Print(b) + ([".", f, "("] + (PrintArgs(args) + [")"]))
  }

  function PrintArgs(args: seq<Expr>): Text {
    if args == [] then []
    else if |args| == 1 then Print(args[0])
    else Print(args[0]) + ([","] + PrintArgs(args[1..]))
  }

  // ---------------------------------------------------------------------------------------------------------
  // Reading

  type Read<T> = Option<(T, Text)>

  function ParseInfix(t: Text, k: nat): (r: Read<Expr>)
    ensures r.Some? ==> |r.value.1| < |t|
    decreases |t|, 13 - (if k < PREFIX then k else PREFIX)
  {
    if k >= PREFIX then ParsePrefix(t)
    else
      var l :- ParseInfix(t, k + 1);
      if k == 1 then ConditionalTail(l.0, l.1) else InfixTail(l.0, l.1, k)
  }

  /** Operators of one level, from the left. */
  function InfixTail(l: Expr, t: Text, k: nat): (r: Read<Expr>)
    ensures r.Some? ==> |r.value.1| <= |t|
    decreases |t|, 13
  {
    var op := NextOp(t);
    if OpLevel(op) != k || k == 0 then Some((l, t))
    else
      var r :- ParseInfix(t[|OpText(op)|..], k + 1);
      InfixTail(Infix(op, l, r.0), r.1, k)
  }

  /** What a condition chooses from. */
  function ConditionalTail(c: Expr, t: Text): (r: Read<Expr>)
    ensures r.Some? ==> |r.value.1| <= |t|
    decreases |t|, 0
  {
    if t == [] || t[0] != "?" then Some((c, t))
    else
      var a :- ParseInfix(t[1..], 1);
      if a.1 == [] || a.1[0] != ":" then None
      else
        var b :- ParseInfix(a.1[1..], 1);
        Some((Conditional(c, a.0, b.0), b.1))
  }

  function ParsePrefix(t: Text): (r: Read<Expr>)
    ensures r.Some? ==> |r.value.1| < |t|
    decreases |t|, 4
  {
    if t != [] && t[0] == "-" then
      var e :- ParsePostfix(t[1..]);
      Some((Negate(e.0), e.1))
    else ParsePostfix(t)
  }

  function ParsePostfix(t: Text): (r: Read<Expr>)
    ensures r.Some? ==> |r.value.1| < |t|
    decreases |t|, 3
  {
    var e :- ParsePrimary(t);
    PostfixTail(e.0, e.1)
  }

  /** Member accesses, indices and method calls. */
  function PostfixTail(e: Expr, t: Text): (r: Read<Expr>)
    ensures r.Some? ==> |r.value.1| <= |t|
    decreases |t|, 3
  {
    if t != [] && t[0] == "[" then
      var i :- ParseInfix(t[1..], 1);
      if i.1 != [] && i.1[0] == "]" then PostfixTail(Index(e, i.0), i.1[1..]) else None
    else if |t| < 2 || t[0] != "." || !Word(t[1]) then Some((e, t))
    else if |t| > 2 && t[2] == "(" then
      var args :- ParseArgs(t[3..]);
      PostfixTail(Method(e, t[1], args.0), args.1)
    else PostfixTail(Member(e, t[1]), t[2..])
  }

  function ParsePrimary(t: Text): (r: Read<Expr>)
    ensures r.Some? ==> |r.value.1| < |t|
    decreases |t|, 2
  {
    if t == [] then None
    else if t[0] == "(" then
      var e :- ParseInfix(t[1..], 1);
      if e.1 != [] && e.1[0] == ")" then Some((Paren(e.0), e.1[1..])) else None
    else if Number(t[0]) then Some((Literal(t[0]), t[1..]))
    else if !Word(t[0]) then None
    else if |t| > 1 && t[1] == "(" then
      var args :- ParseArgs(t[2..]);
      Some((Call(t[0], args.0), args.1))
    else Some((Name(t[0]), t[1..]))
  }

  /** The arguments of a call, and its closing parenthesis. */
  function ParseArgs(t: Text): (r: Read<seq<Expr>>)
    ensures r.Some? ==> |r.value.1| < |t|
    decreases |t|, 15
  {
    if t == [] then None
    else if t[0] == ")" then Some(([], t[1..]))
    else MoreArgs(t)
  }

  function MoreArgs(t: Text): (r: Read<seq<Expr>>)
    ensures r.Some? ==> |r.value.1| < |t| && r.value.0 != []
    decreases |t|, 14
  {
    var e :- ParseInfix(t, 1);
    if e.1 == [] then None
    else if e.1[0] == ")" then Some(([e.0], e.1[1..]))
    else if e.1[0] == "," then
      var more :- MoreArgs(e.1[1..]);
      Some(([e.0] + more.0, more.1))
    else None
  }

  // ---------------------------------------------------------------------------------------------------------
  // What is written reads back

  /** The expression may stand where an operand of this strength is looked for, and no part of it needs parentheses
      that it does not have. */
  predicate Readable(e: Expr, k: nat) {
    match e
    case Literal(n) => Number(n)
    case Name(x) => Word(x)
    case Paren(x) => Readable(x, 1)
    case Negate(x) => k <= PREFIX && Readable(x, POSTFIX)
    case Infix(op, l, r) =>
      OpLevel(op) > 0 && k <= OpLevel(op) && Readable(l, OpLevel(op)) && Readable(r, OpLevel(op) + 1)
    case Conditional(c, a, b) => k <= 1 && Readable(c, 2) && Readable(a, 1) && Readable(b, 1)
    case Member(b, f) => Word(f) && Readable(b, POSTFIX)
    case Index(b, i) => Readable(b, POSTFIX) && Readable(i, 1)
    case Call(f, args) => Word(f) && AllReadable(args)
    case Method(b, f, args) => Word(f) && Readable(b, POSTFIX) && AllReadable(args)
  }

  predicate AllReadable(args: seq<Expr>) {
    forall a :: a in args ==> Readable(a, 1)
  }

  /** An expression of this strength ends here, or goes on with an operator of the same strength. */
  predicate Follows(t: Text, k: nat) {
    t == [] || (t[0] != "(" && t[0] != "." && t[0] != "[" && OpLevel(NextOp(t)) <= k && (k <= 1 ==> t[0] != "?"))
  }

  predicate Ends(t: Text) {
    Follows(t, 0)
  }

  /** No expression begins with what would make an operator longer. */
  lemma FirstIsNoOperator(e: Expr, k: nat)
    requires Readable(e, k)
    ensures Print(e)[0] !in {"=", "&", "|", "?", ":"}
  {
  }

  lemma OpAhead(op: string, t: Text)
    requires OpLevel(op) > 0 && t != [] && t[0] !in {"=", "&", "|"}
    ensures NextOp(OpText(op) + t) == op && (OpText(op) + t)[|OpText(op)|..] == t
    ensures OpText(op)[0] !in {"(", ".", "[", "?"}
  {
    TwoCharacters(op);
    hide OpLevel;
    var all := OpText(op) + t;
    if |op| == 2 {
      assert all[0] == op[..1] && all[1] == op[1..];
    } else {
      assert all[0] == op && all[1] == t[0];
    }
  }

  lemma TwoCharacters(op: string)
    requires OpLevel(op) > 0
    ensures |op| == 2 ==> Double(op[..1], op[1..]) && op[..1] + op[1..] == op
    ensures |op| == 2 ==> op[..1] in {"=", "!", "<", ">", "&", "|"}
    ensures |op| != 2 ==> op in {"<", ">", "+", "-", "*", "/", "%"} && |op| == 1
  {
    assert "||"[..1] == "||"[1..] == "|" && "&&"[..1] == "&&"[1..] == "&" && "=="[..1] == "=="[1..] == "=";
    assert "!="[..1] == "!" && "!="[1..] == "=" && "<="[..1] == "<" && "<="[1..] == "=";
    assert ">="[..1] == ">" && ">="[1..] == "=";
  }

  lemma {:induction false} InfixReads(e: Expr, k: nat, post: Text)
    requires Readable(e, k) && 0 < k < PREFIX && Follows(post, k)
    ensures ParseInfix(Print(e) + post, k) == InfixTail(e, post, k)
    decreases e, PREFIX - k, 1
  {
    hide Print, Readable, ParseInfix, InfixTail, NextOp, OpLevel;
    if e.Infix? && OpLevel(e.op) == k {
      InfixReadsHere(e, k, post);
    } else if e.Conditional? {
      ConditionalReads(e, k, post);
    } else if k + 1 < PREFIX {
      Looser(e, k);
      InfixReads(e, k + 1, post);
      TailEnds(e, post, k + 1);
      LevelStep(Print(e) + post, k, e, post);
    } else {
      Looser(e, k);
      PrefixReads(e, post);
      PrefixLevel(Print(e) + post);
      LevelStep(Print(e) + post, k, e, post);
    }
  }

  lemma Looser(e: Expr, k: nat)
    requires Readable(e, k) && !(e.Infix? && OpLevel(e.op) == k) && !e.Conditional?
    ensures k < PREFIX ==> Readable(e, k + 1)
  {
  }

  lemma TailEnds(e: Expr, post: Text, k: nat)
    requires OpLevel(NextOp(post)) < k
    ensures InfixTail(e, post, k) == Some((e, post))
  {
  }

  /** There are no operators of the strength of a conditional. */
  lemma NothingAtOne(e: Expr, t: Text)
    ensures InfixTail(e, t, 1) == Some((e, t))
  {
  }

  lemma LevelStep(t: Text, k: nat, e: Expr, post: Text)
    requires k < PREFIX && ParseInfix(t, k + 1) == Some((e, post)) && (k == 1 ==> post == [] || post[0] != "?")
    ensures ParseInfix(t, k) == InfixTail(e, post, k)
  {
    hide InfixTail;
    if k == 1 {
      NothingAtOne(e, post);
    }
  }

  lemma {:induction false} ConditionalReads(e: Expr, k: nat, post: Text)
    requires e.Conditional? && Readable(e, k) && 0 < k < PREFIX && Follows(post, k)
    ensures ParseInfix(Print(e) + post, k) == InfixTail(e, post, k)
    decreases e, 0, 0
  {
    var c, a, b := e.test, e.yes, e.no;
    assert k == 1 && Readable(c, 2) && Readable(a, 1) && Readable(b, 1);
    var last := Print(b) + post;
    var rest := Print(a) + ([":"] + last);
    assert Print(e) + post == Print(c) + (["?"] + rest);
    Punctuation(rest, last);
    hide Print, Readable, ParseInfix, InfixTail, ConditionalTail, NextOp, OpLevel, Follows;
    InfixReads(c, 2, ["?"] + rest);
    TailEnds(c, ["?"] + rest, 2);
    InfixReads(a, 1, [":"] + last);
    NothingAtOne(a, [":"] + last);
    InfixReads(b, 1, post);
    NothingAtOne(b, post);
    ConditionalStep(Print(e) + post, c, rest, a, last, b, post);
    NothingAtOne(e, post);
  }

  lemma Punctuation(rest: Text, last: Text)
    ensures Follows(["?"] + rest, 2) && OpLevel(NextOp(["?"] + rest)) < 2 && Follows([":"] + last, 1)
  {
  }

  lemma ConditionalStep(t: Text, c: Expr, rest: Text, a: Expr, last: Text, b: Expr, post: Text)
    requires ParseInfix(t, 2) == Some((c, ["?"] + rest))
    requires ParseInfix(rest, 1) == Some((a, [":"] + last)) && ParseInfix(last, 1) == Some((b, post))
    ensures ParseInfix(t, 1) == Some((Conditional(c, a, b), post))
  {
    hide InfixTail;
    assert (["?"] + rest)[1..] == rest && ([":"] + last)[1..] == last;
    assert ConditionalTail(c, ["?"] + rest) == Some((Conditional(c, a, b), post));
  }

  lemma PrefixLevel(t: Text)
    ensures ParseInfix(t, PREFIX) == ParsePrefix(t)
  {
    hide ParsePrefix;
  }

  lemma {:induction false} InfixReadsHere(e: Expr, k: nat, post: Text)
    requires e.Infix? && OpLevel(e.op) == k && Readable(e, k) && 0 < k < PREFIX && Follows(post, k)
    ensures ParseInfix(Print(e) + post, k) == InfixTail(e, post, k)
    decreases e, 0, 0
  {
    var op, l, r := e.op, e.left, e.right;
    assert Readable(l, k) && Readable(r, k + 1);
    var more := Print(r) + post;
    assert Print(e) + post == Print(l) + (OpText(op) + more);
    FirstIsNoOperator(r, k + 1);
    OpAhead(op, more);
    assert Follows(OpText(op) + more, k);
    assert Follows(post, k + 1);
    hide Print, Readable, ParseInfix, InfixTail, OpLevel, NextOp, OpText, Follows;
    InfixReads(l, k, OpText(op) + more);
    if k + 1 < PREFIX {
      InfixReads(r, k + 1, post);
      FollowsLess(post, k);
      TailEnds(r, post, k + 1);
    } else {
      PrefixReads(r, post);
      PrefixLevel(more);
    }
    TailStep(l, op, more, k, r, post);
  }

  lemma FollowsLess(post: Text, k: nat)
    requires Follows(post, k)
    ensures OpLevel(NextOp(post)) < k + 1
  {
  }

  lemma TailStep(l: Expr, op: string, t: Text, k: nat, r: Expr, post: Text)
    requires OpLevel(op) == k > 0 && ParseInfix(t, k + 1) == Some((r, post))
    requires NextOp(OpText(op) + t) == op && (OpText(op) + t)[|OpText(op)|..] == t
    ensures InfixTail(l, OpText(op) + t, k) == InfixTail(Infix(op, l, r), post, k)
  {
    hide ParseInfix, NextOp, OpText;
  }

  lemma {:induction false} PrefixReads(e: Expr, post: Text)
    requires Readable(e, PREFIX) && Follows(post, PREFIX)
    ensures ParsePrefix(Print(e) + post) == Some((e, post))
    decreases e, 0, 3
  {
    hide ParsePostfix, PostfixTail;
    if e.Negate? {
      PostfixReads(e.e, post);
      PostfixEnds(e.e, post);
      assert (Print(e) + post)[1..] == Print(e.e) + post;
    } else {
      NoMinus(e);
      PostfixReads(e, post);
      PostfixEnds(e, post);
    }
  }

  lemma PostfixEnds(e: Expr, post: Text)
    requires post == [] || (post[0] != "." && post[0] != "[")
    ensures PostfixTail(e, post) == Some((e, post))
  {
  }

  lemma NoMinus(e: Expr)
    requires Readable(e, POSTFIX)
    ensures Print(e)[0] != "-" && Print(e)[0] != ")"
  {
  }

  /** Nothing begins like the end of a list of arguments. */
  lemma NoClose(e: Expr, k: nat)
    requires Readable(e, k)
    ensures Print(e)[0] != ")"
  {
  }

  lemma {:induction false} PostfixReads(e: Expr, post: Text)
    requires Readable(e, POSTFIX) && (post == [] || post[0] != "(")
    ensures ParsePostfix(Print(e) + post) == PostfixTail(e, post)
    decreases e, 0, 2
  {
    hide ParseInfix, ParseArgs, PostfixTail, ParsePrimary, ParsePostfix, Print, PrintArgs;
    match e {
      case Literal(_) =>
        AtomReads(e, post);
        PrimaryFirst(Print(e) + post, e, post);
      case Name(_) =>
        AtomReads(e, post);
        PrimaryFirst(Print(e) + post, e, post);
      case Paren(_) => ParenthesesRead(e, post);
      case Call(_, _) => CallIsRead(e, post);
      case Member(_, _) => MemberReads(e, post);
      case Index(_, _) => IndexReads(e, post);
      case Method(_, _, _) => MethodReads(e, post);
    }
  }

  lemma PrimaryFirst(t: Text, e: Expr, post: Text)
    requires ParsePrimary(t) == Some((e, post))
    ensures ParsePostfix(t) == PostfixTail(e, post)
  {
    hide ParsePrimary, PostfixTail;
  }

  lemma {:induction false} ParenthesesRead(e: Expr, post: Text)
    requires e.Paren? && Readable(e, POSTFIX)
    ensures ParsePostfix(Print(e) + post) == PostfixTail(e, post)
    decreases e, 0, 1
  {
    hide ParseInfix, ParseArgs, PostfixTail, ParsePrimary, ParsePostfix, InfixTail;
    var more := [")"] + post;
    assert Print(e) + post == ["("] + (Print(e.e) + more);
    InfixReads(e.e, 1, more);
    NothingAtOne(e.e, more);
    ParenReads(e.e, Print(e.e) + more, post);
    PrimaryFirst(Print(e) + post, e, post);
  }

  lemma {:induction false} CallIsRead(e: Expr, post: Text)
    requires e.Call? && Readable(e, POSTFIX)
    ensures ParsePostfix(Print(e) + post) == PostfixTail(e, post)
    decreases e, 0, 1
  {
    hide ParseInfix, ParseArgs, PostfixTail, ParsePrimary, ParsePostfix;
    var more := PrintArgs(e.args) + ([")"] + post);
    assert Print(e) + post == [e.f, "("] + more;
    ArgsRead(e.args, post);
    CallReads(e.f, more, e.args, post);
    PrimaryFirst(Print(e) + post, e, post);
  }

  lemma {:induction false} MemberReads(e: Expr, post: Text)
    requires e.Member? && Readable(e, POSTFIX) && (post == [] || post[0] != "(")
    ensures ParsePostfix(Print(e) + post) == PostfixTail(e, post)
    decreases e, 0, 1
  {
    hide ParsePostfix, PostfixTail;
    assert Print(e) + post == Print(e.base) + ([".", e.field] + post);
    PostfixReads(e.base, [".", e.field] + post);
    MemberStep(e.base, e.field, post);
  }

  lemma {:induction false} IndexReads(e: Expr, post: Text)
    requires e.Index? && Readable(e, POSTFIX)
    ensures ParsePostfix(Print(e) + post) == PostfixTail(e, post)
    decreases e, 0, 1
  {
    hide ParseInfix, ParsePostfix, PostfixTail, InfixTail;
    var more := ["]"] + post;
    assert Print(e) + post == Print(e.base) + (["["] + (Print(e.index) + more));
    PostfixReads(e.base, ["["] + (Print(e.index) + more));
    InfixReads(e.index, 1, more);
    NothingAtOne(e.index, more);
    IndexStep(e.base, e.index, Print(e.index) + more, post);
  }

  lemma {:induction false} MethodReads(e: Expr, post: Text)
    requires e.Method? && Readable(e, POSTFIX)
    ensures ParsePostfix(Print(e) + post) == PostfixTail(e, post)
    decreases e, 0, 1
  {
    hide ParseArgs, ParsePostfix, PostfixTail;
    var more := PrintArgs(e.args) + ([")"] + post);
    assert Print(e) + post == Print(e.base) + ([".", e.f, "("] + more);
    PostfixReads(e.base, [".", e.f, "("] + more);
    ArgsRead(e.args, post);
    MethodStep(e.base, e.f, more, e.args, post);
  }

  lemma AtomReads(e: Expr, post: Text)
    requires (e.Literal? || e.Name?) && Readable(e, POSTFIX) && (post == [] || post[0] != "(")
    ensures ParsePrimary(Print(e) + post) == Some((e, post))
  {
    hide ParseInfix, ParseArgs;
    assert (Print(e) + post)[1..] == post;
  }

  lemma ParenReads(e: Expr, t: Text, post: Text)
    requires ParseInfix(t, 1) == Some((e, [")"] + post))
    ensures ParsePrimary(["("] + t) == Some((Paren(e), post))
  {
    hide ParseInfix, ParseArgs;
    assert (["("] + t)[1..] == t && ([")"] + post)[1..] == post;
  }

  lemma CallReads(f: string, t: Text, args: seq<Expr>, post: Text)
    requires Word(f) && ParseArgs(t) == Some((args, post))
    ensures ParsePrimary([f, "("] + t) == Some((Call(f, args), post))
  {
    hide ParseInfix, ParseArgs;
    assert ([f, "("] + t)[2..] == t;
  }

  lemma MemberStep(b: Expr, f: string, post: Text)
    requires Word(f) && (post == [] || post[0] != "(")
    ensures PostfixTail(b, [".", f] + post) == PostfixTail(Member(b, f), post)
  {
    assert ([".", f] + post)[2..] == post;
  }

  lemma IndexStep(b: Expr, i: Expr, t: Text, post: Text)
    requires ParseInfix(t, 1) == Some((i, ["]"] + post))
    ensures PostfixTail(b, ["["] + t) == PostfixTail(Index(b, i), post)
  {
    hide ParseInfix;
    assert (["["] + t)[1..] == t && (["]"] + post)[1..] == post;
  }

  lemma MethodStep(b: Expr, f: string, more: Text, args: seq<Expr>, post: Text)
    requires Word(f) && ParseArgs(more) == Some((args, post))
    ensures PostfixTail(b, [".", f, "("] + more) == PostfixTail(Method(b, f, args), post)
  {
    hide ParseArgs;
    assert ([".", f, "("] + more)[3..] == more;
  }

  lemma {:induction false} ArgsRead(args: seq<Expr>, post: Text)
    requires AllReadable(args)
    ensures ParseArgs(PrintArgs(args) + ([")"] + post)) == Some((args, post))
    decreases args, 0, 1
  {
    hide MoreArgs;
    if args == [] {
      assert (PrintArgs(args) + ([")"] + post))[1..] == post;
    } else {
      NoClose(args[0], 1);
      MoreArgsRead(args, post);
    }
  }

  lemma {:induction false} MoreArgsRead(args: seq<Expr>, post: Text)
    requires AllReadable(args) && args != []
    ensures MoreArgs(PrintArgs(args) + ([")"] + post)) == Some((args, post))
    decreases args, 0, 0
  {
    hide ParseInfix, InfixTail, Print, Readable;
    var t := PrintArgs(args) + ([")"] + post);
    if |args| == 1 {
      InfixReads(args[0], 1, [")"] + post);
      TailEnds(args[0], [")"] + post, 1);
      assert ([")"] + post)[1..] == post && args == [args[0]];
    } else {
      var more := PrintArgs(args[1..]) + ([")"] + post);
      assert t == Print(args[0]) + ([","] + more);
      InfixReads(args[0], 1, [","] + more);
      TailEnds(args[0], [","] + more, 1);
      assert ([","] + more)[1..] == more;
      MoreArgsRead(args[1..], post);
      assert [args[0]] + args[1..] == args;
    }
  }

  // ---------------------------------------------------------------------------------------------------------
  // What is read is readable, and is what was written

  ghost predicate Wrote(t: Text, r: Read<Expr>, k: nat) {
    r.Some? ==> Readable(r.value.0, k) && Print(r.value.0) + r.value.1 == t
  }

  ghost predicate WroteArgs(t: Text, r: Read<seq<Expr>>) {
    r.Some? ==> AllReadable(r.value.0) && PrintArgs(r.value.0) + ([")"] + r.value.1) == t
  }

  lemma {:induction false} InfixWrote(t: Text, k: nat)
    requires k > 0
    ensures Wrote(t, ParseInfix(t, k), if k < PREFIX then k else PREFIX)
    decreases |t|, 13 - (if k < PREFIX then k else PREFIX)
  {
    hide ParsePrefix, InfixTail, ConditionalTail, Print, Readable;
    if k >= PREFIX {
      PrefixWrote(t);
    } else {
      InfixWrote(t, k + 1);
      var l := ParseInfix(t, k + 1);
      if l.Some? {
        if k == 1 {
          ConditionalWrote(l.value.0, l.value.1);
        } else {
          Stricter(l.value.0, k);
          TailWrote(l.value.0, l.value.1, k);
        }
      }
    }
  }

  lemma {:induction false} ConditionalWrote(c: Expr, t: Text)
    requires Readable(c, 2)
    ensures Wrote(Print(c) + t, ConditionalTail(c, t), 1)
    decreases |t|, 0
  {
    hide ParseInfix, Print;
    if t != [] && t[0] == "?" {
      InfixWrote(t[1..], 1);
      var a := ParseInfix(t[1..], 1);
      if a.Some? && a.value.1 != [] && a.value.1[0] == ":" {
        InfixWrote(a.value.1[1..], 1);
        var b := ParseInfix(a.value.1[1..], 1);
        if b.Some? {
          ConditionalPrint(c, a.value.0, b.value.0, b.value.1);
          assert a.value.1 == [":"] + a.value.1[1..] && t == ["?"] + t[1..];
        }
      }
    } else {
      Stricter(c, 1);
    }
  }

  lemma ConditionalPrint(c: Expr, a: Expr, b: Expr, rest: Text)
    ensures Print(Conditional(c, a, b)) + rest
         == Print(c) + (["?"] + (Print(a) + ([":"] + (Print(b) + rest))))
  {
  }

  lemma Stricter(e: Expr, k: nat)
    requires Readable(e, k + 1)
    ensures Readable(e, k)
  {
  }

  lemma {:induction false} TailWrote(l: Expr, t: Text, k: nat)
    requires 0 < k < PREFIX && Readable(l, k)
    ensures Wrote(Print(l) + t, InfixTail(l, t, k), k)
    decreases |t|, 13
  {
    hide *;
    var op := NextOp(t);
    TailIs(l, t, k);
    if OpLevel(op) != k {
      WroteNothing(l, t, k);
      return;
    }
    OpIsThere(t);
    var more := t[|OpText(op)|..];
    var r := ParseInfix(more, k + 1);
    InfixWrote(more, k + 1);
    if r.Some? {
      WroteParts(more, r, k + 1);
      var e := Infix(op, l, r.value.0);
      OperandsReadable(op, l, r.value.0, k);
      TailWrote(e, r.value.1, k);
      InfixPrints(op, l, r.value.0, r.value.1);
      assert Print(l) + t == Print(e) + r.value.1;
    } else {
      NothingWrote(Print(l) + t, InfixTail(l, t, k), k);
    }
  }

  lemma TailIs(l: Expr, t: Text, k: nat)
    requires k > 0
    ensures var op := NextOp(t);
      if OpLevel(op) != k then InfixTail(l, t, k) == Some((l, t))
      else
        && op != "" && |OpText(op)| <= |t| && OpText(op) != []
        && var r := ParseInfix(t[|OpText(op)|..], k + 1);
           if r.None? then InfixTail(l, t, k).None?
           else |r.value.1| < |t| && InfixTail(l, t, k) == InfixTail(Infix(op, l, r.value.0), r.value.1, k)
  {
    hide ParseInfix, NextOp, OpText;
  }

  lemma WroteNothing(l: Expr, t: Text, k: nat)
    requires Readable(l, k)
    ensures Wrote(Print(l) + t, Some((l, t)), k)
  {
    hide Print, Readable;
  }

  lemma NothingWrote(t: Text, r: Read<Expr>, k: nat)
    requires r.None?
    ensures Wrote(t, r, k)
  {
  }

  lemma WroteParts(t: Text, r: Read<Expr>, k: nat)
    requires r.Some? && Wrote(t, r, if k < PREFIX then k else PREFIX) && k <= PREFIX
    ensures Readable(r.value.0, k) && Print(r.value.0) + r.value.1 == t
  {
    hide Print, Readable;
  }

  lemma OperandsReadable(op: string, l: Expr, r: Expr, k: nat)
    requires OpLevel(op) == k > 0 && Readable(l, k) && Readable(r, k + 1)
    ensures Readable(Infix(op, l, r), k)
  {
  }

  lemma InfixPrints(op: string, l: Expr, r: Expr, rest: Text)
    ensures Print(Infix(op, l, r)) + rest == Print(l) + (OpText(op) + (Print(r) + rest))
  {
    hide OpText;
  }

  lemma OpIsThere(t: Text)
    requires NextOp(t) != ""
    ensures t == OpText(NextOp(t)) + t[|OpText(NextOp(t))|..]
  {
    var op := NextOp(t);
    if |t| >= 2 && Double(t[0], t[1]) {
      assert op[..1] == t[0] && op[1..] == t[1];
    }
  }

  lemma {:induction false} PrefixWrote(t: Text)
    ensures Wrote(t, ParsePrefix(t), PREFIX)
    decreases |t|, 4
  {
    hide ParsePostfix;
    if t != [] && t[0] == "-" {
      PostfixWrote(t[1..]);
      var e := ParsePostfix(t[1..]);
      if e.Some? {
        assert Print(Negate(e.value.0)) + e.value.1 == ["-"] + (Print(e.value.0) + e.value.1);
      }
    } else {
      PostfixWrote(t);
      var e := ParsePostfix(t);
      if e.Some? {
        Stricter(e.value.0, PREFIX);
      }
    }
  }

  lemma {:induction false} PostfixWrote(t: Text)
    ensures Wrote(t, ParsePostfix(t), POSTFIX)
    decreases |t|, 3
  {
    hide ParsePrimary, PostfixTail, Print, Readable;
    PrimaryWrote(t);
    var e := ParsePrimary(t);
    if e.Some? {
      PostfixTailWrote(e.value.0, e.value.1);
    }
  }

  lemma {:induction false} PostfixTailWrote(e: Expr, t: Text)
    requires Readable(e, POSTFIX)
    ensures Wrote(Print(e) + t, PostfixTail(e, t), POSTFIX)
    decreases |t|, 3
  {
    hide ParseArgs, ParseInfix, Print, PrintArgs;
    if t != [] && t[0] == "[" {
      InfixWrote(t[1..], 1);
      var i := ParseInfix(t[1..], 1);
      if i.Some? && i.value.1 != [] && i.value.1[0] == "]" {
        IndexWrote(e, t, i.value.0, i.value.1);
        PostfixTailWrote(Index(e, i.value.0), i.value.1[1..]);
      }
    } else if |t| >= 2 && t[0] == "." && Word(t[1]) {
      if |t| > 2 && t[2] == "(" {
        ArgsWrote(t[3..]);
        var args := ParseArgs(t[3..]);
        if args.Some? {
          MethodWrote(e, t, args.value.0, args.value.1);
          PostfixTailWrote(Method(e, t[1], args.value.0), args.value.1);
        }
      } else {
        MemberWrote(e, t);
        PostfixTailWrote(Member(e, t[1]), t[2..]);
      }
    }
  }

  lemma IndexWrote(e: Expr, t: Text, i: Expr, rest: Text)
    requires t != [] && t[0] == "[" && rest != [] && rest[0] == "]" && Print(i) + rest == t[1..]
    ensures Print(Index(e, i)) + rest[1..] == Print(e) + t
  {
    IndexPrints(e, i, rest[1..]);
    hide Print;
    assert rest == ["]"] + rest[1..] && t == ["["] + t[1..];
  }

  lemma IndexPrints(e: Expr, i: Expr, rest: Text)
    ensures Print(Index(e, i)) + rest == Print(e) + (["["] + (Print(i) + (["]"] + rest)))
  {
    assert Print(Index(e, i)) == Print(e) + (["["] + (Print(i) + ["]"]));
    hide Print;
  }

  lemma MethodWrote(e: Expr, t: Text, args: seq<Expr>, rest: Text)
    requires |t| > 2 && t[0] == "." && t[2] == "(" && PrintArgs(args) + ([")"] + rest) == t[3..]
    ensures Print(Method(e, t[1], args)) + rest == Print(e) + t
  {
    hide PrintArgs;
    assert t == [".", t[1], "("] + t[3..];
    assert Print(Method(e, t[1], args)) + rest == Print(e) + ([".", t[1], "("] + (PrintArgs(args) + ([")"] + rest)));
  }

  lemma MemberWrote(e: Expr, t: Text)
    requires |t| >= 2 && t[0] == "."
    ensures Print(Member(e, t[1])) + t[2..] == Print(e) + t
  {
    assert t == [".", t[1]] + t[2..];
    assert Print(Member(e, t[1])) + t[2..] == Print(e) + ([".", t[1]] + t[2..]);
  }

  lemma {:induction false} PrimaryWrote(t: Text)
    ensures Wrote(t, ParsePrimary(t), POSTFIX)
    decreases |t|, 2
  {
    hide ParseInfix, ParseArgs;
    if t != [] && t[0] == "(" {
      InfixWrote(t[1..], 1);
      var e := ParseInfix(t[1..], 1);
      if e.Some? && e.value.1 != [] && e.value.1[0] == ")" {
        assert Print(Paren(e.value.0)) + e.value.1[1..] == ["("] + (Print(e.value.0) + e.value.1);
      }
    } else if |t| > 1 && Word(t[0]) && t[1] == "(" {
      ArgsWrote(t[2..]);
      var args := ParseArgs(t[2..]);
      if args.Some? {
        assert t == [t[0], "("] + t[2..];
        assert Print(Call(t[0], args.value.0)) + args.value.1
            == [t[0], "("] + (PrintArgs(args.value.0) + ([")"] + args.value.1));
      }
    }
  }

  lemma {:induction false} ArgsWrote(t: Text)
    ensures WroteArgs(t, ParseArgs(t))
    decreases |t|, 15
  {
    hide MoreArgs;
    if t != [] {
      if t[0] == ")" {
        assert PrintArgs([]) + ([")"] + t[1..]) == t;
      } else {
        MoreArgsWrote(t);
      }
    }
  }

  lemma {:induction false} MoreArgsWrote(t: Text)
    ensures WroteArgs(t, MoreArgs(t))
    decreases |t|, 14
  {
    hide ParseInfix, Print, Readable;
    InfixWrote(t, 1);
    var e := ParseInfix(t, 1);
    if e.Some? && e.value.1 != [] {
      var rest := e.value.1[1..];
      if e.value.1[0] == ")" {
        assert [")"] + rest == e.value.1;
      } else if e.value.1[0] == "," {
        MoreArgsWrote(rest);
        var more := MoreArgs(rest);
        if more.Some? {
          var args := [e.value.0] + more.value.0;
          assert args[1..] == more.value.0;
          assert e.value.1 == [","] + rest;
          assert PrintArgs(args) == Print(e.value.0) + ([","] + PrintArgs(more.value.0));
        }
      }
    }
  }

  /** Text reads back as the expression it was written for if and only if that is readable. */
  lemma ReadsBack(e: Expr)
    ensures ParseInfix(Print(e), 1) == Some((e, [])) <==> Readable(e, 1)
  {
    InfixWrote(Print(e), 1);
    if Readable(e, 1) {
      InfixReads(e, 1, []);
      TailEnds(e, [], 1);
      assert Print(e) + [] == Print(e);
    }
  }

  // ---------------------------------------------------------------------------------------------------------
  // Statements

  datatype Stmt =
    | Let(typeName: string, x: string)
    | Declare(typeName: string, x: string, value: Expr)
    | Assign(x: string, fields: seq<string>, op: string, value: Expr)
    | If(cond: Expr, thn: seq<Stmt>, els: seq<Stmt>)
    | When(cond: Expr, thn: seq<Stmt>)
    | While(cond: Expr, body: seq<Stmt>)
    | Return(value: Expr)

  function PrintFields(fields: seq<string>): Text {
    if fields == [] then [] else [".", fields[0]] + PrintFields(fields[1..])
  }

  function PrintStmt(s: Stmt): (t: Text)
    ensures t != []
  {
    match s
    case Let(t, x) => [t, x, ";"]
    case Declare(t, x, e) => [t, x, "="] + (Print(e) + [";"])
    case Assign(x, fields, op, e) => [x] + (PrintFields(fields) + (OpText(op) + (Print(e) + [";"])))
    case If(c, a, b) =>
      ["if", "("] + (Print(c) + ([")", "{"] + (PrintBody(a) + (["}", "else", "{"] + (PrintBody(b) + ["}"])))))
    case When(c, a) => ["if", "("] + (Print(c) + ([")", "{"] + (PrintBody(a) + ["}"])))
    case While(c, b) => ["while", "("] + (Print(c) + ([")", "{"] + (PrintBody(b) + ["}"])))
    case Return(e) => ["return"] + (Print(e) + [";"])
  }

  function PrintBody(ss: seq<Stmt>): Text {
    if ss == [] then [] else PrintStmt(ss[0]) + PrintBody(ss[1..])
  }

  /** Assignments, and assignments of what an operator makes of the old value. */
  const ASSIGNMENTS: set<string> := {"=", "+=", "-=", "*=", "/=", "%="}

  /** The assignment here, if there is one. */
  function NextAssignment(t: Text): (op: string)
    ensures op != "" ==> op in ASSIGNMENTS && |OpText(op)| <= |t| && t == OpText(op) + t[|OpText(op)|..]
  {
    if |t| >= 2 && t[1] == "=" && t[0] in {"+", "-", "*", "/", "%"} then
      WithEquals(t[0]);
      t[0] + t[1]
    else if t != [] && t[0] == "=" then "=" else ""
  }

  lemma WithEquals(c: string)
    requires c in {"+", "-", "*", "/", "%"}
    ensures c + "=" in ASSIGNMENTS && OpText(c + "=") == [c, "="]
  {
    assert "+" + "=" == "+=" && "-" + "=" == "-=" && "*" + "=" == "*=" && "/" + "=" == "/=" && "%" + "=" == "%=";
    assert (c + "=")[..1] == c && (c + "=")[1..] == "=";
  }

  lemma AssignmentAhead(op: string, t: Text)
    requires op in ASSIGNMENTS
    ensures NextAssignment(OpText(op) + t) == op && (OpText(op) + t)[|OpText(op)|..] == t
    ensures OpText(op)[0] != "." && !Word(OpText(op)[0])
  {
    AssignmentText(op);
    var all := OpText(op) + t;
    if op != "=" {
      assert all[0] == op[..1] && all[1] == "=";
    } else {
      assert all[0] == "=";
    }
  }

  lemma AssignmentText(op: string)
    requires op in ASSIGNMENTS
    ensures op == "=" || (OpText(op) == [op[..1], "="] && op[..1] in {"+", "-", "*", "/", "%"} && op[..1] + "=" == op)
    ensures op == "=" ==> OpText(op) == ["="]
  {
    assert "+="[..1] == "+" && "-="[..1] == "-" && "*="[..1] == "*" && "/="[..1] == "/" && "%="[..1] == "%";
    assert "+="[1..] == "=" && "-="[1..] == "=" && "*="[1..] == "=" && "/="[1..] == "=" && "%="[1..] == "=";
  }

  /** Names for variables and types. */
  predicate Identifier(s: string) {
    Word(s) && s != "if" && s != "else" && s != "while" && s != "return"
  }

  /** An expression, and the lexeme behind it. */
  function ParseUpTo(t: Text, end: string): (r: Read<Expr>)
    ensures r.Some? ==> |r.value.1| < |t|
  {
    var e :- ParseInfix(t, 1);
    if e.1 != [] && e.1[0] == end then Some((e.0, e.1[1..])) else None
  }

  /** Statements up to a closing brace, or to the end of the text. */
  function ParseBody(t: Text): (r: Read<seq<Stmt>>)
    ensures r.Some? ==> |r.value.1| <= |t|
    decreases |t|, 2
  {
    if t == [] || t[0] == "}" then Some(([], t))
    else
      var s :- ParseStmt(t);
      var ss :- ParseBody(s.1);
      Some(([s.0] + ss.0, ss.1))
  }

  function ParseStmt(t: Text): (r: Read<Stmt>)
    requires t != []
    ensures r.Some? ==> |r.value.1| < |t|
    decreases |t|, 1
  {
    if t[0] == "return" then
      var e :- ParseUpTo(t[1..], ";");
      Some((Return(e.0), e.1))
    else if t[0] == "if" || t[0] == "while" then ParseBranch(t)
    else ParseSimple(t)
  }

  /** Declarations and assignments. */
  function ParseSimple(t: Text): (r: Read<Stmt>)
    ensures r.Some? ==> |r.value.1| < |t|
  {
    if |t| < 3 || !Identifier(t[0]) then None
    else if Identifier(t[1]) then
      if t[2] == ";" then Some((Let(t[0], t[1]), t[3..]))
      else if t[2] == "=" then
        var e :- ParseUpTo(t[3..], ";");
        Some((Declare(t[0], t[1], e.0), e.1))
      else None
    else
      var fields := ParseFields(t[1..]);
      var op := NextAssignment(fields.1);
      if op == "" then None
      else
        var e :- ParseUpTo(fields.1[|OpText(op)|..], ";");
        Some((Assign(t[0], fields.0, op, e.0), e.1))
  }

  function ParseFields(t: Text): (r: (seq<string>, Text))
    ensures |r.1| <= |t|
  {
    if |t| < 2 || t[0] != "." || !Word(t[1]) then ([], t)
    else
      var more := ParseFields(t[2..]);
      ([t[1]] + more.0, more.1)
  }

  function ParseBranch(t: Text): (r: Read<Stmt>)
    requires t != []
    ensures r.Some? ==> |r.value.1| < |t|
    decreases |t|, 0
  {
    if |t| < 2 || t[1] != "(" then None
    else
      var c :- ParseUpTo(t[2..], ")");
      var a :- ParseBlock(c.1);
      if t[0] == "while" then Some((While(c.0, a.0), a.1))
      else if a.1 != [] && a.1[0] == "else" then
        var b :- ParseBlock(a.1[1..]);
        Some((If(c.0, a.0, b.0), b.1))
      else Some((When(c.0, a.0), a.1))
  }

  function ParseBlock(t: Text): (r: Read<seq<Stmt>>)
    ensures r.Some? ==> |r.value.1| < |t|
    decreases |t|, 3
  {
    if t == [] || t[0] != "{" then None
    else
      var ss :- ParseBody(t[1..]);
      if ss.1 != [] && ss.1[0] == "}" then Some((ss.0, ss.1[1..])) else None
  }

  predicate ReadableStmt(s: Stmt) {
    match s
    case Let(t, x) => Identifier(t) && Identifier(x)
    case Declare(t, x, e) => Identifier(t) && Identifier(x) && Readable(e, 1)
    case Assign(x, fields, op, e) =>
      Identifier(x) && (forall f :: f in fields ==> Word(f)) && op in ASSIGNMENTS && Readable(e, 1)
    case If(c, a, b) => Readable(c, 1) && ReadableBody(a) && ReadableBody(b)
    case When(c, a) => Readable(c, 1) && ReadableBody(a)
    case While(c, b) => Readable(c, 1) && ReadableBody(b)
    case Return(e) => Readable(e, 1)
  }

  predicate ReadableBody(ss: seq<Stmt>) {
    forall s :: s in ss ==> ReadableStmt(s)
  }

  lemma UpToReads(e: Expr, end: string, post: Text)
    requires Readable(e, 1) && (end == ";" || end == ")")
    ensures ParseUpTo(Print(e) + ([end] + post), end) == Some((e, post))
  {
    InfixReads(e, 1, [end] + post);
    TailEnds(e, [end] + post, 1);
    assert ([end] + post)[1..] == post;
  }

  lemma {:induction false} FieldsRead(fields: seq<string>, post: Text)
    requires (forall f :: f in fields ==> Word(f)) && post != [] && post[0] != "."
    ensures ParseFields(PrintFields(fields) + post) == (fields, post)
  {
    if fields == [] {
      assert PrintFields(fields) + post == post;
    } else {
      var t := PrintFields(fields) + post;
      assert t[2..] == PrintFields(fields[1..]) + post;
      FieldsRead(fields[1..], post);
      assert [fields[0]] + fields[1..] == fields;
    }
  }

  lemma {:induction false} StmtReads(s: Stmt, post: Text)
    requires ReadableStmt(s) && (post == [] || post[0] != "else")
    ensures ParseStmt(PrintStmt(s) + post) == Some((s, post))
    decreases s, 1
  {
    hide ParseUpTo, Print, Readable, ParseFields, PrintFields;
    var t := PrintStmt(s) + post;
    match s {
      case Let(_, _) => SimpleReads(s, post);
      case Declare(_, _, _) => SimpleReads(s, post);
      case Assign(_, _, _, _) => SimpleReads(s, post);
      case Return(e) =>
        assert t[1..] == Print(e) + ([";"] + post);
        UpToReads(e, ";", post);
      case _ => BranchReads(s, post);
    }
  }

  lemma SimpleReads(s: Stmt, post: Text)
    requires (s.Let? || s.Declare? || s.Assign?) && ReadableStmt(s)
    ensures ParseSimple(PrintStmt(s) + post) == Some((s, post))
  {
    hide ParseUpTo, Print, Readable, ParseFields;
    var t := PrintStmt(s) + post;
    match s {
      case Let(_, _) =>
        assert t[3..] == post;
      case Declare(_, _, e) =>
        assert t[3..] == Print(e) + ([";"] + post);
        UpToReads(e, ";", post);
      case Assign(_, _, _, _) => AssignReads(s, post);
    }
  }

  lemma AssignReads(s: Stmt, post: Text)
    requires s.Assign? && ReadableStmt(s)
    ensures ParseSimple(PrintStmt(s) + post) == Some((s, post))
  {
    hide ParseUpTo, Print, Readable, ParseFields, Word, OpText, NextAssignment, ParseSimple;
    var last := Print(s.value) + ([";"] + post);
    var more := PrintFields(s.fields) + (OpText(s.op) + last);
    AssignmentAhead(s.op, last);
    FieldsRead(s.fields, OpText(s.op) + last);
    UpToReads(s.value, ";", post);
    assert PrintStmt(s) + post == [s.x] + more;
    assert more[0] == (if s.fields == [] then OpText(s.op)[0] else ".");
    NoWord();
    AssignStep(s, more, OpText(s.op) + last, last, post);
  }

  lemma NoWord()
    ensures !Word(".")
  {
  }

  lemma AssignStep(s: Stmt, more: Text, value: Text, last: Text, post: Text)
    requires s.Assign? && Identifier(s.x) && |more| >= 2 && !Word(more[0]) && ParseFields(more) == (s.fields, value)
    requires NextAssignment(value) == s.op != "" && value[|OpText(s.op)|..] == last
    requires ParseUpTo(last, ";") == Some((s.value, post))
    ensures ParseSimple([s.x] + more) == Some((s, post))
  {
    hide ParseUpTo, ParseFields, OpText, NextAssignment, Word;
    var t := [s.x] + more;
    assert t[1..] == more && t[1] == more[0];
  }

  lemma {:induction false} BranchReads(s: Stmt, post: Text)
    requires (s.If? || s.When? || s.While?) && ReadableStmt(s) && (post == [] || post[0] != "else")
    ensures ParseBranch(PrintStmt(s) + post) == Some((s, post))
    decreases s, 0
  {
    hide ParseUpTo, ParseBody, Print, Readable, ParseBlock, ParseBranch;
    var a := if s.While? then s.body else s.thn;
    var rest := if s.If? then ["else"] + (["{"] + (PrintBody(s.els) + (["}"] + post))) else post;
    BlockReads(a, rest);
    BranchText(s, post, a, rest);
    if s.If? {
      BlockReads(s.els, post);
    }
    BranchStep(s, a, ["{"] + (PrintBody(a) + (["}"] + rest)), rest, post);
  }

  lemma BranchText(s: Stmt, post: Text, a: seq<Stmt>, rest: Text)
    requires s.If? || s.When? || s.While?
    requires a == (if s.While? then s.body else s.thn)
    requires rest == if s.If? then ["else"] + (["{"] + (PrintBody(s.els) + (["}"] + post))) else post
    ensures PrintStmt(s) + post
         == [if s.While? then "while" else "if", "("]
            + (Print(s.cond) + ([")"] + (["{"] + (PrintBody(a) + (["}"] + rest)))))
  {
    hide Print, PrintBody;
  }

  lemma BranchStep(s: Stmt, a: seq<Stmt>, block: Text, rest: Text, post: Text)
    requires (s.If? || s.When? || s.While?) && Readable(s.cond, 1) && a == if s.While? then s.body else s.thn
    requires ParseBlock(block) == Some((a, rest))
    requires s.If? ==> rest != [] && rest[0] == "else" && ParseBlock(rest[1..]) == Some((s.els, post))
    requires !s.If? ==> rest == post && (post == [] || post[0] != "else")
    ensures var t := [if s.While? then "while" else "if", "("] + (Print(s.cond) + ([")"] + block));
      ParseBranch(t) == Some((s, post))
  {
    hide ParseUpTo, ParseBlock, Print, Readable;
    var t := [if s.While? then "while" else "if", "("] + (Print(s.cond) + ([")"] + block));
    assert t[2..] == Print(s.cond) + ([")"] + block);
    UpToReads(s.cond, ")", block);
  }

  lemma {:induction false} BlockReads(ss: seq<Stmt>, post: Text)
    requires ReadableBody(ss)
    ensures ParseBlock(["{"] + (PrintBody(ss) + (["}"] + post))) == Some((ss, post))
    decreases ss, 1
  {
    hide ParseBody;
    var t := ["{"] + (PrintBody(ss) + (["}"] + post));
    assert t[1..] == PrintBody(ss) + (["}"] + post) && (["}"] + post)[1..] == post;
    BodyReads(ss, ["}"] + post);
  }

  lemma {:induction false} BodyReads(ss: seq<Stmt>, post: Text)
    requires ReadableBody(ss) && (post == [] || post[0] == "}")
    ensures ParseBody(PrintBody(ss) + post) == Some((ss, post))
    decreases ss, 0
  {
    hide ParseStmt, PrintStmt;
    if ss == [] {
      assert PrintBody(ss) + post == post;
    } else {
      var more := PrintBody(ss[1..]) + post;
      assert PrintBody(ss) + post == PrintStmt(ss[0]) + more;
      if |ss| > 1 {
        StartsWell(ss[1]);
      }
      StartsWell(ss[0]);
      StmtReads(ss[0], more);
      BodyReads(ss[1..], post);
      assert [ss[0]] + ss[1..] == ss;
    }
  }

  lemma StartsWell(s: Stmt)
    requires ReadableStmt(s)
    ensures PrintStmt(s)[0] != "}" && PrintStmt(s)[0] != "else"
  {
  }

  // ---------------------------------------------------------------------------------------------------------
  // Statements that are read

  ghost predicate WroteStmt(t: Text, r: Read<Stmt>) {
    r.Some? ==> ReadableStmt(r.value.0) && PrintStmt(r.value.0) + r.value.1 == t
  }

  ghost predicate WroteBody(t: Text, r: Read<seq<Stmt>>) {
    r.Some? ==> ReadableBody(r.value.0) && PrintBody(r.value.0) + r.value.1 == t
  }

  lemma UpToWrote(t: Text, end: string)
    ensures var r := ParseUpTo(t, end);
      r.Some? ==> Readable(r.value.0, 1) && Print(r.value.0) + ([end] + r.value.1) == t
  {
    InfixWrote(t, 1);
    var e := ParseInfix(t, 1);
    if e.Some? && e.value.1 != [] && e.value.1[0] == end {
      assert [end] + e.value.1[1..] == e.value.1;
    }
  }

  lemma {:induction false} FieldsWrote(t: Text)
    ensures var r := ParseFields(t);
      PrintFields(r.0) + r.1 == t && forall f :: f in r.0 ==> Word(f)
  {
    if |t| < 2 || t[0] != "." || !Word(t[1]) {
      assert PrintFields([]) + t == t;
    } else {
      FieldsWrote(t[2..]);
      var more := ParseFields(t[2..]);
      assert ([t[1]] + more.0)[1..] == more.0;
      assert t == [".", t[1]] + t[2..];
    }
  }

  lemma {:induction false} StmtWrote(t: Text)
    requires t != []
    ensures WroteStmt(t, ParseStmt(t))
    decreases |t|, 1
  {
    hide ParseUpTo, ParseSimple, ParseBranch, Print, Readable;
    if t[0] == "return" {
      UpToWrote(t[1..], ";");
      var e := ParseUpTo(t[1..], ";");
      if e.Some? {
        assert PrintStmt(Return(e.value.0)) + e.value.1 == ["return"] + (Print(e.value.0) + ([";"] + e.value.1));
      }
    } else if t[0] == "if" || t[0] == "while" {
      BranchWrote(t);
    } else {
      SimpleWrote(t);
    }
  }

  lemma SimpleWrote(t: Text)
    ensures WroteStmt(t, ParseSimple(t))
  {
    hide ParseUpTo, ParseFields, Print, Readable, PrintFields;
    if |t| >= 3 && Identifier(t[0]) {
      if Identifier(t[1]) {
        assert t == [t[0], t[1], t[2]] + t[3..];
        UpToWrote(t[3..], ";");
        var e := ParseUpTo(t[3..], ";");
        if t[2] == "=" && e.Some? {
          assert PrintStmt(Declare(t[0], t[1], e.value.0)) + e.value.1
              == [t[0], t[1], "="] + (Print(e.value.0) + ([";"] + e.value.1));
        }
      } else {
        FieldsWrote(t[1..]);
        var fields := ParseFields(t[1..]);
        var op := NextAssignment(fields.1);
        if op != "" {
          var more := fields.1[|OpText(op)|..];
          hide OpText, NextAssignment;
          UpToWrote(more, ";");
          var e := ParseUpTo(more, ";");
          if e.Some? {
            assert PrintStmt(Assign(t[0], fields.0, op, e.value.0)) + e.value.1
                == [t[0]] + (PrintFields(fields.0) + (OpText(op) + (Print(e.value.0) + ([";"] + e.value.1))));
          }
        }
      }
    }
  }

  lemma {:induction false} BranchWrote(t: Text)
    requires t != [] && (t[0] == "if" || t[0] == "while")
    ensures WroteStmt(t, ParseBranch(t))
    decreases |t|, 0
  {
    hide ParseUpTo, ParseBlock, Print, Readable, PrintStmt, PrintBody;
    if |t| >= 2 && t[1] == "(" {
      UpToWrote(t[2..], ")");
      var c := ParseUpTo(t[2..], ")");
      if c.Some? {
        BlockWrote(c.value.1);
        var a := ParseBlock(c.value.1);
        if a.Some? {
          assert t == [t[0], "("] + t[2..];
          if t[0] == "if" && a.value.1 != [] && a.value.1[0] == "else" {
            BlockWrote(a.value.1[1..]);
            var b := ParseBlock(a.value.1[1..]);
            if b.Some? {
              var s := If(c.value.0, a.value.0, b.value.0);
              assert a.value.1 == ["else"] + a.value.1[1..];
              BranchText(s, b.value.1, a.value.0, a.value.1);
            }
          } else {
            var s := if t[0] == "while" then While(c.value.0, a.value.0) else When(c.value.0, a.value.0);
            BranchText(s, a.value.1, a.value.0, a.value.1);
          }
        }
      }
    }
  }

  lemma {:induction false} BlockWrote(t: Text)
    ensures var r := ParseBlock(t);
      r.Some? ==> ReadableBody(r.value.0) && ["{"] + (PrintBody(r.value.0) + (["}"] + r.value.1)) == t
    decreases |t|, 3
  {
    hide ParseBody, PrintBody;
    if t != [] && t[0] == "{" {
      BodyWrote(t[1..]);
      var ss := ParseBody(t[1..]);
      if ss.Some? && ss.value.1 != [] && ss.value.1[0] == "}" {
        assert ss.value.1 == ["}"] + ss.value.1[1..];
        assert t == ["{"] + t[1..];
      }
    }
  }

  lemma {:induction false} BodyWrote(t: Text)
    ensures WroteBody(t, ParseBody(t))
    decreases |t|, 2
  {
    hide ParseStmt, PrintStmt, ReadableStmt;
    if t == [] || t[0] == "}" {
      assert PrintBody([]) + t == t;
    } else {
      StmtWrote(t);
      var s := ParseStmt(t);
      if s.Some? {
        BodyWrote(s.value.1);
        var ss := ParseBody(s.value.1);
        if ss.Some? {
          BodyPrints(s.value.0, ss.value.0, ss.value.1);
        }
      }
    }
  }

  lemma BodyPrints(s: Stmt, ss: seq<Stmt>, rest: Text)
    ensures PrintBody([s] + ss) + rest == PrintStmt(s) + (PrintBody(ss) + rest)
  {
    hide PrintStmt;
    assert ([s] + ss)[1..] == ss;
  }

  /** The text of a body reads back as that body if and only if it is readable. */
  lemma BodyReadsBack(ss: seq<Stmt>)
    ensures ParseBody(PrintBody(ss)) == Some((ss, [])) <==> ReadableBody(ss)
  {
    BodyWrote(PrintBody(ss));
    if ReadableBody(ss) {
      BodyReads(ss, []);
      assert PrintBody(ss) + [] == PrintBody(ss);
    }
  }
}
