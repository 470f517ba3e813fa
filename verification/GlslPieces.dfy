/** Function bodies as bracket trees. The writer stops exactly where a balanced body ends, and what it writes is the
    same tree with the rewritten calls replaced. */
module GlslPieces {
  import opened ShaderTokens
  import opened GlslWriter

  /** A body consists of single tokens, brackets, and the calls the writer takes apart. Calls may hold blanks wherever
      the language allows them (`gap`, `lead`). Text that was written consists of leaves and groups only. */
  datatype Piece =
    | Leaf(tok: Token)
    | Group(open: Token, body: seq<Piece>)
    | Mul(gap: seq<Token>, a: seq<Piece>, gapB: seq<Token>, b: seq<Piece>)
    | Mad(gap: seq<Token>, a: seq<Piece>, gapB: seq<Token>, b: seq<Piece>, gapC: seq<Token>, c: seq<Piece>)
    | Saturate(gap: seq<Token>, a: seq<Piece>)
    | Sincos(gap: seq<Token>, a: seq<Piece>, gapB: seq<Token>, b: seq<Piece>, gapC: seq<Token>, c: seq<Piece>)
    | Texture(name: string, lead: seq<Token>, coords: seq<Piece>)

  function Closing(open: Token): Token {
    if open == BEGIN then END else CLOSE
  }

  /** The tokens of a piece, in front of `k`. */
  function Src(p: Piece, k: seq<Token>): seq<Token> {
    match p
    case Leaf(t) => [t] + k
    case Group(o, body) => [o] + SrcList(body, [Closing(o)] + k)
    case Mul(g, a, gb, b) => [Name("mul")] + (g + ([OPEN] + SrcList(a, [COMMA] + (gb + SrcList(b, [CLOSE] + k)))))
    case Mad(g, a, gb, b, gc, c) =>
      [Name("mad")] + (g + ([OPEN] + SrcList(a, [COMMA] + (gb + SrcList(b, [COMMA] + (gc + SrcList(c, [CLOSE] + k)))))))
    case Saturate(g, a) => [Name("saturate")] + (g + ([OPEN] + SrcList(a, [CLOSE] + k)))
    case Sincos(g, a, gb, b, gc, c) =>
      [Name("sincos")]
      + (g + ([OPEN] + SrcList(a, [COMMA] + (gb + SrcList(b, [COMMA] + (gc + SrcList(c, [CLOSE] + k)))))))
    case Texture(n, lead, coords) => [Name(n)] + (lead + SrcList(coords, [CLOSE] + k))
  }

  function SrcList(ps: seq<Piece>, k: seq<Token>): seq<Token> {
    if ps == [] then k else Src(ps[0], SrcList(ps[1..], k))
  }

  function Text(ps: seq<Piece>): seq<Token> { SrcList(ps, []) }

  // ---------------------------------------------------------------------------------------------------------
  // What becomes of a piece

  function Spelled(n: string): string {
    if TypeName(n) != "" then TypeName(n) else if Renamed(n) != "" then Renamed(n) else n
  }

  function Leaves(ts: seq<Token>): (ps: seq<Piece>)
    ensures |ps| == |ts| && forall i :: 0 <= i < |ts| ==> ps[i] == Leaf(ts[i])
  {
    if ts == [] then [] else [Leaf(ts[0])] + Leaves(ts[1..])
  }

  const STAR := [Leaf(SPACE), Leaf(Other("*")), Leaf(SPACE)]
  const CROSS := [Leaf(SPACE), Leaf(Other("+")), Leaf(SPACE)]
  const BOUNDS := [Leaf(COMMA), Leaf(SPACE), Leaf(Number("0.0")), Leaf(COMMA), Leaf(SPACE), Leaf(Number("1.0"))]

  function Product(a: seq<Piece>, b: seq<Piece>): seq<Piece> {
    [Group(OPEN, [Group(OPEN, a)] + STAR + [Group(OPEN, b)])]
  }

  function ProductSum(a: seq<Piece>, b: seq<Piece>, c: seq<Piece>): seq<Piece> {
    [Group(OPEN, [Group(OPEN, a)] + STAR + [Group(OPEN, b)] + CROSS + [Group(OPEN, c)])]
  }

  function Clamp(a: seq<Piece>): seq<Piece> {
    [Leaf(Name("clamp")), Group(OPEN, a + BOUNDS)]
  }

  /** The declaration of `v`, and the assignments of its sine and its cosine. */
  function SineAndCosine(v: Token, a: seq<Piece>, b: seq<Piece>, c: seq<Piece>): seq<Piece> {
    Leaves(Declares(v)) + [Group(OPEN, a)] + Leaves([SEMICOLON, SPACE])
    + b + Leaves(ASSIGN + [Name("sin")]) + [Group(OPEN, [Leaf(v)])] + Leaves([SEMICOLON, SPACE])
    + c + Leaves(ASSIGN + [Name("cos")]) + [Group(OPEN, [Leaf(v)])]
  }

  function Sampling(call: string, texture: string, coords: seq<Piece>): seq<Piece> {
    [Leaf(Name(call)), Group(OPEN, Leaves([Name(texture), COMMA, SPACE]) + coords)]
  }

  /** Products and sums in parentheses, a clamp, three statements, or a sampling function. */
  function Image(env: Env, p: Piece, st: State): seq<Piece> {
    match p
    case Leaf(t) => [Leaf(if t.Name? then Name(Spelled(t.text)) else t)]
    case Group(o, body) => [Group(o, ImageList(env, body, st))]
    case Mul(_, a, _, b) => Product(ImageList(env, a, st), ImageList(env, b, LeftList(env, a, st)))
    case Mad(_, a, _, b, _, c) =>
      var s1 := LeftList(env, a, st);
      ProductSum(ImageList(env, a, st), ImageList(env, b, s1), ImageList(env, c, LeftList(env, b, s1)))
    case Saturate(_, a) => Clamp(ImageList(env, a, st))
    case Sincos(_, a, _, b, _, c) =>
      var s0 := st.(sincos := st.sincos + 1);
      var s1 := LeftList(env, a, s0);
      SineAndCosine(SincosName(st.sincos),
                    ImageList(env, a, s0), ImageList(env, b, s1), ImageList(env, c, LeftList(env, b, s1)))
    case Texture(n, lead, coords) =>
      Sampling(CallOf(env, n, lead), n,
               ImageList(env, coords, st.(bound := BoundBy(env, n, lead, st.bound))))
  }

  function ImageList(env: Env, ps: seq<Piece>, st: State): seq<Piece> {
    if ps == [] then [] else Image(env, ps[0], st) + ImageList(env, ps[1..], Left(env, ps[0], st))
  }

  /** The state after a piece: every `sincos` took a number, every sampling bound its texture. */
  function Left(env: Env, p: Piece, st: State): (s: State)
    ensures st.sincos <= s.sincos
  {
    match p
    case Leaf(_) => st
    case Group(_, body) => LeftList(env, body, st)
    case Mul(_, a, _, b) => LeftList(env, b, LeftList(env, a, st))
    case Mad(_, a, _, b, _, c) => LeftList(env, c, LeftList(env, b, LeftList(env, a, st)))
    case Saturate(_, a) => LeftList(env, a, st)
    case Sincos(_, a, _, b, _, c) =>
      LeftList(env, c, LeftList(env, b, LeftList(env, a, st.(sincos := st.sincos + 1))))
    case Texture(n, lead, coords) => LeftList(env, coords, st.(bound := BoundBy(env, n, lead, st.bound)))
  }

  function LeftList(env: Env, ps: seq<Piece>, st: State): (s: State)
    ensures st.sincos <= s.sincos
  {
    if ps == [] then st else LeftList(env, ps[1..], Left(env, ps[0], st))
  }

  /** A token sequence without its blanks. */
  function Squeezed(ts: seq<Token>): (r: seq<Token>)
    ensures |r| <= |ts|
  {
    if ts == [] then [] else if ts[0].Blank? then Squeezed(ts[1..]) else [ts[0]] + Squeezed(ts[1..])
  }

  function CallOf(env: Env, n: string, lead: seq<Token>): string {
    var q := Squeezed(lead);
    var f := if |q| > 1 then FunctionOf(TypeOf(env.params, n), q[1].text) else NoFunction;
    if f.NoFunction? then "" else f.call
  }

  function BoundBy(env: Env, n: string, lead: seq<Token>, bound: map<string, nat>): map<string, nat> {
    var q := Squeezed(lead);
    if |q| > 3 then bound[n := SamplerId(env.samplers, q[3].text)] else bound
  }

  // ---------------------------------------------------------------------------------------------------------
  // Which trees are bodies

  predicate TakenApart(n: string) {
    n == "mul" || n == "mad" || n == "saturate" || n == "sincos"
  }

  /** A name the writer copies or renames when these tokens follow it. */
  predicate Bare(env: Env, t: Token, k: seq<Token>) {
    t.Name? && TypeName(t.text) == "" && Renamed(t.text) == "" ==>
      && (TakenApart(t.text) ==> !Is(SkipBlanks(k), "("))
      && (!TakenApart(t.text) && IsTexture(env, t.text) ==> !Is(SkipBlanks(k), "."))
  }

  /** From behind a texture's name to in front of its coordinates. */
  predicate ProperLead(env: Env, n: string, lead: seq<Token>) {
    var q := Squeezed(lead);
    && (|q| == 3 || |q| == 5)
    && q[0].text == "." && q[2].text == "("
    && FunctionOf(TypeOf(env.params, n), q[1].text) != NoFunction
    && FunctionOf(TypeOf(env.params, n), q[1].text).sampled == (|q| == 5)
    && (|q| == 5 ==> SamplerId(env.samplers, q[3].text) < |env.samplers| && q[4].text == ",")
  }

  predicate Blanks(ts: seq<Token>) {
    Squeezed(ts) == []
  }

  predicate Bracket(t: Token) {
    t.text == "(" || t.text == ")" || t.text == "{" || t.text == "}" || Opens(t, '(') || Opens(t, '{')
  }

  predicate StartsBlank(ps: seq<Piece>) {
    ps != [] && ps[0].Leaf? && ps[0].tok.Blank?
  }

  /** An operand that runs to the closing parenthesis of its call must not begin with a bracket. */
  predicate LastOperand(env: Env, ps: seq<Piece>) {
    ps != [] && !StartsBlank(ps) && !ps[0].Group? && ProperList(env, ps, true)
  }

  /** One that runs to a comma may begin with a parenthesis, unless that holds a comma of its own. */
  predicate MiddleOperand(env: Env, ps: seq<Piece>) {
    && ps != [] && !StartsBlank(ps) && ProperList(env, ps, false)
    && (ps[0].Group? ==> ps[0].open == OPEN && ProperList(env, ps[0].body, false))
  }

  predicate Proper(env: Env, p: Piece) {
    match p
    case Leaf(t) => !Bracket(t)
    case Group(o, body) => (o == OPEN || o == BEGIN) && ProperList(env, body, true)
    case Mul(g, a, gb, b) => Blanks(g) && Blanks(gb) && ProperList(env, a, false) && LastOperand(env, b)
    case Mad(g, a, gb, b, gc, c) =>
      Blanks(g) && Blanks(gb) && Blanks(gc) && ProperList(env, a, false) && MiddleOperand(env, b) && LastOperand(env, c)
    case Saturate(g, a) => Blanks(g) && ProperList(env, a, true)
    case Sincos(g, a, gb, b, gc, c) =>
      Blanks(g) && Blanks(gb) && Blanks(gc) && ProperList(env, a, false) && MiddleOperand(env, b) && LastOperand(env, c)
    case Texture(n, lead, coords) =>
      && !Bracket(Name(n)) && n != ","
      && TypeName(n) == "" && Renamed(n) == "" && !TakenApart(n) && IsTexture(env, n)
      && ProperLead(env, n, lead) && LastOperand(env, coords)
  }

  /** `commas` says whether commas may stand outside all brackets. */
  predicate ProperList(env: Env, ps: seq<Piece>, commas: bool) {
    ps == [] || (
      && Proper(env, ps[0])
      && (ps[0].Leaf? ==> Bare(env, ps[0].tok, SrcList(ps[1..], [CLOSE])) && (commas || ps[0].tok.text != ","))
      && ProperList(env, ps[1..], commas))
  }
}
