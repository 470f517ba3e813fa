/** The token stream that both shader writers walk over: what the C-family lexer of libobs leaves behind
    after preprocessing. The array of tokens ends with a sentinel, which `At` and `After` supply. */
module ShaderTokens {

  datatype Token =
    | Name(text: string)
    | Number(text: string)
    | Str(text: string)
    | Blank(text: string)   // spaces, tabs and newlines
    | Other(text: string)   // punctuation and operators
    | End(text: string)     // the sentinel; only `NONE` occurs

  const NONE := End("")

  const OPEN := Other("(")
  const CLOSE := Other(")")
  const COMMA := Other(",")
  const SPACE := Blank(" ")
  const BEGIN := Other("{")
  const END := Other("}")
  const SEMICOLON := Other(";")

  /** A conversion that may throw. */
  datatype Result<+T> = Ok(value: T) | Thrown {
    predicate IsFailure() { Thrown? }

    function PropagateFailure<U>(): Result<U>
      requires Thrown?
    {
      Thrown
    }

    function Extract(): T
      requires Ok?
    {
      value
    }
  }

  /** The token under the cursor. */
  function At(toks: seq<Token>, cursor: nat): Token {
    if cursor < |toks| then toks[cursor] else NONE
  }

  /** The tokens behind the cursor. */
  function After(toks: seq<Token>, cursor: nat): seq<Token> {
    if cursor < |toks| then toks[cursor + 1..] else []
  }

  function SkipBlanks(ts: seq<Token>): (rest: seq<Token>)
    ensures |rest| <= |ts|
    ensures rest != [] ==> !rest[0].Blank?
  {
    if ts != [] && ts[0].Blank? then SkipBlanks(ts[1..]) else ts
  }

  /** `rest` is what is left of `ts` after some of its tokens were consumed. */
  ghost predicate Suffix(rest: seq<Token>, ts: seq<Token>) {
    |rest| <= |ts| && rest == ts[|ts| - |rest|..]
  }

  /** The consumed part of `ts`. */
  ghost function Consumed(ts: seq<Token>, rest: seq<Token>): seq<Token>
    requires Suffix(rest, ts)
  {
    ts[..|ts| - |rest|]
  }

  lemma SuffixTransitive(a: seq<Token>, b: seq<Token>, c: seq<Token>)
    requires Suffix(a, b) && Suffix(b, c)
    ensures Suffix(a, c)
  {
  }

  lemma ConsumedTransitive(a: seq<Token>, b: seq<Token>, c: seq<Token>)
    requires Suffix(a, b) && Suffix(b, c)
    ensures Suffix(a, c) && Consumed(c, a) == Consumed(c, b) + Consumed(b, a)
  {
  }

  lemma SkipBlanksSuffix(ts: seq<Token>)
    ensures Suffix(SkipBlanks(ts), ts)
  {
    if ts != [] && ts[0].Blank? {
      SkipBlanksSuffix(ts[1..]);
      SuffixTransitive(SkipBlanks(ts[1..]), ts[1..], ts);
    }
  }

  /** Moves the cursor as the parser's "next token" does: forward past blanks, and not at all from the sentinel.
      From a blank it only skips blanks. It fails at the sentinel. */
  method NextToken(toks: seq<Token>, cursor: nat) returns (next: nat, ok: bool)
    requires cursor <= |toks|
    ensures cursor <= next <= |toks|
    ensures SkipBlanks(After(toks, cursor)) == toks[next..]
    ensures ok <==> next < |toks|
    ensures ok ==> cursor < next
  {
    next := cursor;
    if cursor < |toks| && !toks[cursor].Blank? {
      next := next + 1;
    }
    while next < |toks| && toks[next].Blank?
      invariant cursor <= next <= |toks|
      invariant cursor < |toks| && !toks[cursor].Blank? ==> cursor < next
      invariant cursor < next ==> SkipBlanks(After(toks, cursor)) == SkipBlanks(toks[next..])
    {
      next := next + 1;
    }
    ok := next < |toks|;
  }
}
