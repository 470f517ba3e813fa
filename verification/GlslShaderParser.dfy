/** The parser object of the GLSL back end. All its routines move the one cursor `curToken`, append to the one output
    string, and call each other recursively; each does what the writer's functions say. */
module GlslShaderParser {
  import opened Decimals
  import opened ShaderTokens
  import opened GlslWriter

  lemma Associative(a: seq<Token>, b: seq<Token>, c: seq<Token>)
    ensures (a + b) + c == a + (b + c)
  {
  }

  ghost function TextOf(a: Attempt): seq<Token> {
    if a.Written? then a.chunk.text else a.text
  }

  class GlShaderParser {
    const toks: seq<Token>
    const env: Env
    var curToken: nat
    var glString: seq<Token>
    var sincosCounter: nat
    var samplerIds: map<string, nat>

    constructor (toks: seq<Token>, env: Env)
      ensures this.toks == toks && this.env == env && Valid()
      ensures glString == [] && Now() == State(1, map[])
    {
      this.toks, this.env := toks, env;
      curToken, glString, sincosCounter, samplerIds := 0, [], 1, map[];
    }

    ghost predicate Valid()
      reads this
    {
      curToken <= |toks|
    }

    ghost function Now(): State
      reads this
    {
      State(sincosCounter, samplerIds)
    }

    /** Since the output was `before`, `text` was appended and the state became `state`. */
    ghost predicate Appended(before: seq<Token>, text: seq<Token>, state: State)
      reads this
    {
      glString == before + text && Now() == state
    }

    /** What a routine that may fail did; on success the last token it took is `token`. */
    ghost predicate Outcome(before: seq<Token>, ok: bool, token: nat, a: Attempt)
      reads this
    {
      match a
      case Unwritten(text, state) => !ok && Appended(before, text, state)
      case Written(c) => ok && Appended(before, c.text, c.state) && After(toks, token) == c.rest
    }

    method Cat(text: seq<Token>)
      modifies `glString
      ensures glString == old(glString) + text
    {
      glString := glString + text;
    }

    /** The same, in a routine that has appended `written` to `before` so far. */
    method CatAfter(ghost before: seq<Token>, ghost written: seq<Token>, text: seq<Token>)
      returns (ghost now: seq<Token>)
      requires glString == before + written
      modifies `glString
      ensures now == written + text && glString == before + now
    {
      now := written + text;
      Cat(text);
      Associative(before, written, text);
    }

    /** The contents from the shared cursor on, which ends up where they end. */
    method WriteOperand(ghost before: seq<Token>, ghost written: seq<Token>, end: string)
      returns (ghost now: seq<Token>)
      requires Valid() && end != "" && glString == before + written
      modifies this
      ensures Valid() && old(curToken) <= curToken
      ensures var c := Contents(env, old(Now()), old(toks[curToken..]), end);
        toks[curToken..] == c.rest && now == written + c.text && Appended(before, now, c.state)
      decreases |toks| - curToken, 2
    {
      hide Contents;
      ghost var c := Contents(env, Now(), toks[curToken..], end);
      curToken := WriteFunctionContents(curToken, end);
      now := written + c.text;
      Associative(before, written, c.text);
    }

    /** Moves the shared cursor. */
    method Advance() returns (ok: bool)
      requires Valid()
      modifies `curToken
      ensures Valid() && old(curToken) <= curToken
      ensures toks[curToken..] == Next(old(toks[curToken..]))
      ensures ok <==> curToken < |toks|
      ensures ok ==> old(curToken) < curToken
    {
      var rest: seq<Token> := toks[curToken..];
      assert Tail(rest) == After(toks, curToken);
      curToken, ok := NextToken(toks, curToken);
    }

    method WriteFunctionContents(start: nat, end: string) returns (token: nat)
      requires start <= |toks| && Valid() && end != ""
      modifies this
      ensures Valid() && start <= token <= |toks|
      ensures start < |toks| ==> start < token
      ensures var c := Contents(env, old(Now()), toks[start..], end);
        toks[token..] == c.rest && Appended(old(glString), c.text, c.state)
      decreases |toks| - start, 1
    {
      hide WriteName, Item;
      ghost var c := Contents(env, Now(), toks[start..], end);
      token := start;
      if start == |toks| {
        return;
      }
      ghost var head := if toks[start].Name? then WriteName(env, Now(), toks[start..])
                        else Chunk([toks[start]], Now(), toks[start + 1..]);
      assert toks[start..][1..] == toks[start + 1..];
      if toks[start].Name? {
        token := WriteNameToken(token);
      } else {
        Cat([toks[start]]);
      }
      hide Contents;
      token := WriteLoop(token, end, old(glString), head.text);
    }

    /** The loop of that routine, with the cursor on the last token taken. */
    method WriteLoop(start: nat, end: string, ghost before: seq<Token>, ghost head: seq<Token>) returns (token: nat)
      requires start <= |toks| && Valid() && end != "" && glString == before + head
      modifies this
      ensures Valid() && start <= token <= |toks| && (start < |toks| ==> start < token)
      ensures var c := Prefixed(head, Loop(env, old(Now()), After(toks, start), end));
        toks[token..] == c.rest && Appended(before, c.text, c.state)
      decreases |toks| - start, 0, 3
    {
      hide Contents, Item;
      ghost var c := Loop(env, Now(), After(toks, start), end);
      ghost var w := head;
      ghost var more := c;
      token := start;
      assert w + more.text == head + c.text;
      while token < |toks|
        invariant start <= token <= |toks| && Valid()
        invariant more == Loop(env, Now(), After(toks, token), end)
        invariant glString == before + w && w + more.text == head + c.text
        invariant more.state == c.state && more.rest == c.rest
        invariant start < |toks| && token == |toks| ==> start < token
      {
        token := token + 1;
        assert After(toks, token - 1) == toks[token..];
        if token < |toks| && toks[token].text == end {
          break;
        }
        if token < |toks| {
          ghost var item := Item(env, Now(), toks[token..]);
          token := WriteItem(token);
          Associative(before, w, item.text);
          w := w + item.text;
          more := Loop(env, item.state, item.rest, end);
          Associative(w[..|w| - |item.text|], item.text, more.text);
        }
      }
    }

    /** One round of that loop. */
    method WriteItem(start: nat) returns (token: nat)
      requires start < |toks| && Valid()
      modifies this
      ensures Valid() && start <= token <= |toks|
      ensures var c := Item(env, old(Now()), toks[start..]);
        After(toks, token) == c.rest && Appended(old(glString), c.text, c.state)
      decreases |toks| - start, 2
    {
      hide WriteName, Contents;
      token := start;
      if toks[start].Name? {
        token := WriteNameToken(start);
      } else if toks[start].Other? {
        if Opens(toks[start], '{') {
          token := WriteFunctionContents(start, "}");
        } else if Opens(toks[start], '(') {
          token := WriteFunctionContents(start, ")");
        }
        Cat(if token < |toks| then [toks[token]] else []);
      } else {
        Cat([toks[start]]);
      }
    }

    method WriteNameToken(start: nat) returns (token: nat)
      requires start < |toks| && Valid()
      modifies this
      ensures Valid() && start <= token <= |toks|
      ensures var c := WriteName(env, old(Now()), toks[start..]);
        After(toks, token) == c.rest && Appended(old(glString), c.text, c.state)
      decreases |toks| - start, 0, 2
    {
      hide WriteIntrinsic;
      token := start;
      if TypeName(toks[start].text) != "" {
        Cat([Name(TypeName(toks[start].text))]);
      } else {
        var ok, last := WriteIntrinsicToken(start);
        if ok {
          token := last;
        } else {
          Cat([toks[start]]);
        }
      }
    }

    method WriteIntrinsicToken(start: nat) returns (ok: bool, token: nat)
      requires start < |toks| && Valid()
      modifies this
      ensures Valid() && start <= token <= |toks|
      ensures Outcome(old(glString), ok, token, WriteIntrinsic(env, old(Now()), toks[start..]))
      decreases |toks| - start, 0, 1
    {
      hide WriteMad, WriteMul, WriteSaturate, WriteSincos, WriteTexture;
      token, ok := start, true;
      var n := toks[start].text;
      if Renamed(n) != "" {
        Cat([Name(Renamed(n))]);
      } else if n == "mad" {
        ok, token := WriteMadCall(start);
      } else if n == "mul" {
        ok, token := WriteMulCall(start);
      } else if n == "saturate" {
        ok, token := WriteSaturateCall(start);
      } else if n == "sincos" {
        ok, token := WriteSincosCall(start);
      } else if IsTexture(env, n) {
        ok, token := WriteTextureCode(start);
      } else {
        ok := false;
      }
    }

    method WriteMadCall(start: nat) returns (ok: bool, token: nat)
      requires start < |toks| && Valid()
      modifies this
      ensures Valid() && start <= token <= |toks|
      ensures Outcome(old(glString), ok, token, WriteMad(env, old(Now()), toks[start..]))
      decreases |toks| - start, 0, 0
    {
      hide Contents, Next;
      token, curToken := start, start;
      ok := Advance();
      if !ok || toks[curToken].text != "(" {
        return false, token;
      }
      ghost var w := [OPEN];
      Cat([OPEN]);
      w := WriteOperand(old(glString), w, ",");
      w := CatAfter(old(glString), w, TIMES);
      var _ := Advance();
      w := WriteOperand(old(glString), w, ",");
      w := CatAfter(old(glString), w, PLUS);
      var _ := Advance();
      w := WriteOperand(old(glString), w, ")");
      w := CatAfter(old(glString), w, [CLOSE, CLOSE]);
      assert Tail(toks[curToken..]) == After(toks, curToken);
      token := curToken;
    }

    method WriteMulCall(start: nat) returns (ok: bool, token: nat)
      requires start < |toks| && Valid()
      modifies this
      ensures Valid() && start <= token <= |toks|
      ensures Outcome(old(glString), ok, token, WriteMul(env, old(Now()), toks[start..]))
      decreases |toks| - start, 0, 0
    {
      hide Contents, Next;
      token, curToken := start, start;
      ok := Advance();
      if !ok || toks[curToken].text != "(" {
        return false, token;
      }
      ghost var w := [OPEN];
      Cat([OPEN]);
      w := WriteOperand(old(glString), w, ",");
      w := CatAfter(old(glString), w, TIMES);
      var _ := Advance();
      w := WriteOperand(old(glString), w, ")");
      w := CatAfter(old(glString), w, [CLOSE, CLOSE]);
      assert Tail(toks[curToken..]) == After(toks, curToken);
      token := curToken;
    }

    method WriteSaturateCall(start: nat) returns (ok: bool, token: nat)
      requires start < |toks| && Valid()
      modifies this
      ensures Valid() && start <= token <= |toks|
      ensures Outcome(old(glString), ok, token, WriteSaturate(env, old(Now()), toks[start..]))
      decreases |toks| - start, 0, 0
    {
      hide Contents, Next;
      token, curToken := start, start;
      ok := Advance();
      if !ok || toks[curToken].text != "(" {
        return false, token;
      }
      ghost var w := [Name("clamp")];
      Cat([Name("clamp")]);
      w := WriteOperand(old(glString), w, ")");
      w := CatAfter(old(glString), w, CLAMPED);
      assert Tail(toks[curToken..]) == After(toks, curToken);
      token := curToken;
    }

    method WriteSincosCall(start: nat) returns (ok: bool, token: nat)
      requires start < |toks| && Valid()
      modifies this
      ensures Valid() && start <= token <= |toks|
      ensures Outcome(old(glString), ok, token, WriteSincos(env, old(Now()), toks[start..]))
      decreases |toks| - start, 0, 0
    {
      hide Contents, Digits, Next, WriteResults;
      token, curToken := start, start;
      ok := Advance();
      if !ok || toks[curToken].text != "(" {
        return false, token;
      }
      var v := SincosName(sincosCounter);
      sincosCounter := sincosCounter + 1;
      hide SincosName, Declares, SineOf, CosineOf;
      ghost var w := Declares(v);
      Cat(Declares(v));
      w := WriteOperand(old(glString), w, ",");
      w := CatAfter(old(glString), w, NEXT);
      ok := WriteResultsOf(v, old(glString), w);
      token := curToken;
    }

    /** The second half of that routine. */
    method WriteResultsOf(v: Token, ghost before: seq<Token>, ghost written: seq<Token>) returns (ok: bool)
      requires Valid() && glString == before + written
      modifies this
      ensures Valid() && old(curToken) <= curToken
      ensures Outcome(before, ok, curToken,
                      WriteResults(env, v, Chunk(written, old(Now()), old(toks[curToken..]))))
      decreases |toks| - curToken, 3
    {
      hide Contents, Next, SineOf, CosineOf;
      ghost var w := written;
      ok := Advance();
      if !ok {
        return false;
      }
      w := WriteOperand(before, w, ",");
      w := CatAfter(before, w, SineOf(v));
      ok := Advance();
      if !ok {
        return false;
      }
      w := WriteOperand(before, w, ")");
      w := CatAfter(before, w, CosineOf(v));
      assert Tail(toks[curToken..]) == After(toks, curToken);
    }

    method WriteTextureCode(start: nat) returns (ok: bool, token: nat)
      requires start < |toks| && Valid()
      modifies this
      ensures Valid() && start <= token <= |toks|
      ensures Outcome(old(glString), ok, token, WriteTexture(env, old(Now()), toks[start..]))
      decreases |toks| - start, 0, 0
    {
      hide Contents, WriteTextureCall, Next;
      token, curToken := start, start;
      ok := Advance();
      if !ok || toks[curToken].text != "." {
        return false, token;
      }
      ok := Advance();
      if !ok {
        return false, token;
      }
      ghost var w := TextOf(WriteTextureCall(env, Now(), toks[start].text, toks[curToken..]));
      ok := WriteTextureCallHead(toks[start].text);
      if !ok {
        return false, token;
      }
      ok := Advance();
      if !ok {
        return false, token;
      }
      w := WriteOperand(old(glString), w, ")");
      w := CatAfter(old(glString), w, [CLOSE]);
      assert Tail(toks[curToken..]) == After(toks, curToken);
      token := curToken;
    }

    /** On success the cursor is on the token in front of the coordinates. */
    method WriteTextureCallHead(texture: string) returns (ok: bool)
      requires curToken < |toks|
      modifies this
      ensures Valid() && old(curToken) <= curToken
      ensures var a := WriteTextureCall(env, old(Now()), texture, old(toks[curToken..]));
        match a
        case Unwritten(text, state) => !ok && Appended(old(glString), text, state)
        case Written(c) => ok && Appended(old(glString), c.text, c.state) && toks[curToken..] == c.rest
    {
      hide TypeOf, Next;
      var f := FunctionOf(TypeOf(env.params, texture), toks[curToken].text);
      hide FunctionOf;
      if f.NoFunction? {
        return false;
      }
      ok := Advance();
      if !ok || toks[curToken].text != "(" {
        return false;
      }
      if f.sampled {
        ok := Advance();
        if !ok {
          return false;
        }
        var id := SamplerId(env.samplers, toks[curToken].text);
        if id == |env.samplers| {
          return false;
        }
        ok := Advance();
        if !ok || toks[curToken].text != "," {
          return false;
        }
        samplerIds := samplerIds[texture := id];
      }
      Cat([Name(f.call), OPEN, Name(texture), COMMA, SPACE]);
    }
  }
}
