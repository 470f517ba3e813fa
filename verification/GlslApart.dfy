/** Renaming acts on every name and on every piece of other text for itself, and so the final text is right if and only
    if each of them is. */
module GlslApart {
  import opened Decimals
  import opened GlslWriter
  import opened GlslInterface
  import opened GlslLinking
  import opened GlslRenaming

  // ---------------------------------------------------------------------------------------------------------
  // One replacement

  /** No name reaches from the one text into the other. */
  predicate Apart(s: string, rest: string) {
    s == "" || rest == "" || EndsOpen(s) || StartsOpen(rest)
  }

  lemma NotAcross(name: string, s: string, rest: string)
    requires Word(name) && Apart(s, rest) && s != "" && name <= s + rest
    ensures name <= s
  {
    var text := s + rest;
    assert text[|s| - 1] == s[|s| - 1] && (rest == "" || text[|s|] == rest[0]);
  }

  lemma {:induction false} ReplaceApart(name: string, s: string, rest: string, into: string)
    requires Word(name) && Apart(s, rest)
    ensures Replace(s + rest, name, into) == Replace(s, name, into) + Replace(rest, name, into)
    decreases |s|
  {
    if s == "" {
      assert s + rest == rest;
    } else if name <= s + rest {
      NotAcross(name, s, rest);
      var t := s[|name|..];
      assert (s + rest)[|name|..] == t + rest;
      ReplaceApart(name, t, rest, into);
    } else {
      assert name <= s ==> name <= s + rest;
      assert (s + rest)[1..] == s[1..] + rest;
      ReplaceApart(name, s[1..], rest, into);
    }
  }

  /** How many characters no name holds. */
  function Opens(s: string): nat {
    if s == "" then 0 else (if WordChar(s[0]) then 0 else 1) + Opens(s[1..])
  }

  lemma {:induction false} OpensAppend(a: string, b: string)
    ensures Opens(a + b) == Opens(a) + Opens(b)
  {
    if a == "" {
      assert a + b == b;
    } else {
      assert (a + b)[1..] == a[1..] + b;
      OpensAppend(a[1..], b);
    }
  }

  lemma {:induction false} WordHasNone(s: string)
    ensures Word(s) <==> s != "" && Opens(s) == 0
  {
    if s != "" {
      WordHasNone(s[1..]);
      assert forall i :: 1 <= i < |s| ==> s[i] == s[1..][i - 1];
      assert s[1..] == "" || Word(s[1..]) <==> forall i :: 1 <= i < |s| ==> WordChar(s[i]);
    }
  }

  lemma {:induction false} ReplaceKeeps(name: string, s: string, into: string)
    requires Word(name) && Word(into)
    ensures Opens(Replace(s, name, into)) == Opens(s) && (Replace(s, name, into) == "" <==> s == "")
    decreases |s|
  {
    if s != "" {
      var n := if name <= s then |name| else 1;
      var first := if name <= s then into else [s[0]];
      ReplaceKeeps(name, s[n..], into);
      assert s == s[..n] + s[n..] && s[..n] == if name <= s then name else [s[0]];
      assert Replace(s, name, into) == first + Replace(s[n..], name, into);
      OpensAppend(s[..n], s[n..]);
      OpensAppend(first, Replace(s[n..], name, into));
      WordHasNone(name);
      WordHasNone(into);
    }
  }

  lemma EndsKept(name: string, s: string, into: string)
    requires Word(name) && Word(into)
    ensures StartsOpen(s) ==> StartsOpen(Replace(s, name, into))
    ensures EndsOpen(s) ==> EndsOpen(Replace(s, name, into))
  {
    if EndsOpen(s) {
      var t, last := s[..|s| - 1], s[|s| - 1..];
      assert s == t + last && last[1..] == "" && Replace(last, name, into) == last;
      ReplaceApart(name, t, last, into);
    }
  }

  // ---------------------------------------------------------------------------------------------------------
  // The replacements for all variables

  lemma NotEmpty(attribs: seq<Attrib>)
    requires AllFlattened(attribs)
    ensures forall i :: 0 <= i < |attribs| ==> attribs[i].name != ""
  {
    assert forall i :: 0 <= i < |attribs| ==> Flattened(attribs[i].name);
  }

  /** What becomes of a text when the first `k` variables have been renamed. */
  function After(stage: Stage, attribs: seq<Attrib>, s: string, k: nat): string
    requires AllFlattened(attribs) && k <= |attribs|
  {
    NotEmpty(attribs);
    TextAfter(stage, attribs, s, k)
  }

  lemma AfterStep(stage: Stage, attribs: seq<Attrib>, s: string, k: nat)
    requires AllFlattened(attribs) && 0 < k <= |attribs|
    ensures Word(attribs[k - 1].name) && Word(NewName(stage, attribs, k - 1))
    ensures After(stage, attribs, s, k)
         == Replace(After(stage, attribs, s, k - 1), attribs[k - 1].name, NewName(stage, attribs, k - 1))
  {
    assert forall i :: 0 <= i < |attribs| ==> Flattened(attribs[i].name);
    NewNameIs(stage, attribs, k - 1);
    hide NewName, Replace;
  }

  lemma AfterNone(stage: Stage, attribs: seq<Attrib>, s: string)
    requires AllFlattened(attribs)
    ensures After(stage, attribs, s, 0) == s
  {
  }

  lemma {:induction false} AfterKeeps(stage: Stage, attribs: seq<Attrib>, s: string, k: nat)
    requires AllFlattened(attribs) && k <= |attribs|
    ensures var r := After(stage, attribs, s, k);
      && Opens(r) == Opens(s) && (r == "" <==> s == "")
      && (StartsOpen(s) ==> StartsOpen(r)) && (EndsOpen(s) ==> EndsOpen(r))
  {
    hide *;
    if k == 0 {
      AfterNone(stage, attribs, s);
    } else {
      AfterStep(stage, attribs, s, k);
      var r := After(stage, attribs, s, k - 1);
      AfterKeeps(stage, attribs, s, k - 1);
      ReplaceKeeps(attribs[k - 1].name, r, NewName(stage, attribs, k - 1));
      EndsKept(attribs[k - 1].name, r, NewName(stage, attribs, k - 1));
    }
  }

  lemma StillApart(stage: Stage, attribs: seq<Attrib>, s: string, rest: string, k: nat)
    requires AllFlattened(attribs) && k <= |attribs| && Apart(s, rest)
    ensures Apart(After(stage, attribs, s, k), After(stage, attribs, rest, k))
  {
    hide After, Flattened, Opens, StartsOpen, EndsOpen;
    AfterKeeps(stage, attribs, s, k);
    AfterKeeps(stage, attribs, rest, k);
  }

  lemma {:induction false} AfterApart(stage: Stage, attribs: seq<Attrib>, s: string, rest: string, k: nat)
    requires AllFlattened(attribs) && k <= |attribs| && Apart(s, rest)
    ensures After(stage, attribs, s + rest, k)
         == After(stage, attribs, s, k) + After(stage, attribs, rest, k)
  {
    hide *;
    if k == 0 {
      AfterNone(stage, attribs, s);
      AfterNone(stage, attribs, rest);
      AfterNone(stage, attribs, s + rest);
    } else {
      AfterStep(stage, attribs, s, k);
      AfterStep(stage, attribs, rest, k);
      AfterStep(stage, attribs, s + rest, k);
      StillApart(stage, attribs, s, rest, k - 1);
      AfterApart(stage, attribs, s, rest, k - 1);
      ReplaceApart(attribs[k - 1].name, After(stage, attribs, s, k - 1), After(stage, attribs, rest, k - 1),
                   NewName(stage, attribs, k - 1));
    }
  }

  /** What becomes of a name, or of other text, that is renamed alone. */
  function Alone(stage: Stage, attribs: seq<Attrib>, segment: Segment): string
    requires AllFlattened(attribs)
  {
    After(stage, attribs, SegmentText(segment, NamesAfter(stage, attribs, 0)), |attribs|)
  }

  function EachAlone(stage: Stage, attribs: seq<Attrib>, segments: seq<Segment>): string
    requires AllFlattened(attribs)
  {
    if segments == [] then ""
    else Alone(stage, attribs, segments[0]) + EachAlone(stage, attribs, segments[1..])
  }

  lemma SegmentsApart(segments: seq<Segment>, names: seq<string>)
    requires Delimited(segments) && segments != []
    ensures Apart(SegmentText(segments[0], names), Spelling(segments[1..], names))
    ensures Delimited(segments[1..])
  {
    var rest := segments[1..];
    assert forall i :: 0 <= i < |rest| ==> rest[i] == segments[i + 1];
    if rest != [] {
      assert Boundary(segments[0], segments[0 + 1]);
    }
  }

  lemma {:induction false} NothingAfter(stage: Stage, attribs: seq<Attrib>, k: nat)
    requires AllFlattened(attribs) && k <= |attribs|
    ensures After(stage, attribs, "", k) == ""
  {
    AfterKeeps(stage, attribs, "", k);
  }

  /** The text with every name and every piece of other text renamed alone is the text renamed as a whole. */
  lemma {:induction false} RenamedAlone(stage: Stage, attribs: seq<Attrib>, segments: seq<Segment>)
    requires AllFlattened(attribs) && Delimited(segments)
    ensures After(stage, attribs, Spelling(segments, NamesAfter(stage, attribs, 0)), |attribs|)
         == EachAlone(stage, attribs, segments)
  {
    if segments == [] {
      NothingAfter(stage, attribs, |attribs|);
    } else {
      var names := NamesAfter(stage, attribs, 0);
      SegmentsApart(segments, names);
      RenamedAlone(stage, attribs, segments[1..]);
      hide After, SegmentText, NamesAfter, Delimited, AllFlattened, Apart;
      AfterApart(stage, attribs, SegmentText(segments[0], names), Spelling(segments[1..], names), |attribs|);
    }
  }

  lemma {:induction false} EachAloneIs(stage: Stage, attribs: seq<Attrib>, segments: seq<Segment>, names: seq<string>)
    requires AllFlattened(attribs)
    requires forall j :: 0 <= j < |segments| ==> Alone(stage, attribs, segments[j]) == SegmentText(segments[j], names)
    ensures EachAlone(stage, attribs, segments) == Spelling(segments, names)
  {
    if segments != [] {
      var rest := segments[1..];
      assert forall j :: 0 <= j < |rest| ==> rest[j] == segments[j + 1];
      EachAloneIs(stage, attribs, rest, names);
    }
    hide Alone, SegmentText;
  }

  // ---------------------------------------------------------------------------------------------------------
  // When the final text is right

  /** A name that is renamed alone becomes its new name, and other text stays as it is. */
  predicate Right(stage: Stage, attribs: seq<Attrib>, segment: Segment)
    requires AllFlattened(attribs)
  {
    Alone(stage, attribs, segment) == SegmentText(segment, NamesAfter(stage, attribs, |attribs|))
  }

  predicate AllRight(stage: Stage, attribs: seq<Attrib>, segments: seq<Segment>)
    requires AllFlattened(attribs)
  {
    forall j :: 0 <= j < |segments| ==> Right(stage, attribs, segments[j])
  }

  lemma OnlyWord(x: string, d: string, b: string)
    requires Opens(x + d) == Opens(x)
    ensures EndsOpen(x + d) || d + b == "" || StartsOpen(d + b) ==> d == ""
  {
    OpensAppend(x, d);
    WordHasNone(d);
    assert d == "" || ((x + d)[|x + d| - 1] == d[|d| - 1] && (d + b)[0] == d[0]);
    hide Opens;
  }

  lemma Between(x: string, a: string, y: string, b: string)
    requires x + a == y + b && |x| <= |y|
    ensures y == x + y[|x|..] && a == y[|x|..] + b
  {
    var text := x + a;
    assert text[..|x|] == x && (y + b)[..|x|] == y[..|x|];
    assert text[|x|..] == a && (y + b)[|x|..] == y[|x|..] + b;
  }

  /** Two ways to cut a text into two agree if they leave as many characters that no name holds in front. */
  lemma CutAlike(x: string, a: string, y: string, b: string)
    requires x + a == y + b && Opens(x) == Opens(y) && |x| <= |y|
    requires (EndsOpen(x) && EndsOpen(y)) || ((a == "" || StartsOpen(a)) && (b == "" || StartsOpen(b)))
    ensures x == y && a == b
  {
    hide Opens;
    Between(x, a, y, b);
    OnlyWord(x, y[|x|..], b);
  }

  lemma Cut(x: string, a: string, y: string, b: string)
    requires x + a == y + b && Opens(x) == Opens(y)
    requires (EndsOpen(x) && EndsOpen(y)) || ((a == "" || StartsOpen(a)) && (b == "" || StartsOpen(b)))
    ensures x == y && a == b
  {
    if |x| <= |y| {
      CutAlike(x, a, y, b);
    } else {
      CutAlike(y, b, x, a);
    }
  }

  lemma SegmentKeeps(stage: Stage, attribs: seq<Attrib>, segment: Segment)
    requires AllFlattened(attribs) && (segment.Ref? ==> segment.i < |attribs|)
    ensures var x, y := Alone(stage, attribs, segment), SegmentText(segment, NamesAfter(stage, attribs, |attribs|));
      && Opens(x) == Opens(y)
      && (segment.Plain? && EndsOpen(segment.text) ==> EndsOpen(x) && EndsOpen(y))
      && (segment.Plain? && StartsOpen(segment.text) ==> StartsOpen(x) && StartsOpen(y))
  {
    AfterKeeps(stage, attribs, SegmentText(segment, NamesAfter(stage, attribs, 0)), |attribs|);
    if segment.Ref? {
      assert Flattened(attribs[segment.i].name);
      NewNameIs(stage, attribs, segment.i);
      WordHasNone(attribs[segment.i].name);
      WordHasNone(NewName(stage, attribs, segment.i));
    }
    hide NewName, Opens, After, Word;
  }

  /** What comes next starts alike in both texts. */
  lemma NextStarts(stage: Stage, attribs: seq<Attrib>, segments: seq<Segment>)
    requires AllFlattened(attribs) && RefsBelow(segments, |attribs|)
    requires segments != [] ==> segments[0].Plain? && StartsOpen(segments[0].text)
    ensures var a, b := EachAlone(stage, attribs, segments), Spelling(segments, NamesAfter(stage, attribs, |attribs|));
      (a == "" || StartsOpen(a)) && (b == "" || StartsOpen(b))
  {
    if segments != [] {
      SegmentKeeps(stage, attribs, segments[0]);
    }
    hide Alone, Opens;
  }

  lemma {:induction false} EachAloneExactly(stage: Stage, attribs: seq<Attrib>, segments: seq<Segment>)
    requires AllFlattened(attribs) && Delimited(segments) && RefsBelow(segments, |attribs|)
    ensures EachAlone(stage, attribs, segments) == Spelling(segments, NamesAfter(stage, attribs, |attribs|))
        <==> AllRight(stage, attribs, segments)
  {
    if segments != [] {
      var rest := segments[1..];
      assert forall i :: 0 <= i < |rest| ==> rest[i] == segments[i + 1];
      EachAloneExactly(stage, attribs, rest);
      FirstRight(stage, attribs, segments);
      FirstCut(stage, attribs, segments);
      hide *;
    }
  }

  lemma FirstRight(stage: Stage, attribs: seq<Attrib>, segments: seq<Segment>)
    requires AllFlattened(attribs) && segments != []
    ensures AllRight(stage, attribs, segments)
        <==> Right(stage, attribs, segments[0]) && AllRight(stage, attribs, segments[1..])
  {
    var rest := segments[1..];
    assert forall i :: 0 <= i < |rest| ==> rest[i] == segments[i + 1];
    hide Right;
    if AllRight(stage, attribs, rest) {
      forall j | 1 <= j < |segments|
        ensures Right(stage, attribs, segments[j]) <==> Right(stage, attribs, rest[j - 1])
      {
      }
    }
  }

  lemma FirstCut(stage: Stage, attribs: seq<Attrib>, segments: seq<Segment>)
    requires AllFlattened(attribs) && Delimited(segments) && RefsBelow(segments, |attribs|) && segments != []
    ensures var names := NamesAfter(stage, attribs, |attribs|);
      EachAlone(stage, attribs, segments) == Spelling(segments, names)
      <==> Right(stage, attribs, segments[0])
           && EachAlone(stage, attribs, segments[1..]) == Spelling(segments[1..], names)
  {
    var names, rest := NamesAfter(stage, attribs, |attribs|), segments[1..];
    var x, y := Alone(stage, attribs, segments[0]), SegmentText(segments[0], names);
    var a, b := EachAlone(stage, attribs, rest), Spelling(rest, names);
    assert forall i :: 0 <= i < |rest| ==> rest[i] == segments[i + 1];
    SegmentKeeps(stage, attribs, segments[0]);
    assert rest != [] ==> Boundary(segments[0], segments[0 + 1]);
    if x + a == y + b {
      if !(EndsOpen(x) && EndsOpen(y)) {
        NextStarts(stage, attribs, rest);
      }
      Cut(x, a, y, b);
    }
    hide Opens, Alone, NamesAfter;
  }

  /** The final text has the new names exactly where the old ones were meant, and the other text as it was, if and only
      if every name alone becomes its new name and all other text alone stays. */
  lemma FinalExactly(stage: Stage, attribs: seq<Attrib>, segments: seq<Segment>)
    requires AllFlattened(attribs) && Delimited(segments) && RefsBelow(segments, |attribs|)
    ensures After(stage, attribs, Spelling(segments, NamesAfter(stage, attribs, 0)), |attribs|)
         == Spelling(segments, NamesAfter(stage, attribs, |attribs|))
        <==> AllRight(stage, attribs, segments)
  {
    RenamedAlone(stage, attribs, segments);
    EachAloneExactly(stage, attribs, segments);
    hide *;
  }

  // ---------------------------------------------------------------------------------------------------------
  // When a name is

  lemma ReplaceNothing(name: string, text: string, into: string)
    requires name != "" && Absent(name, text)
    ensures Replace(text, name, into) == text
  {
    ReplaceSkips(name, text, "", into);
    assert text + "" == text;
  }

  lemma {:induction false} TextStays(stage: Stage, attribs: seq<Attrib>, s: string, k: nat)
    requires AllFlattened(attribs) && k <= |attribs| && forall n :: 0 <= n < k ==> Absent(attribs[n].name, s)
    ensures After(stage, attribs, s, k) == s
  {
    if k > 0 {
      TextStays(stage, attribs, s, k - 1);
      assert Flattened(attribs[k - 1].name);
      hide NewName, Replace, Absent;
      ReplaceNothing(attribs[k - 1].name, s, NewName(stage, attribs, k - 1));
    }
  }

  lemma ReplaceFirst(name: string, t: string, into: string)
    requires name != "" && Absent(name, t)
    ensures Replace(name + t, name, into) == into + t
  {
    assert (name + t)[|name|..] == t;
    ReplaceNothing(name, t, into);
    hide Absent;
  }

  /** A flattened name does not stand in a new name with something behind it, unless it stands in what is behind it. */
  lemma {:induction false} NotInTail(name: string, given: string, t: string)
    requires Flattened(name) && Absent(name, t) && forall i :: 2 <= i < |given| ==> given[i] != 'v'
    requires given != "" ==> '0' <= given[|given| - 1] <= '9'
    ensures Absent(name, given + t)
    decreases |given|
  {
    var text := given + t;
    assert text + "" == text;
    if given == "" {
      assert text == t;
    } else {
      var rest := given[1..];
      assert text[1..] == rest + t && forall i :: 0 <= i < |rest| ==> rest[i] == given[i + 1];
      NotInTail(name, rest, t);
      NotAtStart(name, given, t);
      hide Flattened;
    }
  }

  lemma NotAtStart(name: string, given: string, t: string)
    requires Flattened(name) && given != "" && forall i :: 2 <= i < |given| ==> given[i] != 'v'
    requires '0' <= given[|given| - 1] <= '9'
    ensures !(name <= given + t)
  {
    var text, last := given + t, |given| - 1;
    var start := if "inputval_" <= name then "inputval_" else "outputval";
    NoDigit(start);
    assert forall i :: 0 <= i < 9 ==> name[i] == start[i];
    assert forall i :: 0 <= i <= last ==> text[i] == given[i];
    assert last > 5 ==> text[5] != 'v' && text[6] != 'v';
    assert '0' <= text[last] <= '9';
  }

  lemma NoDigit(start: string)
    requires start == "inputval_" || start == "outputval"
    ensures |start| == 9 && (start[5] == 'v' || start[6] == 'v')
    ensures forall i :: 0 <= i < 9 ==> !('0' <= start[i] <= '9')
  {
  }

  lemma FlattenedAt(attribs: seq<Attrib>, n: nat)
    requires AllFlattened(attribs) && n < |attribs|
    ensures Flattened(attribs[n].name)
  {
  }

  lemma {:induction false} TailAfter(stage: Stage, attribs: seq<Attrib>, i: nat, j: nat, t: string, k: nat)
    requires AllFlattened(attribs) && i <= j < |attribs| && attribs[j].name == attribs[i].name + t && k <= |attribs|
    requires forall n :: 0 <= n < i ==> Absent(attribs[n].name, attribs[j].name)
    requires forall n :: i <= n < |attribs| ==> Absent(attribs[n].name, t)
    ensures After(stage, attribs, attribs[j].name, k)
         == if k <= i then attribs[j].name else NewName(stage, attribs, i) + t
  {
    hide *;
    if k <= i {
      TextStays(stage, attribs, attribs[j].name, k);
    } else {
      var n, given := k - 1, NewName(stage, attribs, i);
      AfterStep(stage, attribs, attribs[j].name, k);
      FlattenedAt(attribs, n);
      TailAfter(stage, attribs, i, j, t, n);
      NewNameIs(stage, attribs, i);
      EndsInDigit(stage, attribs, i);
      if n == i {
        ReplaceFirst(attribs[i].name, t, given);
      } else {
        NotInTail(attribs[n].name, given, t);
        ReplaceNothing(attribs[n].name, given + t, NewName(stage, attribs, n));
      }
    }
  }

  lemma EndsInDigit(stage: Stage, attribs: seq<Attrib>, k: nat)
    requires k < |attribs|
    ensures var s := NewName(stage, attribs, k); s != "" && '0' <= s[|s| - 1] <= '9'
  {
    var digits := Digits(CountBefore(attribs, k, attribs[k].input));
    DigitsOnly(CountBefore(attribs, k, attribs[k].input));
    assert NewName(stage, attribs, k)[|NewName(stage, attribs, k)| - 1] == digits[|digits| - 1];
  }

  /** A name that begins with an earlier one ends up as the new name of that one with its own end behind it. That is
      right only if its own new name happens to be the same. */
  lemma TailStays(stage: Stage, attribs: seq<Attrib>, i: nat, j: nat, t: string)
    requires AllFlattened(attribs) && i < j < |attribs| && attribs[j].name == attribs[i].name + t
    requires forall n :: 0 <= n < i ==> Absent(attribs[n].name, attribs[j].name)
    requires forall n :: i <= n < |attribs| ==> Absent(attribs[n].name, t)
    ensures Alone(stage, attribs, Ref(j)) == NewName(stage, attribs, i) + t
    ensures Right(stage, attribs, Ref(j)) <==> NewName(stage, attribs, j) == NewName(stage, attribs, i) + t
  {
    TailAfter(stage, attribs, i, j, t, |attribs|);
    hide NewName, Absent, After;
  }

  /** What no name touches is right. */
  lemma UntouchedIsRight(stage: Stage, attribs: seq<Attrib>, segment: Segment)
    requires AllFlattened(attribs) && (segment.Ref? ==> segment.i < |attribs|)
    requires forall n :: 0 <= n < |attribs| ==> Untouched(attribs, segment, n)
    ensures Right(stage, attribs, segment)
  {
    if segment.Plain? {
      forall n | 0 <= n < |attribs| ensures Absent(attribs[n].name, segment.text) {
        assert Untouched(attribs, segment, n);
      }
      TextStays(stage, attribs, segment.text, |attribs|);
    } else {
      forall n | 0 <= n < segment.i ensures Absent(attribs[n].name, attribs[segment.i].name) {
        assert Untouched(attribs, segment, n);
      }
      NameIsRight(stage, attribs, segment.i);
    }
  }

  lemma NameIsRight(stage: Stage, attribs: seq<Attrib>, i: nat)
    requires AllFlattened(attribs) && i < |attribs|
    requires forall n :: 0 <= n < i ==> Absent(attribs[n].name, attribs[i].name)
    ensures Right(stage, attribs, Ref(i))
  {
    assert attribs[i].name == attribs[i].name + "";
    TailAfter(stage, attribs, i, i, "", |attribs|);
    assert NewName(stage, attribs, i) + "" == NewName(stage, attribs, i);
    hide NewName, Absent, After;
  }

  lemma UntangledIsRight(stage: Stage, attribs: seq<Attrib>, segments: seq<Segment>)
    requires AllFlattened(attribs) && RefsBelow(segments, |attribs|) && Untangled(attribs, segments)
    ensures AllRight(stage, attribs, segments)
  {
    forall j | 0 <= j < |segments| ensures Right(stage, attribs, segments[j]) {
      assert forall n :: 0 <= n < |attribs| ==> Untouched(attribs, segments[j], n);
      UntouchedIsRight(stage, attribs, segments[j]);
    }
  }

  /** It can be right by chance: the tenth input after the first may be called like the first and a zero. */
  lemma TenthByChance(stage: Stage, attribs: seq<Attrib>)
    requires AllFlattened(attribs) && |attribs| > 10 && forall n :: 0 <= n < |attribs| ==> attribs[n].input
    requires attribs[10].name == attribs[1].name + "0" && Absent(attribs[0].name, attribs[10].name)
    ensures Right(stage, attribs, Ref(10)) && !Untouched(attribs, Ref(10), 1)
  {
    forall n | 0 <= n < |attribs| ensures Absent(attribs[n].name, "0") {
      assert Flattened(attribs[n].name);
      TooLong(attribs[n].name, "0");
    }
    assert Flattened(attribs[1].name) && attribs[1].name <= attribs[10].name + "";
    CountAll(attribs, 1, true);
    CountAll(attribs, 10, true);
    assert Digits(10) == "1" + "0" && Digits(1) == "1";
    assert LinkPrefix(stage, true) + ("1" + "0") == LinkPrefix(stage, true) + "1" + "0";
    TailStays(stage, attribs, 1, 10, "0");
    hide After, Digits, LinkPrefix;
  }
}
