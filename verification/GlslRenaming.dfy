/** Which texts the textual renaming of interface variables gets right: a condition on the text before any of it. */
module GlslRenaming {
  import opened Decimals
  import opened GlslInterface
  import opened GlslLinking

  predicate WordChar(c: char) {
    'a' <= c <= 'z' || 'A' <= c <= 'Z' || '0' <= c <= '9' || c == '_'
  }

  predicate Word(s: string) {
    s != "" && forall i :: 0 <= i < |s| ==> WordChar(s[i])
  }

  predicate AllWords(names: seq<string>) {
    forall i :: 0 <= i < |names| ==> Word(names[i])
  }

  predicate StartsOpen(s: string) {
    s != "" && !WordChar(s[0])
  }

  predicate EndsOpen(s: string) {
    s != "" && !WordChar(s[|s| - 1])
  }

  predicate Boundary(a: Segment, b: Segment) {
    (a.Plain? && EndsOpen(a.text)) || (b.Plain? && StartsOpen(b.text))
  }

  /** Between two segments there is a character that no name holds. */
  predicate Delimited(segments: seq<Segment>) {
    forall i :: 0 <= i < |segments| - 1 ==> Boundary(segments[i], segments[i + 1])
  }

  predicate DelimitedBut(segments: seq<Segment>, n: nat) {
    forall i :: 0 <= i < |segments| - 1 ==> segments[i] == Ref(n) || Boundary(segments[i], segments[i + 1])
  }

  predicate RefsBelow(segments: seq<Segment>, n: nat) {
    forall i :: 0 <= i < |segments| && segments[i].Ref? ==> segments[i].i < n
  }

  /** The name does not stand in the text. */
  predicate Absent(name: string, text: string) {
    NotIn(name, text, "")
  }

  // ---------------------------------------------------------------------------------------------------------
  // Names do not reach across the ends of segments

  lemma {:induction false} NotInAlone(name: string, s: string, rest: string)
    requires Word(name) && (rest == "" || StartsOpen(rest) || s == "" || EndsOpen(s))
    ensures NotIn(name, s, rest) <==> Absent(name, s)
  {
    if s != "" {
      NotInAlone(name, s[1..], rest);
      assert s + "" == s;
      if name <= s + rest && |name| > |s| {
        assert name[|s| - 1] == s[|s| - 1] && name[|s|] == rest[0];
      }
      assert name <= s ==> name <= s + rest;
      assert name <= s + rest && |name| <= |s| ==> name <= s;
    }
  }

  predicate Elsewhere(segments: seq<Segment>, names: seq<string>, n: nat)
    requires n < |names|
  {
    forall i :: 0 <= i < |segments| && segments[i] != Ref(n) ==> Absent(names[n], SegmentText(segments[i], names))
  }

  /** With boundaries between the segments, it is enough to look into each of them. */
  lemma {:induction false} MeantIsElsewhere(segments: seq<Segment>, names: seq<string>, n: nat)
    requires n < |names| && AllWords(names) && DelimitedBut(segments, n) && RefsBelow(segments, |names|)
    ensures OnlyMeant(segments, names, n) <==> Elsewhere(segments, names, n)
  {
    if segments != [] {
      var rest := segments[1..];
      assert forall i :: 0 <= i < |rest| ==> rest[i] == segments[i + 1];
      assert DelimitedBut(rest, n) && RefsBelow(rest, |names|);
      MeantIsElsewhere(rest, names, n);
      if segments[0] != Ref(n) {
        FirstIsAlone(segments, names, n);
      }
      ElsewhereStep(segments, names, n);
      hide Elsewhere, NotIn, Boundary, Word;
    }
  }

  lemma ElsewhereStep(segments: seq<Segment>, names: seq<string>, n: nat)
    requires n < |names| && segments != []
    ensures Elsewhere(segments, names, n)
        <==> (segments[0] != Ref(n) ==> Absent(names[n], SegmentText(segments[0], names)))
             && Elsewhere(segments[1..], names, n)
  {
    hide Absent, SegmentText;
    var rest := segments[1..];
    assert forall i :: 0 <= i < |rest| ==> rest[i] == segments[i + 1];
    if Elsewhere(rest, names, n) {
      forall i | 1 <= i < |segments| && segments[i] != Ref(n)
        ensures Absent(names[n], SegmentText(segments[i], names))
      {
        assert rest[i - 1] == segments[i];
      }
    }
  }

  lemma FirstIsAlone(segments: seq<Segment>, names: seq<string>, n: nat)
    requires n < |names| && AllWords(names) && DelimitedBut(segments, n) && RefsBelow(segments, |names|)
    requires segments != [] && segments[0] != Ref(n)
    ensures NotIn(names[n], SegmentText(segments[0], names), Spelling(segments[1..], names))
        <==> Absent(names[n], SegmentText(segments[0], names))
  {
    var s, rest := SegmentText(segments[0], names), Spelling(segments[1..], names);
    assert Word(names[n]);
    if |segments| > 1 {
      assert Boundary(segments[0], segments[0 + 1]);
      if segments[1].Plain? && StartsOpen(segments[1].text) {
        assert segments[1..][0] == segments[1];
        assert StartsOpen(rest);
      }
    }
    hide NotIn, Absent, Spelling;
    NotInAlone(names[n], s, rest);
  }

  // ---------------------------------------------------------------------------------------------------------
  // New names

  /** The names the generator flattens members into. */
  predicate Flattened(name: string) {
    Word(name) && ("inputval_" <= name || "outputval" <= name)
  }

  lemma DigitsOnly(n: nat)
    ensures |Digits(n)| > 0 && forall i :: 0 <= i < |Digits(n)| ==> '0' <= Digits(n)[i] <= '9'
  {
  }

  /** In a new name `v` can only be the second letter. */
  lemma NewNameIs(stage: Stage, attribs: seq<Attrib>, k: nat)
    requires k < |attribs|
    ensures var s := NewName(stage, attribs, k);
      Word(s) && forall i :: 2 <= i < |s| ==> s[i] != 'v'
  {
    var a := attribs[k];
    DigitsOnly(CountBefore(attribs, k, a.input));
    LinkPrefixIs(stage, a.input);
    hide Digits, LinkPrefix, CountBefore;
  }

  lemma LinkPrefixIs(stage: Stage, input: bool)
    ensures var s := LinkPrefix(stage, input);
      Word(s) && forall i :: 2 <= i < |s| ==> s[i] != 'v'
  {
  }

  lemma NoSuchLetter(name: string, s: string, i: nat)
    requires 2 <= i < |name| && name[i] == 'v' && forall j :: 2 <= j < |s| ==> s[j] != 'v'
    ensures Absent(name, s)
  {
    if s != "" {
      assert s + "" == s;
      NoSuchLetter(name, s[1..], i);
    }
  }

  /** So no flattened name stands in a new one. */
  lemma FlattenedIsOld(stage: Stage, attribs: seq<Attrib>, k: nat, name: string)
    requires k < |attribs| && Flattened(name)
    ensures Absent(name, NewName(stage, attribs, k))
  {
    NewNameIs(stage, attribs, k);
    assert "inputval_" <= name ==> name[5] == "inputval_"[5] == 'v';
    assert "outputval" <= name ==> name[6] == "outputval"[6] == 'v';
    NoSuchLetter(name, NewName(stage, attribs, k), if "inputval_" <= name then 5 else 6);
    hide NewName, Absent;
  }

  // ---------------------------------------------------------------------------------------------------------
  // The condition

  predicate AllFlattened(attribs: seq<Attrib>) {
    forall i :: 0 <= i < |attribs| ==> Flattened(attribs[i].name)
  }

  /** The name does not stand in other text, nor in the name of a variable that is renamed later. */
  predicate Untouched(attribs: seq<Attrib>, segment: Segment, n: nat)
    requires n < |attribs|
  {
    match segment
    case Plain(s) => Absent(attribs[n].name, s)
    case Ref(i) => n < i < |attribs| ==> Absent(attribs[n].name, attribs[i].name)
  }

  predicate Untangled(attribs: seq<Attrib>, segments: seq<Segment>) {
    forall n, j :: 0 <= n < |attribs| && 0 <= j < |segments| ==> Untouched(attribs, segments[j], n)
  }

  lemma UntouchedIs(stage: Stage, attribs: seq<Attrib>, segment: Segment, n: nat)
    requires n < |attribs| && AllFlattened(attribs) && (segment.Ref? ==> segment.i < |attribs|)
    ensures var names := NamesAfter(stage, attribs, n);
      (segment != Ref(n) ==> Absent(names[n], SegmentText(segment, names))) <==> Untouched(attribs, segment, n)
  {
    if segment.Ref? && segment.i < n {
      FlattenedIsOld(stage, attribs, segment.i, attribs[n].name);
    }
    hide NewName, Absent;
  }

  lemma NamesAreWords(stage: Stage, attribs: seq<Attrib>, k: nat)
    requires k <= |attribs| && AllFlattened(attribs)
    ensures AllWords(NamesAfter(stage, attribs, k))
  {
    forall i | 0 <= i < |attribs|
      ensures Word(NamesAfter(stage, attribs, k)[i])
    {
      NewNameIs(stage, attribs, i);
      assert Flattened(attribs[i].name);
    }
    hide NewName, Word;
  }

  /** Whenever it comes to a variable its name occurs only where it is meant, if and only if from the start no name
      stands in other text or in a later name. */
  lemma RenamableExactly(stage: Stage, attribs: seq<Attrib>, segments: seq<Segment>)
    requires AllFlattened(attribs) && Delimited(segments) && RefsBelow(segments, |attribs|)
    ensures Renamable(stage, attribs, segments) <==> Untangled(attribs, segments)
  {
    forall n | 0 <= n < |attribs|
      ensures attribs[n].name != "" && n < |NamesAfter(stage, attribs, n)|
      ensures OnlyMeant(segments, NamesAfter(stage, attribs, n), n)
          <==> forall j :: 0 <= j < |segments| ==> Untouched(attribs, segments[j], n)
    {
      assert Flattened(attribs[n].name);
      MeantIsUntouched(stage, attribs, segments, n);
    }
    hide OnlyMeant, Untouched, NamesAfter, Flattened;
  }

  lemma MeantIsUntouched(stage: Stage, attribs: seq<Attrib>, segments: seq<Segment>, n: nat)
    requires AllFlattened(attribs) && Delimited(segments) && RefsBelow(segments, |attribs|) && n < |attribs|
    ensures OnlyMeant(segments, NamesAfter(stage, attribs, n), n)
        <==> forall j :: 0 <= j < |segments| ==> Untouched(attribs, segments[j], n)
  {
    var names := NamesAfter(stage, attribs, n);
    NamesAreWords(stage, attribs, n);
    assert DelimitedBut(segments, n);
    MeantIsElsewhere(segments, names, n);
    hide NamesAfter, OnlyMeant, Absent, Untouched, SegmentText, AllFlattened;
    forall j | 0 <= j < |segments|
      ensures segments[j] != Ref(n) ==> Absent(names[n], SegmentText(segments[j], names))
           <==> Untouched(attribs, segments[j], n)
    {
      UntouchedIs(stage, attribs, segments[j], n);
    }
  }

  // ---------------------------------------------------------------------------------------------------------
  // What stands in no part of a text

  lemma {:induction false} AbsentInBoth(name: string, s: string, rest: string)
    requires NotIn(name, s, rest) && Absent(name, rest)
    ensures Absent(name, s + rest)
  {
    if s == "" {
      assert s + rest == rest;
    } else {
      assert (s + rest)[1..] == s[1..] + rest && s + rest + "" == s + rest;
      AbsentInBoth(name, s[1..], rest);
    }
  }

  /** A name that is meant nowhere does not stand in the text. */
  lemma {:induction false} MeantNowhere(segments: seq<Segment>, names: seq<string>, n: nat)
    requires n < |names| && OnlyMeant(segments, names, n) && RefsBelow(segments, n)
    ensures Absent(names[n], Spelling(segments, names))
  {
    if segments != [] {
      var rest := segments[1..];
      assert forall i :: 0 <= i < |rest| ==> rest[i] == segments[i + 1];
      MeantNowhere(rest, names, n);
      AbsentInBoth(names[n], SegmentText(segments[0], names), Spelling(rest, names));
    }
    hide NotIn;
  }

  lemma {:induction false} SpellingSame(segments: seq<Segment>, a: seq<string>, b: seq<string>)
    requires RefsBelow(segments, |a|) && a <= b
    ensures Spelling(segments, a) == Spelling(segments, b)
  {
    if segments != [] {
      var rest := segments[1..];
      assert forall i :: 0 <= i < |rest| ==> rest[i] == segments[i + 1];
      SpellingSame(rest, a, b);
      SegmentSame(segments[0], a, b);
      hide SegmentText;
    }
  }

  lemma SegmentSame(segment: Segment, a: seq<string>, b: seq<string>)
    requires a <= b && (segment.Ref? ==> segment.i < |a|)
    ensures SegmentText(segment, a) == SegmentText(segment, b)
  {
  }

  /** What stands in none of the parts does not stand in the text. */
  lemma NotInParts(ss: seq<Segment>, x: Attrib, p: string, q: string)
    requires Word(p) && Word(q) && Word(x.name) && Delimited(ss) && RefsBelow(ss, 2) && Untangled([x], ss)
    requires Absent(x.name, p) && Absent(x.name, q)
    ensures Absent(x.name, Spelling(ss, [p, q]))
  {
    var names := [p, q, x.name];
    hide Absent, Word, OnlyMeant, Spelling, Boundary;
    forall i | 0 <= i < |ss| && ss[i] != Ref(2)
      ensures Absent(names[2], SegmentText(ss[i], names))
    {
      assert Untouched([x], ss[i], 0);
    }
    assert AllWords(names) && DelimitedBut(ss, 2);
    MeantIsElsewhere(ss, names, 2);
    MeantNowhere(ss, names, 2);
    SpellingSame(ss, [p, q], names);
  }

  lemma {:induction false} TooLong(name: string, text: string)
    requires |name| >= |text| && name != text && name != ""
    ensures Absent(name, text)
  {
    if text != "" {
      assert text + "" == text;
      TooLong(name, text[1..]);
    }
  }
}
