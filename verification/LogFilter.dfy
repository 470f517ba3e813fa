/** The log file's filter for repeated messages. */
module LogFilter {
  import opened Options

  const MAX_REPEATED_LINES := 30
  const MAX_CHAR_VARIATION := 255 * 3

  /** A message is known by the address of its format string and by the sum of the characters of its text. */
  datatype Message = Message(format: nat, charSum: int)

  /** The message that began the current run, and how often it was repeated since. */
  datatype State = State(last: Option<Message>, repeated: nat)

  const START := State(None, 0)

  predicate Repeats(s: State, m: Message) {
    && s.last.Some? && s.last.value.format == m.format
    && -MAX_CHAR_VARIATION < m.charSum - s.last.value.charSum < MAX_CHAR_VARIATION
  }

  function After(s: State, m: Message): State {
    if Repeats(s, m) then s.(repeated := s.repeated + 1) else State(Some(m), 0)
  }

  predicate Suppressed(s: State, m: Message) {
    Repeats(s, m) && s.repeated >= MAX_REPEATED_LINES
  }

  /** How many suppressed messages the current run has. */
  function Hidden(s: State): nat {
    if s.repeated > MAX_REPEATED_LINES then s.repeated - MAX_REPEATED_LINES else 0
  }

  /** The number of lines reported as repeated when a new run begins. */
  function Reported(s: State, m: Message): nat {
    if Repeats(s, m) then 0 else Hidden(s)
  }

  function Final(s: State, ms: seq<Message>): State
    decreases |ms|
  {
    if ms == [] then s else Final(After(s, ms[0]), ms[1..])
  }

  function PrintedOf(s: State, ms: seq<Message>): nat
    decreases |ms|
  {
    if ms == [] then 0 else (if Suppressed(s, ms[0]) then 0 else 1) + PrintedOf(After(s, ms[0]), ms[1..])
  }

  function ReportedOf(s: State, ms: seq<Message>): nat
    decreases |ms|
  {
    if ms == [] then 0 else Reported(s, ms[0]) + ReportedOf(After(s, ms[0]), ms[1..])
  }

  /** A text consists of signed characters, and its sum is what it is known by. */
  predicate IsText(text: seq<int>) {
    forall i :: 0 <= i < |text| ==> -128 <= text[i] < 128
  }

  function CharSum(text: seq<int>): int {
    if text == [] then 0 else text[0] + CharSum(text[1..])
  }

  /** In how many places two texts differ. */
  function Changes(a: seq<int>, b: seq<int>): nat
    requires |a| == |b|
  {
    if a == [] then 0 else (if a[0] == b[0] then 0 else 1) + Changes(a[1..], b[1..])
  }

  lemma {:induction false} SumsAreClose(a: seq<int>, b: seq<int>)
    requires |a| == |b| && IsText(a) && IsText(b)
    ensures -255 * Changes(a, b) <= CharSum(a) - CharSum(b) <= 255 * Changes(a, b)
  {
    if a != [] {
      assert forall i :: 0 <= i < |a| - 1 ==> a[1..][i] == a[i + 1] && b[1..][i] == b[i + 1];
      SumsAreClose(a[1..], b[1..]);
    }
  }

  /** Three changed characters are a repetition, unless all three change from one end of their range to the other. */
  lemma ThreeChangesRepeat(format: nat, a: seq<int>, b: seq<int>)
    requires |a| == |b| && IsText(a) && IsText(b) && Changes(a, b) <= 3
    ensures Repeats(State(Some(Message(format, CharSum(a))), 0), Message(format, CharSum(b)))
        <==> CharSum(b) - CharSum(a) != 3 * 255 && CharSum(a) - CharSum(b) != 3 * 255
  {
    SumsAreClose(a, b);
  }

  /** Every message is printed, or reported as repeated, or is still to be reported. */
  lemma {:induction false} MessagesAreConserved(s: State, ms: seq<Message>)
    ensures |ms| + Hidden(s) == PrintedOf(s, ms) + ReportedOf(s, ms) + Hidden(Final(s, ms))
    decreases |ms|
  {
    if ms != [] {
      MessagesAreConserved(After(s, ms[0]), ms[1..]);
    }
  }

  /** All messages belong to the run that `first` began. */
  ghost predicate IsRun(first: Message, ms: seq<Message>) {
    forall i :: 0 <= i < |ms| ==> Repeats(State(Some(first), 0), ms[i])
  }

  lemma {:induction false} RestOfRun(first: Message, repeated: nat, ms: seq<Message>)
    requires IsRun(first, ms)
    ensures var s := State(Some(first), repeated);
      && Final(s, ms) == s.(repeated := repeated + |ms|) && ReportedOf(s, ms) == 0
      && PrintedOf(s, ms) == if repeated >= 30 then 0 else if |ms| <= 30 - repeated then |ms| else 30 - repeated
    decreases |ms|
  {
    if ms != [] {
      assert Repeats(State(Some(first), 0), ms[0]) && forall i :: 0 <= i < |ms| - 1 ==> ms[1..][i] == ms[i + 1];
      RestOfRun(first, repeated + 1, ms[1..]);
    }
  }

  /** A run prints its first 31 messages. What is reported when it ends is the number of the others. */
  lemma RunPrintsAtMost31(s: State, first: Message, ms: seq<Message>, next: Message)
    requires !Repeats(s, first) && IsRun(first, ms) && !Repeats(State(Some(first), 0), next)
    ensures PrintedOf(s, [first] + ms) == if |ms| <= 30 then 1 + |ms| else 31
    ensures Reported(Final(s, [first] + ms), next) == if |ms| <= 30 then 0 else |ms| - 30
  {
    assert ([first] + ms)[0] == first && ([first] + ms)[1..] == ms;
    RestOfRun(first, 0, ms);
  }

  class Log {
    var lastMsg: Option<nat>
    var lastCharSum: int
    var repCount: nat
    var unfiltered: bool
    var lines: seq<Message>   // messages in the file
    var notes: nat            // the sum of the numbers in the notes about repeated lines

    ghost function Abstract(): State
      reads this
    {
      State(if lastMsg.Some? then Some(Message(lastMsg.value, lastCharSum)) else None, repCount)
    }

    constructor ()
      ensures Abstract() == START && lines == [] && notes == 0 && !unfiltered
    {
      lastMsg, lastCharSum, repCount, unfiltered, lines, notes := None, 0, 0, false, [], 0;
    }

    /** Without the filter, nothing is remembered. */
    method TooManyRepeatedEntries(m: Message) returns (tooMany: bool)
      modifies `lastMsg, `lastCharSum, `repCount, `notes
      ensures tooMany <==> !unfiltered && Suppressed(old(Abstract()), m)
      ensures Abstract() == if unfiltered then old(Abstract()) else After(old(Abstract()), m)
      ensures notes == old(notes) + if unfiltered then 0 else Reported(old(Abstract()), m)
    {
      if unfiltered {
        return false;
      }
      if lastMsg == Some(m.format) {
        var diff := if m.charSum > lastCharSum then m.charSum - lastCharSum else lastCharSum - m.charSum;
        if diff < MAX_CHAR_VARIATION {
          tooMany := repCount >= MAX_REPEATED_LINES;
          repCount := repCount + 1;
          return;
        }
      }
      if repCount > MAX_REPEATED_LINES {
        notes := notes + (repCount - MAX_REPEATED_LINES);
      }
      lastMsg := Some(m.format);
      lastCharSum := m.charSum;
      repCount := 0;
      tooMany := false;
    }

    method DoLog(m: Message)
      modifies this
      ensures unfiltered == old(unfiltered)
      ensures lines == old(lines) + if !unfiltered && Suppressed(old(Abstract()), m) then [] else [m]
      ensures Abstract() == if unfiltered then old(Abstract()) else After(old(Abstract()), m)
      ensures notes == old(notes) + if unfiltered then 0 else Reported(old(Abstract()), m)
    {
      var tooMany := TooManyRepeatedEntries(m);
      if !tooMany {
        lines := lines + [m];
      }
    }

    /** Over any run of the program with the filter on, no message is lost. */
    method LogAll(ms: seq<Message>)
      requires !unfiltered
      modifies this
      ensures Abstract() == Final(old(Abstract()), ms)
      ensures |lines| - |old(lines)| == PrintedOf(old(Abstract()), ms)
      ensures |ms| + Hidden(old(Abstract())) == |lines| - |old(lines)| + (notes - old(notes)) + Hidden(Abstract())
    {
      MessagesAreConserved(Abstract(), ms);
      ghost var s := Abstract();
      for i := 0 to |ms|
        invariant !unfiltered && Final(Abstract(), ms[i..]) == Final(s, ms)
        invariant |lines| - |old(lines)| + PrintedOf(Abstract(), ms[i..]) == PrintedOf(s, ms)
        invariant notes - old(notes) + ReportedOf(Abstract(), ms[i..]) == ReportedOf(s, ms)
      {
        assert ms[i..][0] == ms[i] && ms[i..][1..] == ms[i + 1..];
        DoLog(ms[i]);
      }
    }
  }
}
