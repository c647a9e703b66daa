/**
 Following an application's log: each poll brings a snapshot of text, and only what lies past the
 byte offset printed so far is printed. Text is UTF-8 as section 4 of RFC 3629 defines it.
 */
module LogFollow {

  type Byte = b: int | 0 <= b < 256

  // ---- UTF-8 ------------------------------------------------------------

  predicate Continues(b: Byte) {
    0x80 <= b <= 0xBF
  }

  /** How many bytes a character that starts with this byte has; 0 when none starts with it. */
  function LengthFrom(lead: Byte): nat {
    if lead <= 0x7F then 1
    else if 0xC2 <= lead <= 0xDF then 2
    else if 0xE0 <= lead <= 0xEF then 3
    else if 0xF0 <= lead <= 0xF4 then 4
    else 0
  }

  /** Which second byte may follow: no overlong forms, no surrogates, nothing past U+10FFFF. */
  predicate SecondFits(lead: Byte, second: Byte) {
    && Continues(second)
    && (lead == 0xE0 ==> second >= 0xA0)
    && (lead == 0xED ==> second <= 0x9F)
    && (lead == 0xF0 ==> second >= 0x90)
    && (lead == 0xF4 ==> second <= 0x8F)
  }

  predicate StartsCharacter(text: seq<Byte>)
    requires text != []
  {
    var n := LengthFrom(text[0]);
    && 1 <= n <= |text|
    && (n >= 2 ==> SecondFits(text[0], text[1]))
    && (forall k | 2 <= k < n :: Continues(text[k]))
  }

  predicate Valid(text: seq<Byte>)
    decreases |text|
  {
    text == [] || (StartsCharacter(text) && Valid(text[LengthFrom(text[0])..]))
  }

  /** A Unicode scalar value: any code point but a surrogate. */
  predicate Scalar(c: int) {
    0 <= c <= 0xD7FF || 0xE000 <= c <= 0x10FFFF
  }

  /** The bytes of a character, by the table of section 3 of RFC 3629. */
  function Encode(c: int): seq<Byte>
    requires Scalar(c)
  {
    if c < 0x80 then [c]
    else if c < 0x800 then [0xC0 + c / 64, 0x80 + c % 64]
    else if c < 0x10000 then [0xE0 + c / 4096, 0x80 + c / 64 % 64, 0x80 + c % 64]
    else [0xF0 + c / 262144, 0x80 + c / 4096 % 64, 0x80 + c / 64 % 64, 0x80 + c % 64]
  }

  ghost predicate Scalars(cs: seq<int>) {
    forall i | 0 <= i < |cs| :: Scalar(cs[i])
  }

  function EncodeAll(cs: seq<int>): seq<Byte>
    requires Scalars(cs)
  {
    if cs == [] then [] else Encode(cs[0]) + EncodeAll(cs[1..])
  }

  /** The character the text starts with. */
  function FirstCharacter(text: seq<Byte>): int
    requires text != [] && StartsCharacter(text)
  {
    match LengthFrom(text[0])
    case 1 => text[0]
    case 2 => Two(text[0], text[1])
    case 3 => Three(text[0], text[1], text[2])
    case _ => Four(text[0], text[1], text[2], text[3])
  }

  function Two(a: int, b: int): int {
    (a - 0xC0) * 64 + (b - 0x80)
  }

  function Three(a: int, b: int, c: int): int {
    (a - 0xE0) * 4096 + (b - 0x80) * 64 + (c - 0x80)
  }

  function Four(a: int, b: int, c: int, d: int): int {
    (a - 0xF0) * 262144 + (b - 0x80) * 4096 + (c - 0x80) * 64 + (d - 0x80)
  }

  lemma OneIsEncoded(a: Byte)
    requires LengthFrom(a) == 1
    ensures Scalar(a) && Encode(a) == [a]
  {
  }

  lemma TwoIsEncoded(a: Byte, b: Byte)
    requires LengthFrom(a) == 2 && Continues(b)
    ensures Scalar(Two(a, b)) && Encode(Two(a, b)) == [a, b]
  {
  }

  lemma ThreeIsEncoded(a: Byte, b: Byte, c: Byte)
    requires LengthFrom(a) == 3 && SecondFits(a, b) && Continues(c)
    ensures Scalar(Three(a, b, c)) && Encode(Three(a, b, c)) == [a, b, c]
  {
    ThreeInRange(a, b, c);
    hide SecondFits, LengthFrom;
    ThreeDigits(a - 0xE0, b - 0x80, c - 0x80);
  }

  lemma ThreeInRange(a: Byte, b: Byte, c: Byte)
    requires LengthFrom(a) == 3 && SecondFits(a, b) && Continues(c)
    ensures Scalar(Three(a, b, c)) && 0x800 <= Three(a, b, c) < 0x10000 && 0xE0 <= a
  {
  }

  lemma ThreeDigits(a: int, b: int, c: int)
    requires 0 <= a && 0 <= b < 64 && 0 <= c < 64
    ensures var n := a * 4096 + b * 64 + c; n / 4096 == a && n / 64 % 64 == b && n % 64 == c
  {
    var n := a * 4096 + b * 64 + c;
    LastDigit(n, a * 64 + b, c);
    LastDigit(a * 64 + b, a, b);
    NestedDivision(n);
  }

  lemma FourIsEncoded(a: Byte, b: Byte, c: Byte, d: Byte)
    requires LengthFrom(a) == 4 && SecondFits(a, b) && Continues(c) && Continues(d)
    ensures Scalar(Four(a, b, c, d)) && Encode(Four(a, b, c, d)) == [a, b, c, d]
  {
    FourInRange(a, b, c, d);
    hide SecondFits, LengthFrom;
    FourDigits(a - 0xF0, b - 0x80, c - 0x80, d - 0x80);
  }

  lemma FourInRange(a: Byte, b: Byte, c: Byte, d: Byte)
    requires LengthFrom(a) == 4 && SecondFits(a, b) && Continues(c) && Continues(d)
    ensures Scalar(Four(a, b, c, d)) && 0x10000 <= Four(a, b, c, d) && 0xF0 <= a
  {
  }

  lemma FourDigits(a: int, b: int, c: int, d: int)
    requires 0 <= a && 0 <= b < 64 && 0 <= c < 64 && 0 <= d < 64
    ensures var n := a * 262144 + b * 4096 + c * 64 + d;
            n / 262144 == a && n / 4096 % 64 == b && n / 64 % 64 == c && n % 64 == d
  {
    var n := a * 262144 + b * 4096 + c * 64 + d;
    LastDigit(n, a * 4096 + b * 64 + c, d);
    LastDigit(a * 4096 + b * 64 + c, a * 64 + b, c);
    LastDigit(a * 64 + b, a, b);
    NestedDivision(n);
  }

  lemma LastDigit(n: int, rest: int, last: int)
    requires 0 <= last < 64 && n == rest * 64 + last
    ensures n / 64 == rest && n % 64 == last
  {
  }

  lemma NestedDivision(n: int)
    ensures n / 4096 == n / 64 / 64 && n / 262144 == n / 64 / 64 / 64
  {
  }

  lemma EncodedStarts(c: int, rest: seq<Byte>)
    requires Scalar(c)
    ensures StartsCharacter(Encode(c) + rest) && LengthFrom(Encode(c)[0]) == |Encode(c)|
  {
  }

  lemma StartIsEncoded(text: seq<Byte>)
    requires text != [] && StartsCharacter(text)
    ensures 1 <= LengthFrom(text[0]) <= |text|
    ensures Scalar(FirstCharacter(text)) && Encode(FirstCharacter(text)) == text[..LengthFrom(text[0])]
  {
    hide Two, Three, Four, Encode;
    match LengthFrom(text[0])
    case 1 => OneIsEncoded(text[0]);
    case 2 => TwoIsEncoded(text[0], text[1]);
    case 3 => ThreeIsEncoded(text[0], text[1], text[2]);
    case _ => FourIsEncoded(text[0], text[1], text[2], text[3]);
  }

  lemma {:induction false} EncodedIsValid(cs: seq<int>)
    requires Scalars(cs)
    ensures Valid(EncodeAll(cs))
    decreases |cs|
  {
    if cs != [] {
      hide StartsCharacter, LengthFrom, Encode;
      var first, rest := Encode(cs[0]), EncodeAll(cs[1..]);
      EncodedStarts(cs[0], rest);
      EncodedIsValid(cs[1..]);
      assert (first + rest)[0] == first[0] && (first + rest)[|first|..] == rest;
    }
  }

  lemma {:induction false} ValidIsEncoded(text: seq<Byte>) returns (cs: seq<int>)
    requires Valid(text)
    ensures Scalars(cs) && EncodeAll(cs) == text
    decreases |text|
  {
    hide StartsCharacter, LengthFrom, Encode, FirstCharacter, Valid, EncodeAll;
    cs := [];
    if text == [] {
      EncodeNothing();
    } else {
      ValidFirst(text);
      StartIsEncoded(text);
      var first, n := FirstCharacter(text), LengthFrom(text[0]);
      var rest := ValidIsEncoded(text[n..]);
      EncodeOneMore(first, rest);
      cs := [first] + rest;
      assert text == text[..n] + text[n..];
    }
  }

  lemma EncodeNothing()
    ensures EncodeAll([]) == []
  {
  }

  lemma ValidFirst(text: seq<Byte>)
    requires text != []
    ensures StartsCharacter(text) ==> 1 <= LengthFrom(text[0]) <= |text|
    ensures Valid(text) <==> StartsCharacter(text) && Valid(text[LengthFrom(text[0])..])
  {
  }

  lemma EncodeOneMore(c: int, rest: seq<int>)
    requires Scalar(c) && Scalars(rest)
    ensures Scalars([c] + rest) && EncodeAll([c] + rest) == Encode(c) + EncodeAll(rest)
  {
    hide Encode, Scalar;
    var all := [c] + rest;
    assert forall i | 0 < i < |all| :: all[i] == rest[i - 1];
    assert all[1..] == rest;
  }

  /** Text is valid exactly when it is the encoding of some characters. */
  lemma ValidExactlyWhen(text: seq<Byte>)
    ensures Valid(text) <==> exists cs :: Scalars(cs) && EncodeAll(cs) == text
  {
    if Valid(text) {
      var cs := ValidIsEncoded(text);
    }
    if exists cs :: Scalars(cs) && EncodeAll(cs) == text {
      var cs :| Scalars(cs) && EncodeAll(cs) == text;
      EncodedIsValid(cs);
    }
  }

  /** `is_char_boundary`, as it looks at one byte. */
  predicate IsBoundary(text: seq<Byte>, offset: nat) {
    offset == 0 || offset == |text| || (offset < |text| && !Continues(text[offset]))
  }

  /** Whether a character starts the text is decided by its own bytes. */
  lemma StartIsLocal(text: seq<Byte>, offset: nat)
    requires 0 < offset <= |text|
    ensures StartsCharacter(text[..offset]) <==> StartsCharacter(text) && LengthFrom(text[0]) <= offset
    ensures StartsCharacter(text) ==> 1 <= LengthFrom(text[0]) <= |text|
  {
    var front, n := text[..offset], LengthFrom(text[0]);
    assert front[0] == text[0];
    if 2 <= n <= offset {
      assert front[1] == text[1] && forall k | 2 <= k < n :: front[k] == text[k];
    }
  }

  /** Text in front of valid text is cut off cleanly: both parts are valid together or not at all. */
  lemma {:induction false} ValidPrefixSplits(text: seq<Byte>, offset: nat)
    requires offset <= |text| && Valid(text[..offset])
    ensures Valid(text) <==> Valid(text[offset..])
    decreases offset
  {
    if offset == 0 {
      assert text[0..] == text;
    } else {
      hide StartsCharacter, LengthFrom, Valid;
      var front := text[..offset];
      assert front != [] && front[0] == text[0];
      ValidFirst(front);
      ValidFirst(text);
      StartIsLocal(text, offset);
      var n := LengthFrom(text[0]);
      SliceShifts(text, n, offset);
      ValidPrefixSplits(text[n..], offset - n);
    }
  }

  lemma SliceShifts(text: seq<Byte>, n: nat, offset: nat)
    requires n <= offset <= |text|
    ensures text[..offset][n..] == text[n..][..offset - n] && text[n..][offset - n..] == text[offset..]
  {
  }

  /** Inside valid text, the one-byte test finds exactly the places where both sides are valid. */
  lemma {:induction false} BoundaryMeansValidParts(text: seq<Byte>, offset: nat)
    requires Valid(text) && offset <= |text|
    ensures IsBoundary(text, offset) <==> Valid(text[..offset])
    ensures IsBoundary(text, offset) ==> Valid(text[offset..])
    decreases |text|
  {
    if offset == 0 {
      assert text[0..] == text;
    } else {
      var n := LengthFrom(text[0]);
      var front := text[..offset];
      assert front[0] == text[0];
      if offset < n {
        assert !StartsCharacter(front);
        assert Continues(text[offset]);
      } else {
        var rest := text[n..];
        BoundaryMeansValidParts(rest, offset - n);
        assert front[n..] == rest[..offset - n];
        assert StartsCharacter(front);
        assert rest[offset - n..] == text[offset..];
        if n < offset < |text| { assert rest[offset - n] == text[offset]; }
        if offset == n && offset < |text| { assert StartsCharacter(rest) && !Continues(rest[0]); }
      }
    }
  }

  /** Valid text that continues valid text has a boundary where the first ends. */
  lemma ExtensionHasBoundary(text: seq<Byte>, longer: seq<Byte>)
    requires Valid(text) && Valid(longer) && text <= longer
    ensures IsBoundary(longer, |text|)
  {
    assert longer[..|text|] == text;
    BoundaryMeansValidParts(longer, |text|);
  }

  // ---- Printing what is new ---------------------------------------------

  /** Where printing resumes: at the saved offset, or from the start when that is no place in this text. */
  function Resume(value: seq<Byte>, offset: nat): (from: nat)
    ensures from <= |value|
  {
    if offset > |value| || !IsBoundary(value, offset) then 0 else offset
  }

  /** The bytes printed so far and the saved offset. */
  class Printer {
    var offset: nat
    var printed: seq<Byte>

    constructor ()
      ensures offset == 0 && printed == []
    {
      offset, printed := 0, [];
    }

    /** `print_delta`: the slice it takes is always between characters, so it is text. */
    method PrintDelta(value: seq<Byte>)
      requires Valid(value)
      modifies this
      ensures offset == |value|
      ensures printed == old(printed) + value[Resume(value, old(offset))..]
      ensures Valid(value[Resume(value, old(offset))..])
    {
      if offset > |value| || !IsBoundary(value, offset) {
        offset := 0;
      }
      BoundaryMeansValidParts(value, offset);
      printed := printed + value[offset..];
      offset := |value|;
    }
  }

  /** What following these snapshots prints, starting from a saved offset. */
  function Printed(offset: nat, snapshots: seq<seq<Byte>>): seq<Byte>
    decreases |snapshots|
  {
    if snapshots == [] then []
    else snapshots[0][Resume(snapshots[0], offset)..] + Printed(|snapshots[0]|, snapshots[1..])
  }

  /** The polling loop of `logs --follow` for one stream. */
  method Follow(snapshots: seq<seq<Byte>>) returns (printed: seq<Byte>)
    requires forall i | 0 <= i < |snapshots| :: Valid(snapshots[i])
    ensures printed == Printed(0, snapshots)
  {
    hide Valid, Resume;
    var printer := new Printer();
    var polled := 0;
    assert snapshots[0..] == snapshots;
    while polled < |snapshots|
      invariant 0 <= polled <= |snapshots|
      invariant Printed(0, snapshots) == printer.printed + Printed(printer.offset, snapshots[polled..])
    {
      assert snapshots[polled..][1..] == snapshots[polled + 1..];
      printer.PrintDelta(snapshots[polled]);
      polled := polled + 1;
    }
    assert snapshots[polled..] == [];
    return printer.printed;
  }

  /** Snapshots of text, each continuing the one before. */
  ghost predicate Extending(snapshots: seq<seq<Byte>>) {
    && (forall i | 0 <= i < |snapshots| :: Valid(snapshots[i]))
    && (forall i | 0 <= i < |snapshots| - 1 :: snapshots[i] <= snapshots[i + 1])
  }

  /** Following snapshots that continue each other never resets and prints exactly the last of them. */
  lemma {:induction false} FollowPrintsTheLast(printed: seq<Byte>, snapshots: seq<seq<Byte>>)
    requires Valid(printed) && Extending(snapshots) && (snapshots != [] ==> printed <= snapshots[0])
    ensures printed + Printed(|printed|, snapshots) == if snapshots == [] then printed else snapshots[|snapshots| - 1]
    ensures snapshots != [] ==> Resume(snapshots[0], |printed|) == |printed|
    decreases |snapshots|
  {
    hide Valid, Resume, Extending;
    if snapshots != [] {
      ExtendingTail(snapshots);
      ResumesAtItsEnd(printed, snapshots[0]);
      FollowPrintsTheLast(snapshots[0], snapshots[1..]);
      var rest := Printed(|snapshots[0]|, snapshots[1..]);
      assert Printed(|printed|, snapshots) == snapshots[0][|printed|..] + rest;
      DeltaCompletes(printed, snapshots[0], rest);
    }
  }

  lemma ResumesAtItsEnd(printed: seq<Byte>, longer: seq<Byte>)
    requires Valid(printed) && Valid(longer) && printed <= longer
    ensures Resume(longer, |printed|) == |printed|
  {
    ExtensionHasBoundary(printed, longer);
  }

  lemma DeltaCompletes(printed: seq<Byte>, longer: seq<Byte>, rest: seq<Byte>)
    requires printed <= longer
    ensures printed + (longer[|printed|..] + rest) == longer + rest
  {
  }

  lemma ExtendingTail(snapshots: seq<seq<Byte>>)
    requires Extending(snapshots) && snapshots != []
    ensures Extending(snapshots[1..]) && Valid(snapshots[0])
    ensures |snapshots| > 1 ==> snapshots[0] <= snapshots[1..][0]
  {
    hide Valid;
    var rest := snapshots[1..];
    assert forall i | 0 <= i < |rest| :: rest[i] == snapshots[i + 1];
  }

  // ---- What the daemon sends --------------------------------------------

  const NEWLINE: Byte := 0x0A

  /** The lines the daemon keeps of a log. */
  const LOG_LINES := 1000

  function Lines(log: seq<Byte>): nat
    decreases |log|
  {
    if log == [] then 0
    else (if log[0] == NEWLINE || |log| == 1 then 1 else 0) + Lines(log[1..])
  }

  function DropLines(log: seq<Byte>, n: nat): seq<Byte>
    decreases |log|
  {
    if n == 0 || log == [] then log
    else DropLines(log[1..], if log[0] == NEWLINE then n - 1 else n)
  }

  /** `tail -n`: the last `n` lines, a last one without a newline included. */
  function Tail(log: seq<Byte>, n: nat): seq<Byte> {
    if Lines(log) <= n then log else DropLines(log, Lines(log) - n)
  }

  lemma {:induction false} DropLinesCounts(log: seq<Byte>, n: nat)
    requires n <= Lines(log)
    ensures Lines(DropLines(log, n)) == Lines(log) - n
    decreases |log|
  {
    if n > 0 && |log| > 1 {
      DropLinesCounts(log[1..], if log[0] == NEWLINE then n - 1 else n);
    }
  }

  /** The tail has as many lines as were asked for, or all there are. */
  lemma TailHasItsLines(log: seq<Byte>, n: nat)
    ensures Lines(Tail(log, n)) == if Lines(log) <= n then Lines(log) else n
  {
    if Lines(log) > n { DropLinesCounts(log, Lines(log) - n); }
  }

  lemma {:induction false} DropLinesShortens(log: seq<Byte>, n: nat)
    requires n > 0 && log != []
    ensures |DropLines(log, n)| < |log|
    decreases |log|
  {
    if |log| > 1 && (n > 1 || log[0] != NEWLINE) {
      DropLinesShortens(log[1..], if log[0] == NEWLINE then n - 1 else n);
    }
  }

  lemma {:induction false} LinesGrow(log: seq<Byte>, longer: seq<Byte>)
    requires log <= longer
    ensures Lines(log) <= Lines(longer)
    decreases |log|
  {
    if log != [] {
      assert log[1..] <= longer[1..];
      LinesGrow(log[1..], longer[1..]);
      if |log| == 1 && log[0] != NEWLINE && |longer| > 1 { SomeLine(longer[1..]); }
    }
  }

  lemma {:induction false} SomeLine(log: seq<Byte>)
    requires log != []
    ensures Lines(log) >= 1
    decreases |log|
  {
    if |log| > 1 { SomeLine(log[1..]); }
  }

  /** A way a log may be polled while it grows to `log`. */
  ghost predicate Schedule(polls: seq<seq<Byte>>, log: seq<Byte>) {
    polls != [] && polls[|polls| - 1] == log && Extending(polls)
  }

  function Tails(polls: seq<seq<Byte>>, n: nat): seq<seq<Byte>> {
    seq(|polls|, i requires 0 <= i < |polls| => Tail(polls[i], n))
  }

  lemma {:induction false} SchedulePrefixes(polls: seq<seq<Byte>>, i: nat)
    requires Extending(polls) && i < |polls|
    ensures polls[i] <= polls[|polls| - 1]
    decreases |polls| - i
  {
    if i < |polls| - 1 { SchedulePrefixes(polls, i + 1); }
  }

  lemma ShortLogIsSentWhole(polls: seq<seq<Byte>>, log: seq<Byte>, n: nat)
    requires Schedule(polls, log) && Lines(log) <= n
    ensures Tails(polls, n) == polls
  {
    forall i | 0 <= i < |polls| ensures Tail(polls[i], n) == polls[i] {
      SchedulePrefixes(polls, i);
      LinesGrow(polls[i], log);
    }
  }

  /**
   Following prints the whole log, however it is polled as long as no poll fails, exactly when the log has no more
   lines than the daemon sends.
   */
  lemma FollowIsCompleteExactlyWhen(log: seq<Byte>, n: nat)
    requires Valid(log)
    ensures (forall polls | Schedule(polls, log) :: Printed(0, Tails(polls, n)) == log) <==> Lines(log) <= n
  {
    if Lines(log) <= n {
      forall polls | Schedule(polls, log) ensures Printed(0, Tails(polls, n)) == log {
        ShortLogIsSentWhole(polls, log, n);
        FollowPrintsTheLast([], polls);
        assert [] + Printed(0, polls) == Printed(0, polls);
      }
    } else {
      var once := [log];
      assert Schedule(once, log);
      assert Tails(once, n) == [Tail(log, n)];
      assert Printed(0, [Tail(log, n)]) == Tail(log, n)[0..] + Printed(|Tail(log, n)|, []);
      DropLinesShortens(log, Lines(log) - n);
    }
  }

  // ---- From one poll to the next ----------------------------------------

  /** How much of the log the daemon does not send. */
  function Dropped(log: seq<Byte>, n: nat): int {
    |log| - |Tail(log, n)|
  }

  /** What the next poll prints of a log that was `log` when it was last polled. */
  function Delta(log: seq<Byte>, longer: seq<Byte>, n: nat): seq<Byte> {
    var tail := Tail(longer, n);
    tail[Resume(tail, |Tail(log, n)|)..]
  }

  /** The saved offset is no place in the next tail, so printing starts over. */
  predicate Resets(log: seq<Byte>, longer: seq<Byte>, n: nat) {
    |Tail(log, n)| > |Tail(longer, n)| || !IsBoundary(Tail(longer, n), |Tail(log, n)|)
  }

  lemma {:induction false} DropLinesIsEnd(log: seq<Byte>, n: nat)
    ensures |DropLines(log, n)| <= |log| && DropLines(log, n) == log[|log| - |DropLines(log, n)|..]
    decreases |log|
  {
    if n > 0 && log != [] {
      DropLinesIsEnd(log[1..], if log[0] == NEWLINE then n - 1 else n);
    }
  }

  lemma TailIsEnd(log: seq<Byte>, n: nat)
    ensures 0 <= Dropped(log, n) <= |log| && Tail(log, n) == log[Dropped(log, n)..]
  {
    hide DropLines, Lines;
    if Lines(log) > n { DropLinesIsEnd(log, Lines(log) - n); }
  }

  /** The lines at the front of a log are the same lines of every longer log. */
  lemma {:induction false} FrontStays(log: seq<Byte>, longer: seq<Byte>, n: nat)
    requires log <= longer && n < Lines(log)
    ensures |log| - |DropLines(log, n)| == |longer| - |DropLines(longer, n)|
    decreases |log|
  {
    if n > 0 {
      assert log[1..] <= longer[1..];
      FrontStays(log[1..], longer[1..], if log[0] == NEWLINE then n - 1 else n);
    }
  }

  lemma {:induction false} DropsMore(log: seq<Byte>, few: nat, many: nat)
    requires few < many && few < Lines(log)
    ensures |DropLines(log, many)| < |DropLines(log, few)|
    decreases |log|
  {
    if few == 0 {
      DropLinesShortens(log, many);
    } else {
      var less := if log[0] == NEWLINE then 1 else 0;
      DropsMore(log[1..], few - less, many - less);
    }
  }

  /** The daemon drops more of the longer log exactly when that has too many lines and a new one among them. */
  lemma DroppedStaysExactlyWhen(log: seq<Byte>, longer: seq<Byte>, n: nat)
    requires log <= longer && n > 0
    ensures Dropped(longer, n) == Dropped(log, n) <==> Lines(longer) <= n || Lines(longer) == Lines(log)
  {
    hide Lines, DropLines;
    LinesGrow(log, longer);
    if Lines(longer) > n {
      if Lines(log) > n {
        FrontStays(log, longer, Lines(log) - n);
        if Lines(longer) > Lines(log) { DropsMore(longer, Lines(log) - n, Lines(longer) - n); }
      } else {
        SomeLineThere(longer);
        DropLinesShortens(longer, Lines(longer) - n);
      }
    }
  }

  lemma SomeLineThere(log: seq<Byte>)
    ensures Lines(log) > 0 ==> log != []
  {
  }

  /** Two ends of one text are equal exactly when they are equally long. */
  lemma EndsAreEqual(text: seq<Byte>, a: nat, b: nat)
    requires a <= |text| && b <= |text|
    ensures text[a..] == text[b..] <==> a == b
  {
    assert |text[a..]| == |text| - a && |text[b..]| == |text| - b;
  }

  /** In valid text, an end that begins where the daemon's did before has the old end in front. */
  lemma SameFrontDoesNotReset(log: seq<Byte>, longer: seq<Byte>, n: nat)
    requires Valid(log) && Valid(longer) && log <= longer && Dropped(longer, n) == Dropped(log, n)
    ensures !Resets(log, longer, n)
  {
    hide Tail, Valid;
    TailIsEnd(log, n);
    TailIsEnd(longer, n);
    ExtensionHasBoundary(log, longer);
    var d := Dropped(log, n);
    assert |Tail(log, n)| == |log| - d && Tail(longer, n) == longer[d..];
    if |log| < |longer| { assert Tail(longer, n)[|log| - d] == longer[|log|]; }
  }

  /**
   A poll prints exactly the output that is new since the last one, exactly when the log has no more lines than the
   daemon sends, or no new line; or, by accident, when the saved offset is no place in the new tail and that begins
   just where the log ended before.
   */
  lemma PollPrintsTheNewExactlyWhen(log: seq<Byte>, longer: seq<Byte>, n: nat)
    requires Valid(log) && Valid(longer) && log <= longer && n > 0
    ensures Delta(log, longer, n) == longer[|log|..]
            <==> || Lines(longer) <= n
                 || Lines(longer) == Lines(log)
                 || (Resets(log, longer, n) && Dropped(longer, n) == |log|)
  {
    hide Tail, Valid, Lines;
    TailIsEnd(log, n);
    TailIsEnd(longer, n);
    DroppedStaysExactlyWhen(log, longer, n);
    var d := Dropped(longer, n);
    var from := Resume(Tail(longer, n), |Tail(log, n)|);
    assert Delta(log, longer, n) == longer[d..][from..] == longer[d + from..];
    EndsAreEqual(longer, d + from, |log|);
    if Dropped(longer, n) == Dropped(log, n) { SameFrontDoesNotReset(log, longer, n); }
  }

  /** After a reply that was empty, the whole tail is printed again: that is only the new output if the tail begins with it. */
  lemma PollAfterNothingPrintsTheNewExactlyWhen(log: seq<Byte>, longer: seq<Byte>, n: nat)
    requires log <= longer
    ensures Tail(longer, n)[Resume(Tail(longer, n), 0)..] == longer[|log|..] <==> Dropped(longer, n) == |log|
  {
    hide Tail;
    TailIsEnd(longer, n);
    EndsAreEqual(longer, Dropped(longer, n), |log|);
    assert Tail(longer, n)[0..] == Tail(longer, n);
  }

  // ---- Over any number of polls -----------------------------------------

  /** A poll of the log as it was then. The job that reads it may fail, and the daemon then sends nothing. */
  datatype Poll = Poll(log: seq<Byte>, answered: bool)

  function Sent(p: Poll, n: nat): seq<Byte> {
    if p.answered then Tail(p.log, n) else []
  }

  function Sents(polls: seq<Poll>, n: nat): seq<seq<Byte>> {
    seq(|polls|, i requires 0 <= i < |polls| => Sent(polls[i], n))
  }

  function Logs(polls: seq<Poll>): seq<seq<Byte>> {
    seq(|polls|, i requires 0 <= i < |polls| => polls[i].log)
  }

  /** Polls of one log while it grows from `log`. */
  ghost predicate Grows(log: seq<Byte>, polls: seq<Poll>) {
    Extending([log] + Logs(polls))
  }

  lemma {:induction false} ExtendingIsChain(all: seq<seq<Byte>>, i: nat, j: nat)
    requires Extending(all) && i <= j < |all|
    ensures all[i] <= all[j]
    decreases j - i
  {
    hide Valid;
    if i < j { ExtendingIsChain(all, i + 1, j); }
  }

  lemma GrowsTail(log: seq<Byte>, polls: seq<Poll>)
    requires Grows(log, polls) && polls != []
    ensures Valid(log) && Valid(polls[0].log) && log <= polls[0].log && Grows(polls[0].log, polls[1..]) && Grows(log, polls[1..])
  {
    hide Valid;
    var all := [log] + Logs(polls);
    assert all[0] == log && all[1] == polls[0].log && all[0] <= all[0 + 1];
    GrowsFrom(all, [polls[0].log] + Logs(polls[1..]), 1);
    GrowsFrom(all, [log] + Logs(polls[1..]), 0);
  }

  /** Leaving out polls after one of the first two, it is still one growing log. */
  lemma GrowsFrom(all: seq<seq<Byte>>, some: seq<seq<Byte>>, first: nat)
    requires Extending(all) && first <= 1 < |all| && |some| == |all| - 1
    requires some[0] == all[first] && forall i | 1 <= i < |some| :: some[i] == all[i + 1]
    ensures Extending(some)
  {
    hide Valid;
    forall i | 0 <= i < |some| - 1 ensures some[i] <= some[i + 1] {
      ExtendingIsChain(all, if i == 0 then first else i + 1, i + 2);
    }
  }

  /** The offset saved after a reply that brought the tail of `log`, or, if the last one was empty, zero. */
  function OffsetAfter(log: seq<Byte>, direct: bool, n: nat): nat {
    if direct then |Tail(log, n)| else 0
  }

  /** Every reply that is answered prints exactly what is new since the last that was, which brought `log`. */
  predicate EachPrintsTheNew(log: seq<Byte>, direct: bool, polls: seq<Poll>, n: nat)
    decreases |polls|
  {
    polls != [] ==>
      var tail := Sent(polls[0], n);
      if !polls[0].answered then EachPrintsTheNew(log, false, polls[1..], n)
      else
        && log <= polls[0].log && tail[Resume(tail, OffsetAfter(log, direct, n))..] == polls[0].log[|log|..]
        && EachPrintsTheNew(polls[0].log, true, polls[1..], n)
  }

  /** What a caller could look at: numbers of lines, and, after an empty reply, whether the tail begins with the new. */
  predicate LinesFit(log: seq<Byte>, direct: bool, polls: seq<Poll>, n: nat)
    decreases |polls|
  {
    polls != [] ==>
      if !polls[0].answered then LinesFit(log, false, polls[1..], n)
      else
        && (if direct then
              || Lines(polls[0].log) <= n || Lines(polls[0].log) == Lines(log)
              || (Resets(log, polls[0].log, n) && Dropped(polls[0].log, n) == |log|)
            else Dropped(polls[0].log, n) == |log|)
        && LinesFit(polls[0].log, true, polls[1..], n)
  }

  /** The log at the last poll that was answered. */
  function LastAnswered(log: seq<Byte>, polls: seq<Poll>): seq<Byte>
    decreases |polls|
  {
    if polls == [] then log else LastAnswered(if polls[0].answered then polls[0].log else log, polls[1..])
  }

  /** Over any number of polls, answered or not: every answer prints exactly the new output, exactly when the lines fit. */
  lemma {:induction false} EachPrintsTheNewExactlyWhen(log: seq<Byte>, direct: bool, polls: seq<Poll>, n: nat)
    requires Grows(log, polls) && n > 0
    ensures EachPrintsTheNew(log, direct, polls, n) <==> LinesFit(log, direct, polls, n)
    decreases |polls|
  {
    hide Tail, Lines, Resume, Resets, Dropped, Valid, Grows;
    if polls != [] {
      GrowsTail(log, polls);
      if !polls[0].answered {
        EachPrintsTheNewExactlyWhen(log, false, polls[1..], n);
      } else {
        EachPrintsTheNewExactlyWhen(polls[0].log, true, polls[1..], n);
        if direct {
          PollPrintsTheNewExactlyWhen(log, polls[0].log, n);
        } else {
          PollAfterNothingPrintsTheNewExactlyWhen(log, polls[0].log, n);
        }
      }
    }
  }

  lemma {:induction false} PrintedIsNew(log: seq<Byte>, direct: bool, polls: seq<Poll>, n: nat)
    requires Grows(log, polls) && EachPrintsTheNew(log, direct, polls, n)
    ensures log <= LastAnswered(log, polls)
    ensures Printed(OffsetAfter(log, direct, n), Sents(polls, n)) == LastAnswered(log, polls)[|log|..]
    decreases |polls|
  {
    hide Valid, Grows, Printed, Sents, Tail, Resume;
    if polls == [] {
      NoPollPrints(OffsetAfter(log, direct, n), n);
    } else {
      GrowsTail(log, polls);
      if polls[0].answered {
        PrintedIsNew(polls[0].log, true, polls[1..], n);
        hide EachPrintsTheNew;
        PrintedFirst(OffsetAfter(log, direct, n), polls, n);
        EndsJoin(log, polls[0].log, LastAnswered(log, polls));
      } else {
        PrintedIsNew(log, false, polls[1..], n);
        hide EachPrintsTheNew;
        FailedPollPrintsNothing(OffsetAfter(log, direct, n), polls, n);
      }
    }
  }

  lemma NoPollPrints(offset: nat, n: nat)
    ensures Printed(offset, Sents([], n)) == []
  {
    assert Sents([], n) == [];
  }

  lemma FailedPollPrintsNothing(offset: nat, polls: seq<Poll>, n: nat)
    requires polls != [] && !polls[0].answered
    ensures Printed(offset, Sents(polls, n)) == Printed(0, Sents(polls[1..], n))
  {
    hide Printed, Sents, Resume;
    PrintedFirst(offset, polls, n);
    EmptyPrintsNothing(offset);
  }

  lemma PrintedFirst(offset: nat, polls: seq<Poll>, n: nat)
    requires polls != []
    ensures var first := Sent(polls[0], n);
            Printed(offset, Sents(polls, n)) == first[Resume(first, offset)..] + Printed(|first|, Sents(polls[1..], n))
  {
    hide Resume, Sent;
    assert Sents(polls, n)[1..] == Sents(polls[1..], n);
  }

  lemma EndsJoin(a: seq<Byte>, b: seq<Byte>, c: seq<Byte>)
    requires a <= b <= c
    ensures b[|a|..] + c[|b|..] == c[|a|..]
  {
  }

  lemma EmptyPrintsNothing(offset: nat)
    ensures Resume([], offset) == 0
  {
  }

  /**
   So following a log whose lines fit prints the tail it began with and then all output that is new, once, whatever
   grows between the polls and whichever of them fail.
   */
  lemma FollowLosesNothing(log: seq<Byte>, polls: seq<Poll>, n: nat)
    requires Grows(log, polls) && n > 0 && LinesFit(log, true, polls, n)
    ensures log <= LastAnswered(log, polls)
    ensures Printed(0, [Tail(log, n)] + Sents(polls, n)) == Tail(log, n) + LastAnswered(log, polls)[|log|..]
  {
    hide Tail, Valid, Lines, LinesFit, EachPrintsTheNew, Resume, Grows;
    EachPrintsTheNewExactlyWhen(log, true, polls, n);
    PrintedIsNew(log, true, polls, n);
    var all := [Tail(log, n)] + Sents(polls, n);
    assert all[1..] == Sents(polls, n) && all[0] == Tail(log, n);
    FirstPrintsAll(Tail(log, n));
  }

  lemma FirstPrintsAll(text: seq<Byte>)
    ensures text[Resume(text, 0)..] == text
  {
  }

  lemma PrintedNext(offset: nat, first: seq<Byte>, rest: seq<seq<Byte>>)
    ensures Printed(offset, [first] + rest) == first[Resume(first, offset)..] + Printed(|first|, rest)
  {
    hide Resume;
    assert ([first] + rest)[1..] == rest;
  }

  lemma NothingBetween(offset: nat, rest: seq<seq<Byte>>)
    ensures Printed(offset, [[]] + rest) == Printed(0, rest)
  {
    PrintedNext(offset, [], rest);
    EmptyPrintsNothing(offset);
  }

  lemma PrintedOnce(text: seq<Byte>)
    ensures Printed(0, [text]) == text
  {
    PrintedNext(0, text, []);
    FirstPrintsAll(text);
    assert [text] + [] == [text];
  }

  lemma PrintedAroundNothing(text: seq<Byte>)
    ensures Printed(0, [text] + ([[]] + [text])) == text + text
  {
    hide Printed, Resume;
    PrintedNext(0, text, [[]] + [text]);
    FirstPrintsAll(text);
    NothingBetween(|text|, [text]);
    PrintedOnce(text);
  }

  lemma SameThrice(log: seq<Byte>)
    requires Valid(log)
    ensures Extending([log, log, log])
  {
    hide Valid;
  }

  /** A log that is polled, polled in vain, and polled again. */
  function AroundFailure(log: seq<Byte>): seq<Poll> {
    [Poll(log, true), Poll(log, false), Poll(log, true)]
  }

  /** One failed poll prints a log twice, however short it is: it is sent whole before and after. */
  lemma FailedPollPrintsTwice(log: seq<Byte>, n: nat)
    requires Valid(log) && Lines(log) <= n
    ensures FailingSchedule(AroundFailure(log), log) && Printed(0, Sents(AroundFailure(log), n)) == log + log
  {
    hide Valid, Lines, Printed, Extending;
    SameThrice(log);
    assert Logs(AroundFailure(log)) == [log, log, log];
    var none: seq<Byte> := [];
    assert Sents(AroundFailure(log), n) == [log] + ([none] + [log]);
    PrintedAroundNothing(log);
  }

  /** Every way to poll a log while it grows, any poll but the last of which may fail. */
  ghost predicate FailingSchedule(polls: seq<Poll>, log: seq<Byte>) {
    polls != [] && polls[|polls| - 1] == Poll(log, true) && Extending(Logs(polls))
  }

  lemma EmptyLogPrintsNothing(polls: seq<Poll>, n: nat)
    requires FailingSchedule(polls, [])
    ensures Printed(0, Sents(polls, n)) == []
  {
    hide Valid, Printed;
    forall i | 0 <= i < |polls| ensures Sent(polls[i], n) == [] {
      SchedulePrefixes(Logs(polls), i);
      assert polls[i].log == [];
    }
    NothingPrinted(Sents(polls, n));
  }

  lemma LongLogIsCut(log: seq<Byte>, n: nat)
    requires Valid(log) && Lines(log) > n
    ensures FailingSchedule([Poll(log, true)], log) && Printed(0, Sents([Poll(log, true)], n)) != log
  {
    hide Valid, Lines, DropLines;
    var once := [Poll(log, true)];
    assert Logs(once) == [log];
    var sent: seq<seq<Byte>> := [Tail(log, n)];
    assert Sents(once, n) == sent && sent[1..] == [];
    FirstPrintsAll(Tail(log, n));
    assert Printed(0, sent) == Tail(log, n) + Printed(|Tail(log, n)|, sent[1..]);
    SomeLineThere(log);
    DropLinesShortens(log, Lines(log) - n);
  }

  /** If polls may fail, only the empty log is printed right however it is polled. */
  lemma FailingFollowIsCompleteExactlyWhen(log: seq<Byte>, n: nat)
    requires Valid(log)
    ensures (forall polls: seq<Poll> | FailingSchedule(polls, log) :: Printed(0, Sents(polls, n)) == log) <==> log == []
  {
    hide Valid, Printed, Sents, FailingSchedule, AroundFailure, Lines;
    if log == [] {
      forall polls: seq<Poll> | FailingSchedule(polls, log) ensures Printed(0, Sents(polls, n)) == log {
        EmptyLogPrintsNothing(polls, n);
      }
    } else if Lines(log) <= n {
      FailedPollPrintsTwice(log, n);
      assert |log + log| > |log|;
    } else {
      LongLogIsCut(log, n);
    }
  }

  lemma {:induction false} NothingPrinted(snapshots: seq<seq<Byte>>)
    requires forall i | 0 <= i < |snapshots| :: snapshots[i] == []
    ensures Printed(0, snapshots) == []
    decreases |snapshots|
  {
    if snapshots != [] {
      NothingPrinted(snapshots[1..]);
    }
  }

  // ---- A new line that is lost ------------------------------------------

  function Repeated(line: seq<Byte>, n: nat): seq<Byte> {
    if n == 0 then [] else line + Repeated(line, n - 1)
  }

  lemma {:induction false} OneLine(body: seq<Byte>, rest: seq<Byte>)
    requires NEWLINE !in body
    ensures Lines(body + [NEWLINE] + rest) == 1 + Lines(rest)
    ensures DropLines(body + [NEWLINE] + rest, 1) == rest
    decreases |body|
  {
    var log := body + [NEWLINE] + rest;
    if body == [] {
      assert log[1..] == rest;
      assert DropLines(rest, 0) == rest;
    } else {
      assert log[1..] == body[1..] + [NEWLINE] + rest;
      OneLine(body[1..], rest);
    }
  }

  lemma {:induction false} RepeatedLines(body: seq<Byte>, n: nat)
    requires NEWLINE !in body && Valid(body)
    ensures Lines(Repeated(body + [NEWLINE], n)) == n && Valid(Repeated(body + [NEWLINE], n))
  {
    hide Lines, Valid;
    if n == 0 {
      NoLines();
    } else {
      var rest := Repeated(body + [NEWLINE], n - 1);
      RepeatedLines(body, n - 1);
      OneLine(body, rest);
      LineIsValid(body, rest);
    }
  }

  lemma {:induction false} RepeatedOnceMore(line: seq<Byte>, n: nat)
    ensures Repeated(line, n + 1) == Repeated(line, n) + line
  {
    if n > 0 {
      RepeatedOnceMore(line, n - 1);
      assert line + (Repeated(line, n - 1) + line) == (line + Repeated(line, n - 1)) + line;
    }
  }

  lemma NoLines()
    ensures Lines([]) == 0 && Valid([])
  {
  }

  lemma LineIsValid(body: seq<Byte>, rest: seq<Byte>)
    requires Valid(body) && Valid(rest)
    ensures Valid(body + [NEWLINE] + rest)
  {
    var text := body + [NEWLINE] + rest;
    assert text[..|body|] == body && text[|body|..] == [NEWLINE] + rest;
    assert ([NEWLINE] + rest)[1..] == rest;
    AsciiStarts([NEWLINE] + rest);
    ValidPrefixSplits(text, |body|);
  }

  lemma AsciiStarts(text: seq<Byte>)
    requires text != [] && text[0] < 0x80 && Valid(text[1..])
    ensures Valid(text)
  {
  }

  /** Whenever the lines that arrived are as long as the lines dropped, following prints nothing of them. */
  lemma NewLinesCanBeLost(log: seq<Byte>, longer: seq<Byte>, n: nat)
    requires log < longer && |Tail(longer, n)| == |Tail(log, n)|
    ensures Delta(log, longer, n) == [] && Printed(0, Tails([log, longer], n)) == Printed(0, Tails([log], n))
  {
    hide Tail;
    var first: seq<Byte>, second: seq<Byte> := Tail(log, n), Tail(longer, n);
    var one: seq<seq<Byte>>, two: seq<seq<Byte>>, last: seq<seq<Byte>> := [first], [first, second], [second];
    assert Tails([log, longer], n) == two && Tails([log], n) == one;
    assert two[1..] == last && one[1..] == [] && last[1..] == [];
    assert second[|first|..] == [];
    assert Printed(|first|, last) == second[|first|..] + Printed(|second|, last[1..]);
    assert Printed(0, two) == first[0..] + Printed(|first|, last);
    assert Printed(0, one) == first[0..] + Printed(|first|, one[1..]);
  }

  /** Polled before and after it grew, the log is printed as it was before. */
  ghost predicate LosesOutput(log: seq<Byte>, longer: seq<Byte>, n: nat) {
    log < longer && Schedule([log, longer], longer) && Printed(0, Tails([log, longer], n)) == log
  }

  /**
   Whatever number of lines the daemon sends: follow a log of that many equal lines, and another one like them is never
   printed.
   */
  lemma NewLineIsLost(body: seq<Byte>, n: nat)
    requires n > 0 && NEWLINE !in body && Valid(body)
    ensures var line := body + [NEWLINE];
            var log, longer := Repeated(line, n), Repeated(line, n + 1);
            longer == log + line && Delta(log, longer, n) == [] && LosesOutput(log, longer, n)
  {
    hide Lines, DropLines, Valid;
    var line := body + [NEWLINE];
    var log: seq<Byte>, longer: seq<Byte> := Repeated(line, n), Repeated(line, n + 1);
    RepeatedLines(body, n);
    RepeatedLines(body, n + 1);
    RepeatedOnceMore(line, n);
    OneLine(body, log);
    assert Tail(log, n) == log && Tail(longer, n) == log;
    assert Extending([log, longer]);
    assert Tails([log, longer], n) == [log, log];
    PrintedTwice(log);
  }

  lemma PrintedTwice(text: seq<Byte>)
    ensures Printed(0, [text, text]) == text
  {
    var twice: seq<seq<Byte>>, once: seq<seq<Byte>> := [text, text], [text];
    assert twice[1..] == once && once[1..] == [];
    assert Printed(|text|, once) == text[|text|..] + Printed(|text|, once[1..]);
    assert Printed(0, twice) == text[0..] + Printed(|text|, twice[1..]);
  }

  /** With the thousand lines the daemon sends, and the shortest line there is. */
  lemma NewLineIsLostByTheDaemon() returns (log: seq<Byte>, longer: seq<Byte>)
    ensures LosesOutput(log, longer, LOG_LINES)
  {
    hide LosesOutput;
    var empty: seq<Byte> := [];
    NewLineIsLost(empty, LOG_LINES);
    var line := empty + [NEWLINE];
    log, longer := Repeated(line, LOG_LINES), Repeated(line, LOG_LINES + 1);
  }
}
