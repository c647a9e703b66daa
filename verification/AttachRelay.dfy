/**
 Attaching a terminal to a running command: input forwarded as it arrives, with an in-band
 detach byte, and two durable logs read by offset while they grow.
 */
module AttachRelay {
  import opened Options

  type Byte = b: int | 0 <= b < 256

  // ---- Input ------------------------------------------------------------

  /** Ctrl-]. */
  const DETACH: Byte := 0x1d

  /** What the sender waits for: a chunk of input of any size, its end, or a new window size. */
  datatype Event = Input(data: seq<Byte>) | EndOfInput | Resized

  datatype Request = Data(bytes: seq<Byte>) | Resize | Close

  /** A request and whether it was accepted. */
  datatype Sent = Sent(request: Request, accepted: bool)

  datatype Ending = Detached | InputEnded | SendFailed | StillOpen

  /** The input the events bring, up to its end. */
  function Typed(events: seq<Event>): seq<Byte> {
    if events == [] || events[0].EndOfInput? then []
    else (if events[0].Input? then events[0].data else []) + Typed(events[1..])
  }

  function BeforeDetach(input: seq<Byte>): seq<Byte> {
    if input == [] || input[0] == DETACH then [] else [input[0]] + BeforeDetach(input[1..])
  }

  /** The bytes meant for the command: only a terminal has a detach byte. */
  function Intended(tty: bool, events: seq<Event>): seq<Byte> {
    if tty then BeforeDetach(Typed(events)) else Typed(events)
  }

  function DataOf(sent: seq<Sent>): seq<Byte> {
    if sent == [] then []
    else DataOf(sent[..|sent| - 1]) + if sent[|sent| - 1].request.Data? then sent[|sent| - 1].request.bytes else []
  }

  /** What the command received. */
  function Delivered(sent: seq<Sent>): seq<Byte> {
    if sent == [] then []
    else Delivered(sent[..|sent| - 1])
         + if sent[|sent| - 1].request.Data? && sent[|sent| - 1].accepted then sent[|sent| - 1].request.bytes else []
  }

  function Resizes(sent: seq<Sent>): nat {
    if sent == [] then 0 else Resizes(sent[..|sent| - 1]) + if sent[|sent| - 1].request.Resize? then 1 else 0
  }

  /** How often the window changed. */
  function Changes(events: seq<Event>): nat {
    if events == [] then 0 else Changes(events[..|events| - 1]) + if events[|events| - 1].Resized? then 1 else 0
  }

  lemma {:induction false} BeforeDetachSplits(a: seq<Byte>, b: seq<Byte>)
    ensures DETACH in a ==> BeforeDetach(a + b) == BeforeDetach(a)
    ensures DETACH !in a ==> BeforeDetach(a + b) == a + BeforeDetach(b)
    decreases |a|
  {
    if a == [] {
      assert a + b == b;
    } else {
      assert (a + b)[1..] == a[1..] + b;
      assert a == [a[0]] + a[1..];
      BeforeDetachSplits(a[1..], b);
    }
  }

  lemma {:induction false} BeforeDetachEnds(a: seq<Byte>, at: nat)
    requires at < |a| && a[at] == DETACH && DETACH !in a[..at]
    ensures BeforeDetach(a) == a[..at]
  {
    assert a == a[..at] + a[at..];
    BeforeDetachSplits(a[..at], a[at..]);
  }

  /** Nothing but a detach byte ends the intended input early. */
  lemma BeforeDetachOfPlain(a: seq<Byte>)
    requires DETACH !in a
    ensures BeforeDetach(a) == a
  {
    BeforeDetachSplits(a, []);
    assert a + [] == a;
  }

  lemma {:induction false} TypedSplits(events: seq<Event>, i: nat)
    requires i <= |events| && forall k | 0 <= k < i :: !events[k].EndOfInput?
    ensures Typed(events) == Typed(events[..i]) + Typed(events[i..])
    decreases i
  {
    hide Typed;
    if i == 0 {
      assert events[0..] == events && events[..0] == [];
      TypedNothing();
    } else {
      TypedSplits(events[1..], i - 1);
      TypedFirst(events);
      TypedFirst(events[..i]);
      assert events[..i][0] == events[0] && events[..i][1..] == events[1..][..i - 1];
      assert events[1..][i - 1..] == events[i..];
    }
  }

  lemma TypedNothing()
    ensures Typed([]) == []
  {
  }

  lemma TypedFirst(events: seq<Event>)
    requires events != [] && !events[0].EndOfInput?
    ensures Typed(events) == (if events[0].Input? then events[0].data else []) + Typed(events[1..])
  {
  }

  lemma TypedNext(events: seq<Event>, i: nat)
    requires i < |events| && forall k | 0 <= k <= i :: !events[k].EndOfInput?
    ensures Typed(events[..i + 1]) == Typed(events[..i]) + if events[i].Input? then events[i].data else []
  {
    TypedSplits(events[..i + 1], i);
    assert events[..i + 1][..i] == events[..i];
    assert events[..i + 1][i..] == [events[i]];
    assert [events[i]][1..] == [];
  }

  /** `position`: the first detach byte of a chunk. */
  method FindDetach(data: seq<Byte>) returns (at: Option<nat>)
    ensures at.None? ==> DETACH !in data
    ensures at.Some? ==> at.value < |data| && data[at.value] == DETACH && DETACH !in data[..at.value]
  {
    for i := 0 to |data|
      invariant DETACH !in data[..i]
    {
      if data[i] == DETACH {
        return Some(i);
      }
      assert data[..i + 1] == data[..i] + [data[i]];
    }
    assert data[..|data|] == data;
    return None;
  }

  /** The sender's account of what it did: what it sent, why it ended, and what it closed. */
  ghost predicate SenderKeptItsWord(tty: bool, events: seq<Event>, sent: seq<Sent>, ending: Ending) {
    && DataOf(sent) <= Intended(tty, events)
    && Delivered(sent) <= DataOf(sent)
    && (!ending.SendFailed? ==> DataOf(sent) == Intended(tty, events))
    && ((ending.InputEnded? || ending.StillOpen?) ==> Delivered(sent) == Intended(tty, events))
    && (ending.Detached? ==> tty && DETACH in Typed(events))
    && ((ending.InputEnded? || ending.StillOpen?) ==> !(tty && DETACH in Typed(events)))
    && (ending.InputEnded? ==> EndOfInput in events)
    && (ending.StillOpen? ==> EndOfInput !in events)
    && (ending.SendFailed? ==> sent != [] && sent[|sent| - 1].request.Data? && !sent[|sent| - 1].accepted)
    && (forall i | 0 <= i < |sent| - 1 && sent[i].request.Data? :: sent[i].accepted)
    && (ending.InputEnded? <==> exists i :: 0 <= i < |sent| && sent[i].request.Close?)
    && (forall i | 0 <= i < |sent| && sent[i].request.Close? :: i == |sent| - 1)
  }

  /** Where the sender stands after `i` events: all input so far is sent and accepted, and nothing ended it. */
  ghost predicate Open(tty: bool, events: seq<Event>, i: nat, sent: seq<Sent>) {
    && i <= |events|
    && (forall k | 0 <= k < i :: !events[k].EndOfInput?)
    && DataOf(sent) == Typed(events[..i]) == Delivered(sent)
    && (tty ==> DETACH !in Typed(events[..i]))
    && (forall k | 0 <= k < |sent| :: !sent[k].request.Close? && (sent[k].request.Data? ==> sent[k].accepted))
  }

  /**
   Each request is recorded with the answer the target gave it. The size of a terminal that has one is sent first;
   without one there is nothing to resize.
   */
  ghost predicate RequestsFit(tty: bool, sized: bool, sent: seq<Sent>, accepted: nat -> bool) {
    && (forall k | 0 <= k < |sent| :: sent[k].accepted == accepted(k))
    && if tty && sized then sent != [] && sent[0].request.Resize?
       else forall k | 0 <= k < |sent| :: !sent[k].request.Resize?
  }

  /** After `n` events a terminal that has a size has sent it once and again for every change; nothing else resizes. */
  ghost predicate SizesFollow(tty: bool, sized: bool, events: seq<Event>, n: nat, sent: seq<Sent>) {
    && n <= |events|
    && (forall k | 0 <= k < n :: !events[k].EndOfInput?)
    && Resizes(sent) == if tty && sized then 1 + Changes(events[..n]) else 0
  }

  /** Which event the sender stopped at, and whether it is one that ends it so. */
  predicate StoppedAt(events: seq<Event>, n: nat, ending: Ending) {
    match ending
    case StillOpen => n == |events|
    case InputEnded => n < |events| && events[n].EndOfInput?
    case Detached | SendFailed => n < |events| && events[n].Input?
  }

  /**
   The sending task. `accepted` says which requests the target accepts, `sized` whether the terminal has a
   size to send. For every chunking of the input, the bytes sent are a prefix of what was
   meant for the command, and all of it unless a request with input was refused, which is then the last; a close is
   sent exactly when the input ended, once and last; a detach byte of a terminal ends it, and nothing follows. Of the
   `handled` events before the one it stopped at, each change of a terminal's window sent its size again.
   */
  method Send(tty: bool, sized: bool, events: seq<Event>, accepted: nat -> bool)
    returns (sent: seq<Sent>, ending: Ending, ghost handled: nat)
    ensures SenderKeptItsWord(tty, events, sent, ending)
    ensures RequestsFit(tty, sized, sent, accepted)
    ensures SizesFollow(tty, sized, events, handled, sent) && StoppedAt(events, handled, ending)
  {
    hide Going, SenderKeptItsWord, Append, RequestsFit, SizesFollow, StoppedAt;
    sent := [];
    FirstGoing(tty, sized, events, accepted);
    if tty && sized {
      sent := Append(sent, Resize, accepted(0));
    }
    var i := 0;
    while i < |events|
      invariant 0 <= i <= |events|
      invariant Going(tty, sized, events, i, sent, accepted)
    {
      var works := accepted(|sent|);
      match events[i] {
        case Input(_) =>
          var ended;
          sent, ended := SendInput(tty, sized, events, i, sent, accepted);
          if ended.Some? {
            return sent, ended.value, i;
          }
        case EndOfInput =>
          EndOfInputEnds(tty, sized, events, i, sent, accepted);
          return Append(sent, Close, works), InputEnded, i;
        case Resized =>
          ResizedGoesOn(tty, sized, events, i, sent, accepted);
          if tty && sized {
            sent := Append(sent, Resize, works);
          }
      }
      i := i + 1;
    }
    NoMoreEvents(tty, sized, events, sent, accepted);
    return sent, StillOpen, |events|;
  }

  /** The sender is under way after `i` events. */
  ghost predicate Going(tty: bool, sized: bool, events: seq<Event>, i: nat, sent: seq<Sent>, accepted: nat -> bool) {
    Open(tty, events, i, sent) && RequestsFit(tty, sized, sent, accepted) && SizesFollow(tty, sized, events, i, sent)
  }

  lemma FirstGoing(tty: bool, sized: bool, events: seq<Event>, accepted: nat -> bool)
    ensures Going(tty, sized, events, 0, if tty && sized then Append([], Resize, accepted(0)) else [], accepted)
  {
    assert Open(tty, events, 0, []);
    hide Open, Append, RequestsFit, SizesFollow;
    FirstRequestFits(tty, sized, accepted);
    FirstSize(tty, sized, events, accepted(0));
    ResizeContinues(tty, events, 0, [], accepted(0));
  }

  lemma EndOfInputEnds(tty: bool, sized: bool, events: seq<Event>, i: nat, sent: seq<Sent>, accepted: nat -> bool)
    requires Going(tty, sized, events, i, sent, accepted) && i < |events| && events[i].EndOfInput?
    ensures var all := Append(sent, Close, accepted(|sent|));
            && SenderKeptItsWord(tty, events, all, InputEnded) && RequestsFit(tty, sized, all, accepted)
            && SizesFollow(tty, sized, events, i, all) && StoppedAt(events, i, InputEnded)
  {
    hide Open, Append, RequestsFit, SizesFollow, SenderKeptItsWord;
    InputEnds(tty, events, i, sent, accepted(|sent|));
    NoSize(tty, sized, events, i, sent, Close, accepted(|sent|));
    NextRequestFits(tty, sized, sent, Close, accepted);
  }

  lemma ResizedGoesOn(tty: bool, sized: bool, events: seq<Event>, i: nat, sent: seq<Sent>, accepted: nat -> bool)
    requires Going(tty, sized, events, i, sent, accepted) && i < |events| && events[i].Resized?
    ensures Going(tty, sized, events, i + 1, if tty && sized then Append(sent, Resize, accepted(|sent|)) else sent, accepted)
  {
    hide Open, Append, RequestsFit, SizesFollow;
    ResizeContinues(tty, events, i, sent, accepted(|sent|));
    NextSize(tty, sized, events, i, sent, accepted(|sent|));
    if tty && sized { NextRequestFits(tty, sized, sent, Resize, accepted); }
  }

  lemma NoMoreEvents(tty: bool, sized: bool, events: seq<Event>, sent: seq<Sent>, accepted: nat -> bool)
    requires Going(tty, sized, events, |events|, sent, accepted)
    ensures SenderKeptItsWord(tty, events, sent, StillOpen) && RequestsFit(tty, sized, sent, accepted)
    ensures SizesFollow(tty, sized, events, |events|, sent) && StoppedAt(events, |events|, StillOpen)
  {
    hide Open, RequestsFit, SizesFollow, SenderKeptItsWord;
    StaysOpen(tty, events, sent);
  }

  /** One chunk of input: it is sent as it is, or cut at the detach byte of a terminal, which ends the sending. */
  method SendInput(tty: bool, sized: bool, events: seq<Event>, i: nat, sent: seq<Sent>, accepted: nat -> bool)
    returns (more: seq<Sent>, ended: Option<Ending>)
    requires Going(tty, sized, events, i, sent, accepted) && i < |events| && events[i].Input?
    ensures ended.None? ==> Going(tty, sized, events, i + 1, more, accepted)
    ensures ended.Some? ==>
              && SenderKeptItsWord(tty, events, more, ended.value) && RequestsFit(tty, sized, more, accepted)
              && SizesFollow(tty, sized, events, i, more) && StoppedAt(events, i, ended.value)
  {
    hide Open, SenderKeptItsWord, Append, DataOf, Delivered, RequestsFit, Typed, SizesFollow;
    var data, works := events[i].data, accepted(|sent|);
    var at: Option<nat> := None;
    if tty {
      at := FindDetach(data);
    }
    more := sent;
    if at.Some? {
      DetachEnds(events, i, sent, at.value, works);
      if at.value > 0 {
        NextRequestFits(tty, sized, sent, Data(data[..at.value]), accepted);
        NoSize(tty, sized, events, i, sent, Data(data[..at.value]), works);
        more := Append(sent, Data(data[..at.value]), works);
      }
      return more, Some(Detached);
    }
    InputContinuesOrFails(tty, events, i, sent, works);
    NextRequestFits(tty, sized, sent, Data(data), accepted);
    NoSize(tty, sized, events, i, sent, Data(data), works);
    more := Append(sent, Data(data), works);
    ended := if works then None else Some(SendFailed);
  }

  function Append(sent: seq<Sent>, request: Request, accepted: bool): (sent': seq<Sent>)
    ensures sent' == sent + [Sent(request, accepted)]
    ensures DataOf(sent') == DataOf(sent) + if request.Data? then request.bytes else []
    ensures Delivered(sent') == Delivered(sent) + if request.Data? && accepted then request.bytes else []
  {
    assert (sent + [Sent(request, accepted)])[..|sent|] == sent;
    sent + [Sent(request, accepted)]
  }

  lemma ResizesNext(sent: seq<Sent>, request: Request, accepted: bool)
    ensures Resizes(Append(sent, request, accepted)) == Resizes(sent) + if request.Resize? then 1 else 0
  {
    assert Append(sent, request, accepted)[..|sent|] == sent;
  }

  lemma FirstSize(tty: bool, sized: bool, events: seq<Event>, works: bool)
    ensures SizesFollow(tty, sized, events, 0, if tty && sized then Append([], Resize, works) else [])
  {
    ResizesNext([], Resize, works);
  }

  lemma ChangesNext(events: seq<Event>, i: nat)
    requires i < |events|
    ensures Changes(events[..i + 1]) == Changes(events[..i]) + if events[i].Resized? then 1 else 0
  {
    assert events[..i + 1][..i] == events[..i];
  }

  lemma NextSize(tty: bool, sized: bool, events: seq<Event>, i: nat, sent: seq<Sent>, works: bool)
    requires SizesFollow(tty, sized, events, i, sent) && i < |events| && events[i].Resized?
    ensures SizesFollow(tty, sized, events, i + 1, if tty && sized then Append(sent, Resize, works) else sent)
  {
    hide Append, Resizes, Changes;
    ResizesNext(sent, Resize, works);
    ChangesNext(events, i);
  }

  lemma NoSize(tty: bool, sized: bool, events: seq<Event>, i: nat, sent: seq<Sent>, request: Request, works: bool)
    requires SizesFollow(tty, sized, events, i, sent) && i < |events| && !request.Resize?
    ensures SizesFollow(tty, sized, events, i, Append(sent, request, works))
    ensures events[i].Input? ==> SizesFollow(tty, sized, events, i + 1, Append(sent, request, works))
  {
    hide Append, Resizes, Changes;
    ResizesNext(sent, request, works);
    ChangesNext(events, i);
  }

  lemma FirstRequestFits(tty: bool, sized: bool, accepted: nat -> bool)
    ensures RequestsFit(tty, sized, if tty && sized then Append([], Resize, accepted(0)) else [], accepted)
  {
    hide DataOf, Delivered;
  }

  lemma NextRequestFits(tty: bool, sized: bool, sent: seq<Sent>, request: Request, accepted: nat -> bool)
    requires RequestsFit(tty, sized, sent, accepted) && (request.Resize? ==> tty && sized)
    ensures RequestsFit(tty, sized, Append(sent, request, accepted(|sent|)), accepted)
  {
    hide DataOf, Delivered;
  }

  lemma ResizeContinues(tty: bool, events: seq<Event>, i: nat, sent: seq<Sent>, works: bool)
    requires Open(tty, events, i, sent)
    ensures Open(tty, events, i, Append(sent, Resize, works))
    ensures i < |events| && events[i].Resized? ==> Open(tty, events, i + 1, sent) && Open(tty, events, i + 1, Append(sent, Resize, works))
  {
    hide Typed, DataOf, Delivered;
    if i < |events| && events[i].Resized? { TypedNext(events, i); }
  }

  lemma InputContinuesOrFails(tty: bool, events: seq<Event>, i: nat, sent: seq<Sent>, works: bool)
    requires Open(tty, events, i, sent) && i < |events| && events[i].Input?
    requires tty ==> DETACH !in events[i].data
    ensures works ==> Open(tty, events, i + 1, Append(sent, Data(events[i].data), works))
    ensures !works ==> SenderKeptItsWord(tty, events, Append(sent, Data(events[i].data), works), SendFailed)
  {
    hide Typed, DataOf, Delivered, BeforeDetach;
    TypedNext(events, i);
    TypedSplits(events, i + 1);
    BeforeDetachSplits(Typed(events[..i + 1]), Typed(events[i + 1..]));
  }

  lemma DetachEnds(events: seq<Event>, i: nat, sent: seq<Sent>, at: nat, works: bool)
    requires Open(true, events, i, sent) && i < |events| && events[i].Input?
    requires at < |events[i].data| && events[i].data[at] == DETACH && DETACH !in events[i].data[..at]
    ensures SenderKeptItsWord(true, events, if at > 0 then Append(sent, Data(events[i].data[..at]), works) else sent, Detached)
  {
    hide Typed, DataOf, Delivered, BeforeDetach;
    var before, data := Typed(events[..i]), events[i].data;
    TypedNext(events, i);
    TypedSplits(events, i + 1);
    var tail := Typed(events[i + 1..]);
    assert Typed(events) == before + (data + tail);
    BeforeDetachSplits(before, data + tail);
    BeforeDetachSplits(data, tail);
    BeforeDetachEnds(data, at);
    assert data[at] in data;
  }

  lemma InputEnds(tty: bool, events: seq<Event>, i: nat, sent: seq<Sent>, works: bool)
    requires Open(tty, events, i, sent) && i < |events| && events[i].EndOfInput?
    ensures SenderKeptItsWord(tty, events, Append(sent, Close, works), InputEnded)
  {
    TypedSplits(events, i);
    assert Typed(events[i..]) == [];
    assert events[i] in events;
    hide Typed, DataOf, Delivered, BeforeDetach;
    if tty { BeforeDetachOfPlain(Typed(events)); }
    assert Append(sent, Close, works)[|sent|].request.Close?;
  }

  lemma StaysOpen(tty: bool, events: seq<Event>, sent: seq<Sent>)
    requires Open(tty, events, |events|, sent)
    ensures SenderKeptItsWord(tty, events, sent, StillOpen)
  {
    hide Typed, DataOf, Delivered, BeforeDetach;
    assert events[..|events|] == events;
    if tty { BeforeDetachOfPlain(Typed(events)); }
  }

  // ---- Output -----------------------------------------------------------

  /**
   A log when it is read: how much of it there is, whether the job had ended before it was measured, and the most
   the read may return: 256 KiB in the target as it is, but nothing depends on it.
   */
  datatype Moment = Moment(size: nat, ended: bool, limit: nat)

  datatype Reply = Reply(data: seq<Byte>, next: nat, complete: bool)

  function Min(a: nat, b: nat): nat {
    if a < b then a else b
  }

  /** A moment of a log whose whole content will be `log`: a job that ended writes no more. */
  predicate MomentOf(log: seq<Byte>, m: Moment) {
    m.size <= |log| && (m.ended ==> m.size == |log|)
  }

  /** What the target answers at that moment. */
  function Output(log: seq<Byte>, m: Moment, offset: nat): Reply
    requires MomentOf(log, m)
  {
    var from := Min(offset, m.size);
    var next := from + Min(m.limit, m.size - from);
    Reply(log[from..next], next, m.ended && next >= m.size)
  }

  /** Moments of one log, in the order of the reads. */
  ghost predicate Growing(log: seq<Byte>, moments: seq<Moment>) {
    && (forall i | 0 <= i < |moments| :: MomentOf(log, moments[i]))
    && (forall i, j | 0 <= i < j < |moments| :: moments[i].size <= moments[j].size && (moments[i].ended ==> moments[j].ended))
  }

  /** What a reader of one stream has: what it wrote, where it is, and whether it is done. */
  datatype Progress = Progress(written: seq<Byte>, at: nat, done: bool)

  /** One read of a reader that is not done. */
  function Advance(log: seq<Byte>, p: Progress, m: Moment): Progress
    requires MomentOf(log, m)
  {
    if p.done then p
    else
      var reply := Output(log, m, p.at);
      Progress(p.written + reply.data, reply.next, reply.complete)
  }

  /** One stream read on its own, at every moment until it is done. */
  function ReadAll(log: seq<Byte>, p: Progress, moments: seq<Moment>): Progress
    requires forall i | 0 <= i < |moments| :: MomentOf(log, moments[i])
  {
    if moments == [] then p else Advance(log, ReadAll(log, p, moments[..|moments| - 1]), moments[|moments| - 1])
  }

  /** One read: what it brings is written, and the position and the end move on. */
  method ReadChunk(log: seq<Byte>, m: Moment, p: Progress) returns (next: Progress)
    requires MomentOf(log, m) && !p.done
    ensures next == Advance(log, p, m)
  {
    var chunk := Output(log, m, p.at);
    next := p.(written := p.written + chunk.data);
    next := next.(at := chunk.next);
    next := next.(done := chunk.complete);
  }

  /**
   The reading loop over both streams. It is two readers that do not disturb each other, and it stops exactly
   when both are done: it goes on while one is not.
   */
  method ReadBoth(outLog: seq<Byte>, errLog: seq<Byte>, offset: nat, outMoments: seq<Moment>, errMoments: seq<Moment>)
    returns (out: Progress, err: Progress, rounds: nat)
    requires |outMoments| == |errMoments| && Growing(outLog, outMoments) && Growing(errLog, errMoments)
    ensures out == ReadAll(outLog, Progress([], offset, false), outMoments)
    ensures err == ReadAll(errLog, Progress([], offset, false), errMoments)
    ensures rounds <= |outMoments| && (rounds < |outMoments| ==> out.done && err.done)
    ensures forall k | 0 <= k < rounds ::
              !(ReadAfter(outLog, offset, outMoments, k).done && ReadAfter(errLog, offset, errMoments, k).done)
  {
    hide ReadAll, ReadAfter, Growing, Advance, MomentOf;
    out, err := Progress([], offset, false), Progress([], offset, false);
    rounds := 0;
    ReadNothing(outLog, offset, outMoments);
    ReadNothing(errLog, offset, errMoments);
    while rounds < |outMoments| && !(out.done && err.done)
      invariant 0 <= rounds <= |outMoments|
      invariant out == ReadAfter(outLog, offset, outMoments, rounds) && err == ReadAfter(errLog, offset, errMoments, rounds)
      invariant forall k | 0 <= k < rounds ::
                  !(ReadAfter(outLog, offset, outMoments, k).done && ReadAfter(errLog, offset, errMoments, k).done)
    {
      ReadNext(outLog, offset, outMoments, rounds);
      ReadNext(errLog, offset, errMoments, rounds);
      if !out.done {
        out := ReadChunk(outLog, outMoments[rounds], out);
      }
      if !err.done {
        err := ReadChunk(errLog, errMoments[rounds], err);
      }
      rounds := rounds + 1;
    }
    ReadEnough(outLog, offset, outMoments, rounds);
    ReadEnough(errLog, offset, errMoments, rounds);
  }

  /** A reader that started at `offset`, after the first `k` moments. */
  ghost function ReadAfter(log: seq<Byte>, offset: nat, moments: seq<Moment>, k: nat): Progress
    requires Growing(log, moments) && k <= |moments|
  {
    ReadAll(log, Progress([], offset, false), moments[..k])
  }

  lemma ReadNothing(log: seq<Byte>, offset: nat, moments: seq<Moment>)
    requires Growing(log, moments)
    ensures ReadAfter(log, offset, moments, 0) == Progress([], offset, false)
  {
  }

  lemma ReadNext(log: seq<Byte>, offset: nat, moments: seq<Moment>, k: nat)
    requires Growing(log, moments) && k < |moments|
    ensures MomentOf(log, moments[k])
    ensures var p := ReadAfter(log, offset, moments, k);
            ReadAfter(log, offset, moments, k + 1) == if p.done then p else Advance(log, p, moments[k])
  {
    assert moments[..k + 1][..k] == moments[..k];
  }

  /** Reading on after a reader is done, or after the last moment, changes nothing. */
  lemma ReadEnough(log: seq<Byte>, offset: nat, moments: seq<Moment>, k: nat)
    requires Growing(log, moments) && k <= |moments| && (k < |moments| ==> ReadAfter(log, offset, moments, k).done)
    ensures ReadAfter(log, offset, moments, k) == ReadAll(log, Progress([], offset, false), moments)
  {
    hide ReadAll;
    if k < |moments| {
      DoneStays(log, Progress([], offset, false), moments, k);
    } else {
      assert moments[..k] == moments;
    }
  }

  lemma {:induction false} DoneStays(log: seq<Byte>, p: Progress, moments: seq<Moment>, k: nat)
    requires k <= |moments| && forall i | 0 <= i < |moments| :: MomentOf(log, moments[i])
    requires ReadAll(log, p, moments[..k]).done
    ensures ReadAll(log, p, moments) == ReadAll(log, p, moments[..k])
    decreases |moments|
  {
    if k == |moments| {
      assert moments[..k] == moments;
    } else {
      var init := moments[..|moments| - 1];
      assert init[..k] == moments[..k];
      DoneStays(log, p, init, k);
    }
  }

  /**
   For every growth of the log and every position asked for, the reader has written the log from where it
   could first start (the position asked for, or the end of the log when that was shorter) to where
   it is, exactly once and in order; when it is done it is at the end.
   */
  lemma {:induction false} ReaderWritesTheLogOnce(log: seq<Byte>, offset: nat, moments: seq<Moment>)
    requires Growing(log, moments) && |moments| > 0
    ensures var start := Min(offset, moments[0].size);
            var p := ReadAll(log, Progress([], offset, false), moments);
            && start <= p.at <= moments[|moments| - 1].size && p.written == log[start..p.at]
            && (p.done ==> p.at == |log|)
    decreases |moments|
  {
    hide Advance, Min;
    var init, last := moments[..|moments| - 1], moments[|moments| - 1];
    var start := Min(offset, moments[0].size);
    if init == [] {
      FirstRead(log, offset, last);
      assert ReadAll(log, Progress([], offset, false), []) == Progress([], offset, false);
    } else {
      ReaderWritesTheLogOnce(log, offset, init);
      assert init[|init| - 1] == moments[|moments| - 2];
      NextRead(log, start, ReadAll(log, Progress([], offset, false), init), last);
    }
  }

  /** What a reader that started at `start` has written, of a log that has this size now. */
  predicate WroteOnce(log: seq<Byte>, start: nat, p: Progress, size: nat) {
    start <= p.at <= size <= |log| && p.written == log[start..p.at] && (p.done ==> p.at == |log|)
  }

  lemma FirstRead(log: seq<Byte>, offset: nat, m: Moment)
    requires MomentOf(log, m)
    ensures WroteOnce(log, Min(offset, m.size), Advance(log, Progress([], offset, false), m), m.size)
  {
  }

  lemma NextRead(log: seq<Byte>, start: nat, p: Progress, m: Moment)
    requires MomentOf(log, m) && WroteOnce(log, start, p, m.size)
    ensures WroteOnce(log, start, Advance(log, p, m), m.size)
  {
    if !p.done {
      var reply := Output(log, m, p.at);
      assert log[start..p.at] + log[p.at..reply.next] == log[start..reply.next];
    }
  }

  /**
   A reader gets done: once the job has ended, each read brings a whole chunk or the end, so reads that
   together could hold the rest of the log are enough.
   */
  lemma {:induction false} ReaderGetsDone(log: seq<Byte>, p: Progress, moments: seq<Moment>, chunk: nat)
    requires Growing(log, moments) && |moments| > 0 && moments[0].ended
    requires forall i | 0 <= i < |moments| :: moments[i].limit >= chunk
    requires |log| <= Min(p.at, |log|) + |moments| * chunk
    ensures ReadAll(log, p, moments).done
    decreases |moments|
  {
    assert forall i | 0 <= i < |moments| :: moments[i].size == |log| && moments[i].ended;
    EndedReadsAdvance(log, p, moments, |moments| - 1, chunk);
    assert |moments| * chunk == (|moments| - 1) * chunk + chunk;
  }

  lemma {:induction false} EndedReadsAdvance(log: seq<Byte>, p: Progress, moments: seq<Moment>, n: nat, chunk: nat)
    requires n < |moments|
    requires forall i | 0 <= i < |moments| :: moments[i].size == |log| && moments[i].ended && moments[i].limit >= chunk
    ensures var q := ReadAll(log, p, moments[..n]);
            q.done || Min(q.at, |log|) >= Min(|log|, Min(p.at, |log|) + n * chunk)
    decreases n
  {
    if n > 0 {
      EndedReadsAdvance(log, p, moments, n - 1, chunk);
      assert n * chunk == (n - 1) * chunk + chunk;
      assert moments[..n][..n - 1] == moments[..n - 1];
    }
  }

  /** Detaching and attaching again at the position reached goes on with the same stream: nothing is lost or repeated. */
  lemma {:induction false} ReattachingContinues(log: seq<Byte>, p: Progress, first: seq<Moment>, second: seq<Moment>)
    requires forall i | 0 <= i < |first| :: MomentOf(log, first[i])
    requires forall i | 0 <= i < |second| :: MomentOf(log, second[i])
    requires !ReadAll(log, p, first).done
    ensures forall i | 0 <= i < |first + second| :: MomentOf(log, (first + second)[i])
    ensures var half := ReadAll(log, p, first);
            var rest := ReadAll(log, Progress([], half.at, false), second);
            ReadAll(log, p, first + second) == Progress(half.written + rest.written, rest.at, rest.done)
    decreases |second|
  {
    hide Advance, MomentOf;
    if second == [] {
      assert first + second == first;
      assert ReadAll(log, p, first).written + [] == ReadAll(log, p, first).written;
    } else {
      var init, last := second[..|second| - 1], second[|second| - 1];
      assert (first + second)[..|first + second| - 1] == first + init;
      assert (first + second)[|first + second| - 1] == last;
      ReattachingContinues(log, p, first, init);
      var half := ReadAll(log, p, first);
      AdvanceAppends(log, half.written, ReadAll(log, Progress([], half.at, false), init), last);
    }
  }

  /** A read depends on the position only and adds to what was written. */
  lemma AdvanceAppends(log: seq<Byte>, before: seq<Byte>, p: Progress, m: Moment)
    requires MomentOf(log, m)
    ensures var next := Advance(log, p, m);
            Advance(log, p.(written := before + p.written), m) == next.(written := before + next.written)
  {
    if !p.done {
      var data := Output(log, m, p.at).data;
      assert (before + p.written) + data == before + (p.written + data);
    }
  }
}
