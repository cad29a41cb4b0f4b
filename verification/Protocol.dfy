/**
 The event vocabulary shared by every component: wire frames after decoding, the receipt
 numbers that order them, and the plane each one travels on. JSON is already decoded here;
 a field the code looks up with `get` is an `Option`.
 */
module Protocol {
  import opened Sequences

  datatype Option<+T> = None | Some(value: T)

  const U64_MAX: nat := 0xFFFF_FFFF_FFFF_FFFF

  type U64 = n: nat | n <= U64_MAX

  type Sequence = U64

  function SaturatingAdd(a: U64, b: U64): U64 {
    if a + b > U64_MAX then U64_MAX else a + b
  }

  function SaturatingSub(a: nat, b: nat): nat {
    if a < b then 0 else a - b
  }

  function Max(a: nat, b: nat): nat {
    if a < b then b else a
  }

  datatype Plane = Lifecycle | Delta

  datatype RpcId = Number(n: nat) | Text(s: string)

  datatype TurnRecord = TurnRecord(id: Option<string>, status: Option<string>)

  /** A decoded `thread` object, as `thread/started` and `thread/read` carry it. */
  datatype ThreadRecord = ThreadRecord(
    id: Option<string>,
    status: Option<string>,
    ephemeral: Option<bool>,
    turns: Option<seq<TurnRecord>>)

  datatype Params = Params(
    threadId: Option<string>,
    turnId: Option<string>,
    emittedAtMs: Option<U64>,
    status: Option<string>,
    turnStatus: Option<string>,
    thread: Option<ThreadRecord>)

  /** The parts of a response result the callers look at; `NO_REPLY` stands for JSON null. */
  datatype Reply = Reply(turnId: Option<string>, thread: Option<ThreadRecord>)

  const NO_REPLY := Reply(None, None)

  datatype IncomingFrame =
    | Response(id: RpcId, result: Option<Reply>, error: Option<string>)
    | Notification(name: string, params: Params)
    | ServerRequest(id: RpcId, name: string, params: Params)
  {
    function Method(): Option<string> {
      if Response? then None else Some(name)
    }

    function ThreadId(): Option<string> {
      if Response? then None else params.threadId
    }

    function TurnId(): Option<string> {
      if Response? then None else params.turnId
    }
  }

  /** A numbered frame. `encodedLen` is the size of its serialised form, which never changes. */
  datatype SequencedEvent = SequencedEvent(
    sequence: Sequence,
    unixReceiptMs: U64,
    monotonicMs: U64,
    emittedAtMs: Option<U64>,
    plane: Plane,
    threadId: Option<string>,
    turnId: Option<string>,
    frame: IncomingFrame,
    reconstructed: bool,
    encodedLen: nat)
  {
    function Method(): Option<string> {
      frame.Method()
    }
  }

  predicate OccursAt(text: string, part: string, i: nat) {
    i + |part| <= |text| && text[i..i + |part|] == part
  }

  predicate Contains(text: string, part: string) {
    exists i :: 0 <= i <= |text| && OccursAt(text, part, i)
  }

  predicate EndsWith(text: string, part: string) {
    |part| <= |text| && text[|text| - |part|..] == part
  }

  /** A response has an empty method and so falls on the lifecycle plane. */
  function PlaneForMethod(name: string): Plane {
    if Contains(name, "delta") || EndsWith(name, "/updated") || Contains(name, "output")
    then Delta
    else Lifecycle
  }

  function FromFrame(sequence: Sequence, unixMs: U64, monotonicMs: U64, frame: IncomingFrame, encodedLen: nat)
    : SequencedEvent
  {
    SequencedEvent(
      sequence, unixMs, monotonicMs,
      if frame.Response? then None else frame.params.emittedAtMs,
      PlaneForMethod(if frame.Response? then "" else frame.name),
      frame.ThreadId(), frame.TurnId(), frame, false, encodedLen)
  }

  /** The anchor the store records for a turn that was already running when it subscribed. */
  function ReconstructedActiveTurn(
    sequence: Sequence, unixMs: U64, monotonicMs: U64, threadId: string, turnId: string, encodedLen: nat)
    : SequencedEvent
  {
    var params := Params(Some(threadId), Some(turnId), None, None, None, None);
    SequencedEvent(
      sequence, unixMs, monotonicMs, None, Lifecycle, Some(threadId), Some(turnId),
      Notification("turn/started", params), true, encodedLen)
  }

  predicate IsTerminal(status: Option<string>) {
    status in {Some("completed"), Some("failed"), Some("interrupted")}
  }

  /** The id of the last turn that is not terminal; a later terminal turn is skipped. */
  function InFlightTurn(turns: seq<TurnRecord>): Option<string> {
    if turns == [] then None
    else if !IsTerminal(turns[|turns| - 1].status) then turns[|turns| - 1].id
    else InFlightTurn(turns[..|turns| - 1])
  }

  /** The status of a turn that is over, in the words of the wire. */
  predicate HasEnded(turn: TurnRecord) {
    turn.status == Some("completed") || turn.status == Some("failed") || turn.status == Some("interrupted")
  }

  ghost predicate IsLastOpen(turns: seq<TurnRecord>, i: int)
    requires 0 <= i < |turns|
  {
    !HasEnded(turns[i]) && forall j :: i < j < |turns| ==> HasEnded(turns[j])
  }

  /** The turn in flight is the last one that is not over. */
  lemma {:induction false} InFlightTurnIsLast(turns: seq<TurnRecord>, i: nat)
    requires i < |turns| && IsLastOpen(turns, i)
    ensures InFlightTurn(turns) == turns[i].id
  {
    if i < |turns| - 1 {
      InFlightTurnIsLast(turns[..|turns| - 1], i);
    }
  }

  /** There is none when all are over. */
  lemma {:induction false} NoneInFlight(turns: seq<TurnRecord>)
    requires forall i :: 0 <= i < |turns| ==> HasEnded(turns[i])
    ensures InFlightTurn(turns) == None
  {
    if turns != [] {
      NoneInFlight(turns[..|turns| - 1]);
    }
  }

  /** Somewhere in the text, letter by letter. */
  ghost predicate HasPart(text: string, part: string) {
    exists i :: 0 <= i <= |text| - |part| && IsPartAt(text, part, i)
  }

  ghost predicate IsPartAt(text: string, part: string, i: int)
    requires 0 <= i <= |text| - |part|
  {
    forall j :: 0 <= j < |part| ==> text[i + j] == part[j]
  }

  lemma ContainsIff(text: string, part: string)
    ensures Contains(text, part) <==> HasPart(text, part)
  {
    if Contains(text, part) {
      var i :| 0 <= i <= |text| && OccursAt(text, part, i);
      forall j | 0 <= j < |part| ensures text[i + j] == part[j] {
        assert text[i..i + |part|][j] == part[j];
      }
      assert IsPartAt(text, part, i);
    }
    if HasPart(text, part) {
      var i :| 0 <= i <= |text| - |part| && IsPartAt(text, part, i);
      assert text[i..i + |part|] == part;
      assert OccursAt(text, part, i);
    }
  }

  lemma EndsWithIff(text: string, part: string)
    ensures EndsWith(text, part) <==> |part| <= |text| && IsPartAt(text, part, |text| - |part|)
  {
    if |part| <= |text| {
      var tail := text[|text| - |part|..];
      assert forall j :: 0 <= j < |part| ==> tail[j] == text[|text| - |part| + j];
    }
  }

  /** A frame is on the delta plane if its method says so: "delta" or "output" within it, or "/updated" at its end. */
  ghost predicate IsDeltaFrame(frame: IncomingFrame) {
    && !frame.Response?
    && (|| HasPart(frame.name, "delta") || HasPart(frame.name, "output")
        || (|frame.name| >= 8 && IsPartAt(frame.name, "/updated", |frame.name| - 8)))
  }

  /** An event says of its frame what the frame says: whose it is, when it was emitted, and its plane. */
  ghost predicate SpeaksForFrame(event: SequencedEvent) {
    var frame := event.frame;
    && (event.plane == Delta <==> IsDeltaFrame(frame)) && !event.reconstructed
    && (frame.Response? ==>
          event.Method() == None && event.threadId == None && event.turnId == None && event.emittedAtMs == None)
    && (!frame.Response? ==>
          && event.Method() == Some(frame.name)
          && event.threadId == frame.params.threadId && event.turnId == frame.params.turnId
          && event.emittedAtMs == frame.params.emittedAtMs)
  }

  lemma FromFrameSpeaks(
    sequence: Sequence, unixMs: U64, monotonicMs: U64, frame: IncomingFrame, encodedLen: nat)
    ensures var event := FromFrame(sequence, unixMs, monotonicMs, frame, encodedLen);
            && event.frame == frame && event.sequence == sequence && SpeaksForFrame(event)
            && event.unixReceiptMs == unixMs && event.monotonicMs == monotonicMs && event.encodedLen == encodedLen
  {
    var name := if frame.Response? then "" else frame.name;
    ContainsIff(name, "delta");
    ContainsIff(name, "output");
    EndsWithIff(name, "/updated");
  }

  /** An anchor names its thread and turn, is on the lifecycle plane, and never passes for a wire event. */
  lemma AnchorIsMarked(
    sequence: Sequence, unixMs: U64, monotonicMs: U64, threadId: string, turnId: string, encodedLen: nat)
    ensures var event := ReconstructedActiveTurn(sequence, unixMs, monotonicMs, threadId, turnId, encodedLen);
            && event.reconstructed && event.plane == Lifecycle && event.Method() == Some("turn/started")
            && event.threadId == Some(threadId) && event.turnId == Some(turnId)
            && event.sequence == sequence && event.monotonicMs == monotonicMs && event.emittedAtMs == None
            && event.unixReceiptMs == unixMs && event.encodedLen == encodedLen
  {
  }

  /** Whether sequence numbers strictly increase along a run of events. */
  ghost predicate Increasing(events: seq<SequencedEvent>) {
    forall i, j :: 0 <= i < j < |events| ==> events[i].sequence < events[j].sequence
  }

  /** The highest number among some events, or 0 if there are none. */
  function MaxSequence(events: seq<SequencedEvent>): nat {
    if events == [] then 0 else Max(MaxSequence(events[..|events| - 1]), events[|events| - 1].sequence)
  }

  lemma {:induction false} MaxSequenceBounds(events: seq<SequencedEvent>)
    ensures forall e <- events :: e.sequence <= MaxSequence(events)
    ensures events != [] ==> exists e <- events :: e.sequence == MaxSequence(events)
  {
    if events != [] {
      var front, last := events[..|events| - 1], events[|events| - 1];
      MaxSequenceBounds(front);
      assert events == front + [last];
      if front != [] && last.sequence < MaxSequence(front) {
        var e :| e in front && e.sequence == MaxSequence(front);
        assert e in events;
      } else {
        assert last in events;
      }
    }
  }

  function NumberedAbove(floor: Sequence): SequencedEvent -> bool {
    (e: SequencedEvent) => e.sequence > floor
  }

  /** The events numbered above `floor`, in order. */
  function Above(events: seq<SequencedEvent>, floor: Sequence): seq<SequencedEvent> {
    Filter(events, NumberedAbove(floor))
  }

  function OnPlane(plane: Plane): SequencedEvent -> bool {
    (e: SequencedEvent) => e.plane == plane
  }

  /** The events of one plane, in order. */
  function OfPlane(events: seq<SequencedEvent>, plane: Plane): seq<SequencedEvent> {
    Filter(events, OnPlane(plane))
  }

  lemma OfPlaneLast(events: seq<SequencedEvent>, plane: Plane)
    requires events != []
    ensures var last := events[|events| - 1];
            OfPlane(events, plane) ==
            OfPlane(events[..|events| - 1], plane) + (if last.plane == plane then [last] else [])
  {
    FilterPush(events[..|events| - 1], events[|events| - 1], OnPlane(plane));
    assert events == events[..|events| - 1] + [events[|events| - 1]];
  }

  /** The events of the lifecycle plane, in order. */
  function LifecycleOf(events: seq<SequencedEvent>): seq<SequencedEvent> {
    OfPlane(events, Lifecycle)
  }
}
