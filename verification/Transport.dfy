/**
 The request life cycle: callers that allocate an id, enqueue a command and wait on a one-shot
 slot; and the connection loop that writes commands, matches responses, and on every exit
 resolves what is pending. Callers and loop interleave freely.
 */
module Transport {
  import opened Protocol
  import opened Runs

  // ---------------------------------------------------------------- vocabulary

  datatype Outcome =
    | Ok(reply: Reply)
    | NotWritten
    | WrittenOutcomeUnknown
    | Rejected(error: string)
    | TimedOut
    | Closed

  datatype Command = Request(id: nat, name: string) | Notify(name: string) | Reconciled | Shutdown

  /** The one-shot response channel of a request: open, resolved, or its sender dropped. */
  datatype Slot = Waiting | Resolved(outcome: Outcome) | Gone

  /** What went over the socket, in order, with the number of the connection that carried it. */
  datatype WireItem = Wrote(conn: nat, id: nat, name: string) | Read(conn: nat, frame: IncomingFrame)

  datatype CallPhase = Start | Sending(id: nat) | Awaiting(id: nat) | Finished(outcome: Outcome)

  /**
   One call: a plain request, or an action that checks the reconciliation gate and retries on
   `NotWritten` up to `retryLimit` times. `current` is the id of its latest attempt.
   */
  datatype Caller = Caller(
    action: bool, name: string, retryLimit: nat,
    outcomes: seq<Outcome>, current: Option<nat>, phase: CallPhase)

  const COMMAND_CAPACITY: nat := 256

  /** Requests in every place they can be. Ids index `slots` and `owners`; id 0 is the handshake's. */
  datatype Calls = Calls(
    queue: seq<Command>,
    pending: map<nat, string>,
    slots: seq<Slot>,
    owners: seq<nat>,
    callers: seq<Caller>,
    trace: seq<WireItem>,
    conn: nat)

  const NO_CALLS := Calls([], map[], [Gone], [0], [], [], 0)

  // ---------------------------------------------------------------- caller side

  function NewCaller(action: bool, name: string, retryLimit: nat): Caller {
    Caller(action, name, if action then retryLimit else 0, [], None, Start)
  }

  /** The retry decision: only `NotWritten` is tried again, and only while retries remain. */
  function Settle(k: Caller, outcome: Outcome): Caller {
    k.(outcomes := k.outcomes + [outcome],
       phase := if outcome == NotWritten && |k.outcomes| < k.retryLimit then Start else Finished(outcome))
  }

  function GateClosed(s: Calls, c: nat): Calls
    requires c < |s.callers|
  {
    s.(callers := s.callers[c := Settle(s.callers[c].(current := None), NotWritten)])
  }

  function Allocate(s: Calls, c: nat): Calls
    requires c < |s.callers|
  {
    var id := |s.slots|;
    s.(slots := s.slots + [Waiting], owners := s.owners + [c],
       callers := s.callers[c := s.callers[c].(current := Some(id), phase := Sending(id))])
  }

  function Enqueue(s: Calls, c: nat, id: nat): Calls
    requires c < |s.callers|
  {
    s.(queue := s.queue + [Request(id, s.callers[c].name)],
       callers := s.callers[c := s.callers[c].(phase := Awaiting(id))])
  }

  /** The queue is gone: the command and its response sender are dropped together. */
  function SendFails(s: Calls, c: nat, id: nat): Calls
    requires c < |s.callers| && id < |s.slots|
  {
    s.(slots := s.slots[id := Gone], callers := s.callers[c := Settle(s.callers[c], Closed)])
  }

  function Finish(s: Calls, c: nat, outcome: Outcome): Calls
    requires c < |s.callers|
  {
    s.(callers := s.callers[c := Settle(s.callers[c], outcome)])
  }

  // ---------------------------------------------------------------- loop side

  function Pop(s: Calls): Calls
    requires s.queue != []
  {
    s.(queue := s.queue[1..])
  }

  /** The head request is taken and answered `NotWritten`. */
  function RejectHead(s: Calls): Calls
    requires s.queue != [] && s.queue[0].Request? && s.queue[0].id < |s.slots|
  {
    Pop(s).(slots := s.slots[s.queue[0].id := Resolved(NotWritten)])
  }

  /** The head request is taken, written and remembered. */
  function WriteHead(s: Calls): Calls
    requires s.queue != [] && s.queue[0].Request?
  {
    var Request(id, name) := s.queue[0];
    Pop(s).(trace := s.trace + [Wrote(s.conn, id, name)], pending := s.pending[id := name])
  }

  function AnswerOf(frame: IncomingFrame): Outcome
    requires frame.Response?
  {
    if frame.error.Some? then Rejected(frame.error.value)
    else Ok(if frame.result.Some? then frame.result.value else NO_REPLY)
  }

  predicate Matches(s: Calls, frame: IncomingFrame) {
    frame.Response? && frame.id.Number? && frame.id.n in s.pending
  }

  /** A frame that parses has come off the socket. */
  function SeeFrame(s: Calls, frame: IncomingFrame): Calls {
    s.(trace := s.trace + [Read(s.conn, frame)])
  }

  /** A frame is read; a response to a pending request resolves it. */
  function ReadFrame(s: Calls, frame: IncomingFrame): Calls {
    var t := SeeFrame(s, frame);
    if Matches(s, frame) && frame.id.n < |s.slots|
    then t.(pending := s.pending - {frame.id.n}, slots := s.slots[frame.id.n := Resolved(AnswerOf(frame))])
    else t
  }

  /** Every exit of a drive loop resolves what is still pending. */
  function Flush(s: Calls): Calls {
    s.(pending := map[],
       slots := seq(|s.slots|, i requires 0 <= i < |s.slots| =>
         if i in s.pending then Resolved(WrittenOutcomeUnknown) else s.slots[i]))
  }

  predicate InQueue(queue: seq<Command>, id: nat) {
    exists i :: 0 <= i < |queue| && queue[i].Request? && queue[i].id == id
  }

  /** The loop ends: the queue and every response sender in it are dropped. */
  function DropQueue(s: Calls): Calls {
    s.(queue := [],
       slots := seq(|s.slots|, i requires 0 <= i < |s.slots| =>
         if InQueue(s.queue, i) then Gone else s.slots[i]))
  }

  // ---------------------------------------------------------------- invariant

  ghost predicate Written(trace: seq<WireItem>, id: nat) {
    exists k :: 0 <= k < |trace| && trace[k].Wrote? && trace[k].id == id
  }

  ghost predicate WrittenOn(trace: seq<WireItem>, conn: nat, id: nat) {
    exists k :: 0 <= k < |trace| && trace[k].Wrote? && trace[k].id == id && trace[k].conn == conn
  }

  /** A response says `Ok` with its result, or null, when it carries no error, and `Rejected` when it does. */
  predicate Says(frame: IncomingFrame, outcome: Outcome) {
    && frame.Response?
    && match outcome
       case Ok(reply) =>
         && frame.error.None?
         && (frame.result.Some? ==> reply == frame.result.value) && (frame.result.None? ==> reply == NO_REPLY)
       case Rejected(error) => frame.error == Some(error)
       case _ => false
  }

  ghost predicate AnsweredAt(trace: seq<WireItem>, id: nat, outcome: Outcome, i: nat, j: nat) {
    && i < j < |trace|
    && trace[i].Wrote? && trace[i].id == id
    && trace[j].Read? && trace[j].conn == trace[i].conn
    && trace[j].frame.Response? && trace[j].frame.id == Number(id) && Says(trace[j].frame, outcome)
  }

  /** A response frame with this id was read, after the request was written, on the same connection. */
  ghost predicate Answered(trace: seq<WireItem>, id: nat, outcome: Outcome) {
    exists i, j :: AnsweredAt(trace, id, outcome, i, j)
  }

  ghost predicate Truthful(trace: seq<WireItem>, id: nat, outcome: Outcome) {
    match outcome
    case Ok(_) => Answered(trace, id, outcome)
    case Rejected(_) => Answered(trace, id, outcome)
    case WrittenOutcomeUnknown => Written(trace, id)
    case NotWritten => !Written(trace, id)
    case TimedOut => false
    case Closed => false
  }

  /** Where a request whose slot is open can be: with its caller, in the queue, or pending. */
  ghost predicate OpenSomewhere(s: Calls, id: nat)
    requires id < |s.owners| && s.owners[id] < |s.callers|
  {
    var k := s.callers[s.owners[id]];
    && k.current == Some(id)
    && (k.phase == Sending(id) || k.phase == Awaiting(id) || k.phase == Finished(TimedOut))
    && (k.phase == Sending(id) ==> !InQueue(s.queue, id) && id !in s.pending)
    && (k.phase != Sending(id) ==> (InQueue(s.queue, id) <==> id !in s.pending))
    && (if id in s.pending then WrittenOn(s.trace, s.conn, id) else !Written(s.trace, id))
  }

  ghost predicate IdInv(s: Calls, id: nat)
    requires id < |s.slots| == |s.owners|
  {
    s.owners[id] < |s.callers| &&
    var k := s.callers[s.owners[id]];
    if s.slots[id].Waiting? then OpenSomewhere(s, id)
    else
      && !InQueue(s.queue, id) && id !in s.pending && k.phase != Sending(id)
      && (if s.slots[id].Gone? then !Written(s.trace, id) else Truthful(s.trace, id, s.slots[id].outcome))
      && (Written(s.trace, id) ==> k.current == Some(id))
  }

  ghost predicate AllButLastNotWritten(outcomes: seq<Outcome>) {
    forall i :: 0 <= i < |outcomes| - 1 ==> outcomes[i] == NotWritten
  }

  ghost predicate CallerInv(s: Calls, c: nat)
    requires c < |s.callers| && |s.slots| == |s.owners|
  {
    var k := s.callers[c];
    && (k.current.Some? ==> 0 < k.current.value < |s.slots| && s.owners[k.current.value] == c)
    && AllButLastNotWritten(k.outcomes)
    && match k.phase
       case Start => Unsent(s, k) && |k.outcomes| <= k.retryLimit && NotWrittenSoFar(k)
       case Sending(id) =>
         k.current == Some(id) && s.slots[id].Waiting? && |k.outcomes| <= k.retryLimit && NotWrittenSoFar(k)
       case Awaiting(id) => k.current == Some(id) && |k.outcomes| <= k.retryLimit && NotWrittenSoFar(k)
       case Finished(outcome) =>
         && 0 < |k.outcomes| <= k.retryLimit + 1 && k.outcomes[|k.outcomes| - 1] == outcome
         && (outcome == NotWritten ==> |k.outcomes| == k.retryLimit + 1 && Unsent(s, k))
         && (outcome != NotWritten ==> k.current.Some?)
         && (outcome == Closed ==> s.slots[k.current.value].Gone?)
         && (outcome.Ok? || outcome.Rejected? || outcome.WrittenOutcomeUnknown? ==>
               s.slots[k.current.value] == Resolved(outcome))
  }

  ghost predicate NotWrittenSoFar(k: Caller) {
    forall o <- k.outcomes :: o == NotWritten
  }

  ghost predicate Unsent(s: Calls, k: Caller) {
    k.current.Some? ==> k.current.value < |s.slots| && s.slots[k.current.value] == Resolved(NotWritten)
  }

  ghost predicate CallsInv(s: Calls) {
    && |s.slots| == |s.owners| > 0 && s.slots[0].Gone?
    && (forall id :: 0 < id < |s.slots| ==> IdInv(s, id))
    && (forall c :: 0 <= c < |s.callers| ==> CallerInv(s, c))
    && (forall i :: 0 <= i < |s.queue| && s.queue[i].Request? ==> 0 < s.queue[i].id < |s.slots|)
    && (forall i, j :: 0 <= i < j < |s.queue| && s.queue[i].Request? && s.queue[j].Request? ==>
          s.queue[i].id != s.queue[j].id)
    && (forall id <- s.pending :: 0 < id < |s.slots|)
    && (forall k :: 0 <= k < |s.trace| && s.trace[k].Wrote? ==> 0 < s.trace[k].id < |s.slots|)
    && (forall i, j :: 0 <= i < j < |s.trace| && s.trace[i].Wrote? && s.trace[j].Wrote? ==>
          s.trace[i].id != s.trace[j].id)
  }

  // ---------------------------------------------------------------- helpers

  lemma QueuePush(queue: seq<Command>, command: Command, id: nat)
    ensures InQueue(queue + [command], id) <==> InQueue(queue, id) || (command.Request? && command.id == id)
  {
    var all := queue + [command];
    if InQueue(queue, id) {
      var i :| 0 <= i < |queue| && queue[i].Request? && queue[i].id == id;
      assert all[i] == queue[i];
    }
    if command.Request? && command.id == id {
      assert all[|queue|] == command;
    }
  }

  lemma QueuePop(queue: seq<Command>, id: nat)
    requires queue != []
    requires forall i, j :: 0 <= i < j < |queue| && queue[i].Request? && queue[j].Request? ==>
               queue[i].id != queue[j].id
    ensures InQueue(queue[1..], id) <==> InQueue(queue, id) && !(queue[0].Request? && queue[0].id == id)
  {
    if InQueue(queue, id) && !(queue[0].Request? && queue[0].id == id) {
      var i :| 0 <= i < |queue| && queue[i].Request? && queue[i].id == id;
      assert queue[1..][i - 1] == queue[i];
    }
    if InQueue(queue[1..], id) {
      var i :| 0 <= i < |queue| - 1 && queue[1..][i].Request? && queue[1..][i].id == id;
      assert queue[i + 1] == queue[1..][i];
    }
  }

  lemma TracePush(trace: seq<WireItem>, item: WireItem, id: nat)
    ensures Written(trace + [item], id) <==> Written(trace, id) || (item.Wrote? && item.id == id)
    ensures forall conn :: WrittenOn(trace, conn, id) ==> WrittenOn(trace + [item], conn, id)
    ensures forall outcome :: Answered(trace, id, outcome) ==> Answered(trace + [item], id, outcome)
  {
    var all := trace + [item];
    if Written(trace, id) {
      var k :| 0 <= k < |trace| && trace[k].Wrote? && trace[k].id == id;
      assert all[k] == trace[k];
    }
    if item.Wrote? && item.id == id {
      assert all[|trace|] == item;
    }
    forall conn | WrittenOn(trace, conn, id) ensures WrittenOn(all, conn, id) {
      var k :| 0 <= k < |trace| && trace[k].Wrote? && trace[k].id == id && trace[k].conn == conn;
      assert all[k] == trace[k];
    }
    forall outcome | Answered(trace, id, outcome) ensures Answered(all, id, outcome) {
      var i, j :| AnsweredAt(trace, id, outcome, i, j);
      assert AnsweredAt(all, id, outcome, i, j);
    }
  }

  lemma WrittenSomewhere(trace: seq<WireItem>, conn: nat, id: nat)
    requires WrittenOn(trace, conn, id)
    ensures Written(trace, id)
  {
  }

  // ---------------------------------------------------------------- preservation, caller side

  lemma NewCallerKeeps(s: Calls, k: Caller)
    requires CallsInv(s) && k.phase == Start && k.outcomes == [] && k.current.None?
    ensures CallsInv(s.(callers := s.callers + [k]))
  {
    var t := s.(callers := s.callers + [k]);
    forall id | 0 < id < |t.slots| ensures IdInv(t, id) {
      assert IdInv(s, id);
    }
    forall c | 0 <= c < |t.callers| ensures CallerInv(t, c) {
      if c < |s.callers| {
        assert CallerInv(s, c);
      }
    }
  }

  /** A caller moves on without touching queue, pending or trace: no other request is affected. */
  lemma CallerMoves(s: Calls, c: nat, k: Caller)
    requires CallsInv(s) && c < |s.callers|
    requires k.current == s.callers[c].current && k.retryLimit == s.callers[c].retryLimit
    requires CallerInv(s.(callers := s.callers[c := k]), c)
    requires forall id :: s.callers[c].phase != Sending(id) && k.phase != Sending(id)
    requires k.current.Some? && s.slots[k.current.value].Waiting? ==>
               k.phase == Awaiting(k.current.value) || k.phase == Finished(TimedOut)
    ensures CallsInv(s.(callers := s.callers[c := k]))
  {
    var t := s.(callers := s.callers[c := k]);
    forall id | 0 < id < |t.slots| ensures IdInv(t, id) {
      assert IdInv(s, id) && CallerInv(s, c);
    }
    forall d | 0 <= d < |t.callers| ensures CallerInv(t, d) {
      assert CallerInv(s, d);
    }
  }

  lemma SettleShape(k: Caller, outcome: Outcome)
    requires AllButLastNotWritten(k.outcomes) && NotWrittenSoFar(k) && |k.outcomes| <= k.retryLimit
    ensures AllButLastNotWritten(Settle(k, outcome).outcomes)
    ensures outcome == NotWritten ==> NotWrittenSoFar(Settle(k, outcome))
  {
    forall i | 0 <= i < |k.outcomes| ensures k.outcomes[i] == NotWritten {
      assert k.outcomes[i] in k.outcomes;
    }
  }

  lemma GateClosedKeeps(s: Calls, c: nat)
    requires CallsInv(s) && c < |s.callers| && s.callers[c].phase == Start
    ensures CallsInv(GateClosed(s, c))
  {
    var t := GateClosed(s, c);
    assert CallerInv(s, c);
    SettleShape(s.callers[c].(current := None), NotWritten);
    forall id | 0 < id < |t.slots| ensures IdInv(t, id) {
      assert IdInv(s, id);
    }
    forall d | 0 <= d < |t.callers| ensures CallerInv(t, d) {
      assert CallerInv(s, d);
    }
  }

  lemma AllocateKeeps(s: Calls, c: nat)
    requires CallsInv(s) && c < |s.callers| && s.callers[c].phase == Start
    ensures CallsInv(Allocate(s, c))
  {
    var t := Allocate(s, c);
    assert CallerInv(s, c);
    forall id | 0 < id < |t.slots| ensures IdInv(t, id) {
      if id < |s.slots| {
        assert IdInv(s, id);
      }
    }
    forall d | 0 <= d < |t.callers| ensures CallerInv(t, d) {
      assert CallerInv(s, d);
    }
  }

  lemma EnqueueKeeps(s: Calls, c: nat, id: nat)
    requires CallsInv(s) && c < |s.callers| && s.callers[c].phase == Sending(id)
    ensures CallsInv(Enqueue(s, c, id))
  {
    var t := Enqueue(s, c, id);
    assert CallerInv(s, c) && IdInv(s, id);
    forall i | 0 <= i < |s.queue| && s.queue[i].Request? ensures s.queue[i].id != id {
      assert s.queue[i].id == id ==> InQueue(s.queue, id);
    }
    forall k | 0 < k < |t.slots| ensures IdInv(t, k) {
      assert IdInv(s, k);
      QueuePush(s.queue, Request(id, s.callers[c].name), k);
    }
    forall d | 0 <= d < |t.callers| ensures CallerInv(t, d) {
      assert CallerInv(s, d);
    }
  }

  lemma SendFailsKeeps(s: Calls, c: nat, id: nat)
    requires CallsInv(s) && c < |s.callers| && s.callers[c].phase == Sending(id) && id < |s.slots|
    ensures CallsInv(SendFails(s, c, id))
  {
    var t := SendFails(s, c, id);
    assert CallerInv(s, c) && IdInv(s, id);
    SettleShape(s.callers[c], Closed);
    forall k | 0 < k < |t.slots| ensures IdInv(t, k) {
      assert IdInv(s, k);
    }
    forall d | 0 <= d < |t.callers| ensures CallerInv(t, d) {
      assert CallerInv(s, d);
    }
  }

  lemma FinishKeeps(s: Calls, c: nat, id: nat, outcome: Outcome)
    requires CallsInv(s) && c < |s.callers| && s.callers[c].phase == Awaiting(id) && id < |s.slots|
    requires match s.slots[id]
             case Waiting => outcome == TimedOut
             case Resolved(o) => outcome == o
             case Gone => outcome == Closed
    ensures CallsInv(Finish(s, c, outcome))
  {
    assert CallerInv(s, c) && IdInv(s, id);
    SettleShape(s.callers[c], outcome);
    CallerMoves(s, c, Settle(s.callers[c], outcome));
  }

  // ---------------------------------------------------------------- preservation, loop side

  lemma PushKeeps(s: Calls, command: Command)
    requires CallsInv(s) && !command.Request?
    ensures CallsInv(s.(queue := s.queue + [command]))
  {
    var t := s.(queue := s.queue + [command]);
    forall id | 0 < id < |t.slots| ensures IdInv(t, id) {
      assert IdInv(s, id);
      QueuePush(s.queue, command, id);
    }
    forall c | 0 <= c < |t.callers| ensures CallerInv(t, c) {
      assert CallerInv(s, c);
    }
  }

  lemma PopKeeps(s: Calls)
    requires CallsInv(s) && s.queue != [] && !s.queue[0].Request?
    ensures CallsInv(Pop(s))
  {
    var t := Pop(s);
    forall id | 0 < id < |t.slots| ensures IdInv(t, id) {
      assert IdInv(s, id);
      QueuePop(s.queue, id);
    }
    forall c | 0 <= c < |t.callers| ensures CallerInv(t, c) {
      assert CallerInv(s, c);
    }
  }

  lemma HeadIsOpen(s: Calls)
    requires CallsInv(s) && s.queue != [] && s.queue[0].Request?
    ensures var id := s.queue[0].id;
            0 < id < |s.slots| && s.slots[id].Waiting? && IdInv(s, id) && id !in s.pending && InQueue(s.queue, id)
  {
    assert IdInv(s, s.queue[0].id);
    assert InQueue(s.queue, s.queue[0].id);
  }

  lemma RejectHeadKeeps(s: Calls)
    requires CallsInv(s) && s.queue != [] && s.queue[0].Request? && s.queue[0].id < |s.slots|
    ensures CallsInv(RejectHead(s))
  {
    var t := RejectHead(s);
    HeadIsOpen(s);
    forall id | 0 < id < |t.slots| ensures IdInv(t, id) {
      assert IdInv(s, id);
      QueuePop(s.queue, id);
    }
    forall c | 0 <= c < |t.callers| ensures CallerInv(t, c) {
      assert CallerInv(s, c);
    }
  }

  lemma WriteHeadKeeps(s: Calls)
    requires CallsInv(s) && s.queue != [] && s.queue[0].Request?
    ensures CallsInv(WriteHead(s))
  {
    var t := WriteHead(s);
    var Request(head, name) := s.queue[0];
    HeadIsOpen(s);
    assert t.trace[|s.trace|] == Wrote(s.conn, head, name);
    forall k | 0 <= k < |s.trace| && s.trace[k].Wrote? ensures s.trace[k].id != head {
      assert s.trace[k].id == head ==> Written(s.trace, head);
    }
    forall id | 0 < id < |t.slots| ensures IdInv(t, id) {
      assert IdInv(s, id);
      QueuePop(s.queue, id);
      TracePush(s.trace, Wrote(s.conn, head, name), id);
    }
    forall c | 0 <= c < |t.callers| ensures CallerInv(t, c) {
      assert CallerInv(s, c);
    }
  }

  lemma TraceReadKeeps(s: Calls, frame: IncomingFrame)
    requires CallsInv(s)
    ensures CallsInv(s.(trace := s.trace + [Read(s.conn, frame)]))
  {
    var t := s.(trace := s.trace + [Read(s.conn, frame)]);
    forall id | 0 < id < |t.slots| ensures IdInv(t, id) {
      assert IdInv(s, id);
      TracePush(s.trace, Read(s.conn, frame), id);
    }
    forall c | 0 <= c < |t.callers| ensures CallerInv(t, c) {
      assert CallerInv(s, c);
    }
  }

  lemma ResolvePendingKeeps(s: Calls, id: nat, outcome: Outcome)
    requires CallsInv(s) && id in s.pending && id < |s.slots| && Truthful(s.trace, id, outcome)
    ensures CallsInv(s.(pending := s.pending - {id}, slots := s.slots[id := Resolved(outcome)]))
  {
    var t := s.(pending := s.pending - {id}, slots := s.slots[id := Resolved(outcome)]);
    assert IdInv(s, id);
    WrittenSomewhere(s.trace, s.conn, id);
    forall k | 0 < k < |t.slots| ensures IdInv(t, k) {
      assert IdInv(s, k);
    }
    forall c | 0 <= c < |t.callers| ensures CallerInv(t, c) {
      assert CallerInv(s, c);
    }
  }

  lemma ReadFrameKeeps(s: Calls, frame: IncomingFrame)
    requires CallsInv(s)
    ensures CallsInv(ReadFrame(s, frame))
  {
    TraceReadKeeps(s, frame);
    if Matches(s, frame) {
      var id, t := frame.id.n, s.(trace := s.trace + [Read(s.conn, frame)]);
      assert IdInv(s, id);
      WrittenSomewhere(s.trace, s.conn, id);
      var k :| 0 <= k < |s.trace| && s.trace[k].Wrote? && s.trace[k].id == id && s.trace[k].conn == s.conn;
      assert AnsweredAt(t.trace, id, AnswerOf(frame), k, |s.trace|);
      ResolvePendingKeeps(t, id, AnswerOf(frame));
    }
  }

  lemma FlushKeeps(s: Calls)
    requires CallsInv(s)
    ensures CallsInv(Flush(s))
  {
    var t := Flush(s);
    forall id | 0 < id < |t.slots| ensures IdInv(t, id) {
      assert IdInv(s, id);
      if id in s.pending {
        WrittenSomewhere(s.trace, s.conn, id);
      }
    }
    forall c | 0 <= c < |t.callers| ensures CallerInv(t, c) {
      assert CallerInv(s, c);
      if s.callers[c].current.Some? {
        assert IdInv(s, s.callers[c].current.value);
      }
    }
  }

  lemma DropQueueKeeps(s: Calls)
    requires CallsInv(s)
    ensures CallsInv(DropQueue(s))
  {
    var t := DropQueue(s);
    forall id | 0 < id < |t.slots| ensures IdInv(t, id) {
      assert IdInv(s, id);
    }
    forall c | 0 <= c < |t.callers| ensures CallerInv(t, c) {
      assert CallerInv(s, c);
      if s.callers[c].current.Some? {
        assert IdInv(s, s.callers[c].current.value);
      }
    }
  }

  lemma NewConnectionKeeps(s: Calls)
    requires CallsInv(s) && s.pending == map[]
    ensures CallsInv(s.(conn := s.conn + 1))
  {
    var t := s.(conn := s.conn + 1);
    forall id | 0 < id < |t.slots| ensures IdInv(t, id) {
      assert IdInv(s, id);
    }
    forall c | 0 <= c < |t.callers| ensures CallerInv(t, c) {
      assert CallerInv(s, c);
    }
  }

  // ---------------------------------------------------------------- the connection loop

  datatype Config = Config(retryInitialMs: nat, retryMaxMs: nat)

  datatype LoopPhase = Connecting | Handshaking | Backoff | Driving | Stopped

  /** What ingress is handed: a frame and the number drawn for it. */
  datatype Receipt = Receipt(number: nat, frame: IncomingFrame)

  /** The loop's own state: reconnects, the action gate, and the receipt numbering. */
  datatype Link = Link(
    phase: LoopPhase, attempts: nat, backoffMs: nat, ready: bool,
    sequence: nat, received: seq<Receipt>, ingressOpen: bool)

  datatype State = State(calls: Calls, link: Link)

  function Initial(config: Config): State {
    State(NO_CALLS, Link(Connecting, 0, config.retryInitialMs, false, 0, [], true))
  }

  datatype Step =
    // callers and handle holders
    | Call(action: bool, name: string, retryLimit: nat)
    | Attempt(caller: nat)
    | Send(caller: nat)
    | Collect(caller: nat)
    | GiveUp(caller: nat)
    | SetReady
    | SendCommand(command: Command)
    | CloseIngress
    // the loop, outside a connection
    | ConnectOk
    | ConnectFailed
    | HandshakeFrame(frame: IncomingFrame, initializedSent: bool)
    | HandshakeFailed
    | BackoffElapsed
    | BackoffCommand
    | HandlesDropped
    // the loop, driving a connection
    | DriveCommand(written: bool)
    | DriveFrame(frame: IncomingFrame)
    | DriveIgnored
    | DriveLost

  function Min(a: nat, b: nat): nat { if a < b then a else b }

  function Fail(link: Link): Link {
    link.(phase := Backoff, attempts := link.attempts + 1)
  }

  function AfterBackoff(link: Link, config: Config): Link {
    link.(phase := Connecting, backoffMs := Min(link.backoffMs * 2, config.retryMaxMs))
  }

  /** Numbers a frame and hands it to ingress while that is open. */
  function Deliver(link: Link, frame: IncomingFrame): Link {
    var n := link.sequence + 1;
    link.(sequence := n,
          received := if link.ingressOpen then link.received + [Receipt(n, frame)] else link.received)
  }

  function Stop(s: State): State {
    State(DropQueue(Flush(s.calls)), s.link.(phase := Stopped))
  }

  function Disconnect(s: State): State {
    State(Flush(s.calls), s.link.(phase := Connecting, attempts := s.link.attempts + 1, ready := false))
  }

  /** The steps other tasks take. */
  predicate IsEnvironment(step: Step) {
    step.Call? || step.Attempt? || step.Send? || step.Collect? || step.GiveUp? || step.SetReady? ||
    step.SendCommand? || step.CloseIngress?
  }

  function CallerNext(s: State, step: Step): State {
    match step
    case Call(action, name, retryLimit) =>
      s.(calls := s.calls.(callers := s.calls.callers + [NewCaller(action, name, retryLimit)]))
    case Attempt(c) =>
      if c < |s.calls.callers| && s.calls.callers[c].phase == Start then
        if s.calls.callers[c].action && !s.link.ready then s.(calls := GateClosed(s.calls, c))
        else s.(calls := Allocate(s.calls, c))
      else s
    case Send(c) =>
      if c < |s.calls.callers| && s.calls.callers[c].phase.Sending? then
        var id := s.calls.callers[c].phase.id;
        if s.link.phase == Stopped then
          if id < |s.calls.slots| then s.(calls := SendFails(s.calls, c, id)) else s
        else if |s.calls.queue| < COMMAND_CAPACITY then s.(calls := Enqueue(s.calls, c, id))
        else s
      else s
    case Collect(c) =>
      if c < |s.calls.callers| && s.calls.callers[c].phase.Awaiting? &&
         s.calls.callers[c].phase.id < |s.calls.slots|
      then
        match s.calls.slots[s.calls.callers[c].phase.id]
        case Waiting => s
        case Resolved(outcome) => s.(calls := Finish(s.calls, c, outcome))
        case Gone => s.(calls := Finish(s.calls, c, Closed))
      else s
    case GiveUp(c) =>
      if c < |s.calls.callers| && s.calls.callers[c].phase.Awaiting? && s.calls.callers[c].phase.id < |s.calls.slots|
         && s.calls.slots[s.calls.callers[c].phase.id].Waiting?
      then s.(calls := Finish(s.calls, c, TimedOut))
      else s
    case SetReady => s.(link := s.link.(ready := true))
    case SendCommand(command) =>
      if command.Request? then s
      else if s.link.phase == Stopped then
        if command.Reconciled? then s.(link := s.link.(ready := false)) else s
      else if |s.calls.queue| < COMMAND_CAPACITY then s.(calls := s.calls.(queue := s.calls.queue + [command]))
      else s
    case CloseIngress => s.(link := s.link.(ingressOpen := false))
    case _ => s
  }

  function HandshakeNext(s: State, config: Config, step: Step): State {
    match step
    case ConnectOk =>
      if s.link.phase == Connecting
      then State(s.calls.(conn := s.calls.conn + 1), s.link.(phase := Handshaking))
      else s
    case ConnectFailed => if s.link.phase == Connecting then s.(link := Fail(s.link)) else s
    case HandshakeFrame(frame, initializedSent) =>
      if s.link.phase != Handshaking then s
      else
        var link := Deliver(s.link, frame);
        State(SeeFrame(s.calls, frame),
              if !s.link.ingressOpen then Fail(link)
              else if frame.Response? && frame.id == RpcId.Number(0) then
                if frame.error.Some? || !initializedSent then Fail(link)
                else link.(phase := Driving, ready := false, backoffMs := config.retryInitialMs)
              else link)
    case HandshakeFailed => if s.link.phase == Handshaking then s.(link := Fail(s.link)) else s
    case BackoffElapsed => if s.link.phase == Backoff then s.(link := AfterBackoff(s.link, config)) else s
    case _ => s
  }

  function CommandNext(s: State, config: Config, step: Step): State {
    match step
    case BackoffCommand =>
      if s.link.phase != Backoff || s.calls.queue == [] then s
      else
        (match s.calls.queue[0]
         case Request(id, _) =>
           if id < |s.calls.slots| then State(RejectHead(s.calls), AfterBackoff(s.link, config)) else s
         case Shutdown => Stop(s.(calls := Pop(s.calls)))
         case _ => State(Pop(s.calls), AfterBackoff(s.link, config)))
    case HandlesDropped =>
      if (s.link.phase == Backoff || s.link.phase == Driving) && s.calls.queue == [] then Stop(s) else s
    case DriveCommand(written) =>
      if s.link.phase != Driving || s.calls.queue == [] then s
      else
        (match s.calls.queue[0]
         case Request(id, _) =>
           if written then s.(calls := WriteHead(s.calls))
           else if id < |s.calls.slots| then Disconnect(s.(calls := RejectHead(s.calls)))
           else s
         case Notify(_) =>
           if written then s.(calls := Pop(s.calls)) else Disconnect(s.(calls := Pop(s.calls)))
         case Reconciled => State(Pop(s.calls), s.link.(ready := true))
         case Shutdown => Stop(s.(calls := Pop(s.calls))))
    case _ => s
  }

  function DriveNext(s: State, step: Step): State {
    match step
    case DriveFrame(frame) =>
      if s.link.phase != Driving then s
      else
        var t := State(ReadFrame(s.calls, frame), Deliver(s.link, frame));
        if s.link.ingressOpen then t else Stop(t)
    case DriveLost => if s.link.phase == Driving then Disconnect(s) else s
    case _ => s
  }

  function Next(s: State, config: Config, step: Step): State {
    if IsEnvironment(step) then CallerNext(s, step)
    else if step.BackoffCommand? || step.HandlesDropped? || step.DriveCommand? then CommandNext(s, config, step)
    else if step.DriveFrame? || step.DriveIgnored? || step.DriveLost? then DriveNext(s, step)
    else HandshakeNext(s, config, step)
  }

  // ---------------------------------------------------------------- whole-system invariant

  /** Ingress has received 1, 2, ..., n with no hole or repeat, and every number drawn while it is open. */
  ghost predicate Numbered(link: Link) {
    && |link.received| <= link.sequence
    && (forall i :: 0 <= i < |link.received| ==> link.received[i].number == i + 1)
    && (link.ingressOpen ==> |link.received| == link.sequence)
  }

  ghost predicate Inv(s: State) {
    && CallsInv(s.calls)
    && (s.link.phase != Driving ==> s.calls.pending == map[])
    && (s.link.phase == Stopped ==> s.calls.queue == [])
    && Numbered(s.link)
  }

  lemma AttemptKeeps(s: State, c: nat)
    requires Inv(s)
    ensures Inv(CallerNext(s, Attempt(c)))
  {
    if c < |s.calls.callers| && s.calls.callers[c].phase == Start {
      GateClosedKeeps(s.calls, c);
      AllocateKeeps(s.calls, c);
    }
  }

  lemma SendKeeps(s: State, c: nat)
    requires Inv(s)
    ensures Inv(CallerNext(s, Send(c)))
  {
    if c < |s.calls.callers| && s.calls.callers[c].phase.Sending? {
      assert CallerInv(s.calls, c);
      EnqueueKeeps(s.calls, c, s.calls.callers[c].phase.id);
      SendFailsKeeps(s.calls, c, s.calls.callers[c].phase.id);
    }
  }

  lemma CollectKeeps(s: State, c: nat)
    requires Inv(s)
    ensures Inv(CallerNext(s, Collect(c)))
  {
    if c < |s.calls.callers| && s.calls.callers[c].phase.Awaiting? && s.calls.callers[c].phase.id < |s.calls.slots| {
      match s.calls.slots[s.calls.callers[c].phase.id]
      case Waiting =>
      case Resolved(outcome) => FinishKeeps(s.calls, c, s.calls.callers[c].phase.id, outcome);
      case Gone => FinishKeeps(s.calls, c, s.calls.callers[c].phase.id, Closed);
    }
  }

  lemma CallerNextKeeps(s: State, step: Step)
    requires Inv(s)
    ensures Inv(CallerNext(s, step))
  {
    match step
    case Call(action, name, retryLimit) => NewCallerKeeps(s.calls, NewCaller(action, name, retryLimit));
    case Attempt(c) => AttemptKeeps(s, c);
    case Send(c) => SendKeeps(s, c);
    case Collect(c) => CollectKeeps(s, c);
    case GiveUp(c) =>
      if CallerNext(s, step) != s {
        FinishKeeps(s.calls, c, s.calls.callers[c].phase.id, TimedOut);
      }
    case SendCommand(command) =>
      if !command.Request? {
        PushKeeps(s.calls, command);
      }
    case _ =>
  }

  lemma StopKeeps(s: State)
    requires CallsInv(s.calls) && Numbered(s.link)
    ensures Inv(Stop(s))
  {
    FlushKeeps(s.calls);
    DropQueueKeeps(Flush(s.calls));
  }

  lemma DisconnectKeeps(s: State)
    requires CallsInv(s.calls) && Numbered(s.link)
    ensures Inv(Disconnect(s))
  {
    FlushKeeps(s.calls);
  }

  lemma BackoffCommandKeeps(s: State, config: Config)
    requires Inv(s)
    ensures Inv(CommandNext(s, config, BackoffCommand))
  {
    if s.calls.queue != [] {
      match s.calls.queue[0]
      case Request(id, _) =>
        HeadIsOpen(s.calls);
        RejectHeadKeeps(s.calls);
      case _ =>
        PopKeeps(s.calls);
        StopKeeps(s.(calls := Pop(s.calls)));
    }
  }

  lemma FailedWriteKeeps(s: State)
    requires CallsInv(s.calls) && Numbered(s.link) && s.calls.queue != [] && s.calls.queue[0].Request?
    ensures s.calls.queue[0].id < |s.calls.slots| && Inv(Disconnect(s.(calls := RejectHead(s.calls))))
  {
    HeadIsOpen(s.calls);
    RejectHeadKeeps(s.calls);
    DisconnectKeeps(s.(calls := RejectHead(s.calls)));
  }

  lemma DriveCommandKeeps(s: State, config: Config, written: bool)
    requires Inv(s)
    ensures Inv(CommandNext(s, config, DriveCommand(written)))
  {
    if s.calls.queue != [] {
      match s.calls.queue[0]
      case Request(id, _) =>
        if written {
          HeadIsOpen(s.calls);
          WriteHeadKeeps(s.calls);
        } else {
          FailedWriteKeeps(s);
        }
      case _ => PlainCommandKeeps(s, config, written);
    }
  }

  lemma PlainCommandKeeps(s: State, config: Config, written: bool)
    requires Inv(s) && s.calls.queue != [] && !s.calls.queue[0].Request?
    ensures Inv(CommandNext(s, config, DriveCommand(written)))
  {
    PopKeeps(s.calls);
    DisconnectKeeps(s.(calls := Pop(s.calls)));
    StopKeeps(s.(calls := Pop(s.calls)));
  }

  lemma CommandNextKeeps(s: State, config: Config, step: Step)
    requires Inv(s)
    ensures Inv(CommandNext(s, config, step))
  {
    match step
    case BackoffCommand => BackoffCommandKeeps(s, config);
    case DriveCommand(written) => DriveCommandKeeps(s, config, written);
    case HandlesDropped => StopKeeps(s);
    case _ =>
  }

  lemma DriveNextKeeps(s: State, step: Step)
    requires Inv(s)
    ensures Inv(DriveNext(s, step))
  {
    match step
    case DriveFrame(frame) =>
      ReadFrameKeeps(s.calls, frame);
      StopKeeps(State(ReadFrame(s.calls, frame), Deliver(s.link, frame)));
    case DriveLost => DisconnectKeeps(s);
    case _ =>
  }

  lemma HandshakeNextKeeps(s: State, config: Config, step: Step)
    requires Inv(s)
    ensures Inv(HandshakeNext(s, config, step))
  {
    if step.ConnectOk? && s.link.phase == Connecting {
      NewConnectionKeeps(s.calls);
    } else if step.HandshakeFrame? {
      TraceReadKeeps(s.calls, step.frame);
    }
  }

  lemma NextKeepsInv(s: State, config: Config, step: Step)
    requires Inv(s)
    ensures Inv(Next(s, config, step))
  {
    if IsEnvironment(step) {
      CallerNextKeeps(s, step);
    } else if step.BackoffCommand? || step.HandlesDropped? || step.DriveCommand? {
      CommandNextKeeps(s, config, step);
    } else if step.DriveFrame? || step.DriveIgnored? || step.DriveLost? {
      DriveNextKeeps(s, step);
    } else {
      HandshakeNextKeeps(s, config, step);
    }
  }

  function NextOf(config: Config): (State, Step) -> State {
    (s: State, step: Step) => Next(s, config, step)
  }

  function RunFrom(s: State, config: Config, steps: seq<Step>): State {
    Iterate(s, steps, NextOf(config))
  }

  function Run(config: Config, steps: seq<Step>): State {
    RunFrom(Initial(config), config, steps)
  }

  lemma {:induction false} RunKeepsInv(config: Config, steps: seq<Step>)
    ensures Inv(Run(config, steps))
  {
    if steps != [] {
      RunKeepsInv(config, steps[..|steps| - 1]);
      NextKeepsInv(Run(config, steps[..|steps| - 1]), config, steps[|steps| - 1]);
    }
  }

  // ---------------------------------------------------------------- main results

  /** Whether any frame on the wire belongs to a call. */
  ghost predicate WrittenBy(s: Calls, c: nat) {
    exists k :: 0 <= k < |s.trace| && s.trace[k].Wrote? && s.trace[k].id < |s.owners| && s.owners[s.trace[k].id] == c
  }

  /**
   At most one write per call: in every run, across retries, reconnects, timeouts and shutdown,
   no two frames on the wire belong to the same call.
   */
  lemma AtMostOneWrite(config: Config, steps: seq<Step>, i: nat, j: nat)
    requires var trace := Run(config, steps).calls.trace;
             i < j < |trace| && trace[i].Wrote? && trace[j].Wrote?
    ensures var s := Run(config, steps).calls;
            && s.trace[i].id < |s.owners| && s.trace[j].id < |s.owners|
            && s.owners[s.trace[i].id] != s.owners[s.trace[j].id]
  {
    RunKeepsInv(config, steps);
    var s := Run(config, steps).calls;
    WrittenIsCurrent(s, i);
    WrittenIsCurrent(s, j);
  }

  lemma WrittenIsCurrent(s: Calls, k: nat)
    requires CallsInv(s) && k < |s.trace| && s.trace[k].Wrote?
    ensures var id := s.trace[k].id;
            id < |s.owners| && s.owners[id] < |s.callers| && s.callers[s.owners[id]].current == Some(id)
  {
    assert IdInv(s, s.trace[k].id);
    assert Written(s.trace, s.trace[k].id);
  }

  /** What a finished call's outcome says about the wire is true. */
  ghost predicate TellsTruth(s: Calls, c: nat, outcome: Outcome) {
    match outcome
    case Ok(_) => exists id :: 0 < id < |s.owners| && s.owners[id] == c && Answered(s.trace, id, outcome)
    case Rejected(_) => exists id :: 0 < id < |s.owners| && s.owners[id] == c && Answered(s.trace, id, outcome)
    case WrittenOutcomeUnknown => WrittenBy(s, c)
    case NotWritten => !WrittenBy(s, c)
    case Closed => !WrittenBy(s, c)
    case TimedOut => true
  }

  /**
   Result classification is truthful in every run: `NotWritten` and `Closed` mean nothing was
   written, `Ok` and `Rejected` mean that a response with the request's id was read on the
   connection that wrote it, and `WrittenOutcomeUnknown` means that it was written.
   */
  lemma OutcomesAreTruthful(config: Config, steps: seq<Step>, c: nat)
    requires c < |Run(config, steps).calls.callers| && Run(config, steps).calls.callers[c].phase.Finished?
    ensures var s := Run(config, steps).calls; TellsTruth(s, c, s.callers[c].phase.outcome)
  {
    RunKeepsInv(config, steps);
    FinishedTellsTruth(Run(config, steps).calls, c);
  }

  lemma FinishedTellsTruth(s: Calls, c: nat)
    requires CallsInv(s) && c < |s.callers| && s.callers[c].phase.Finished?
    ensures TellsTruth(s, c, s.callers[c].phase.outcome)
  {
    assert CallerInv(s, c);
    var current, outcome := s.callers[c].current, s.callers[c].phase.outcome;
    if current.Some? {
      assert IdInv(s, current.value);
    }
    if outcome == NotWritten || outcome == Closed {
      if WrittenBy(s, c) {
        var k :| 0 <= k < |s.trace| && s.trace[k].Wrote? && s.trace[k].id < |s.owners| && s.owners[s.trace[k].id] == c;
        WrittenIsCurrent(s, k);
      }
    }
    if outcome == WrittenOutcomeUnknown {
      var k :| 0 <= k < |s.trace| && s.trace[k].Wrote? && s.trace[k].id == current.value;
      assert WrittenBy(s, c);
    }
  }

  /** A finished call never moves again, so what it was told stays true of every later state. */
  lemma {:induction false} FinishedIsFinal(s: State, config: Config, steps: seq<Step>, c: nat)
    requires c < |s.calls.callers| && s.calls.callers[c].phase.Finished?
    ensures var t := RunFrom(s, config, steps).calls;
            c < |t.callers| && t.callers[c] == s.calls.callers[c]
  {
    if steps != [] {
      FinishedIsFinal(s, config, steps[..|steps| - 1], c);
      NextKeepsFinished(RunFrom(s, config, steps[..|steps| - 1]), config, steps[|steps| - 1], c);
    }
  }

  lemma NextKeepsFinished(s: State, config: Config, step: Step, c: nat)
    requires c < |s.calls.callers| && s.calls.callers[c].phase.Finished?
    ensures var t := Next(s, config, step).calls;
            c < |t.callers| && t.callers[c] == s.calls.callers[c]
  {
    if IsEnvironment(step) {
      assert CallerNext(s, step).calls.callers[c] == s.calls.callers[c];
    } else if step.BackoffCommand? || step.HandlesDropped? || step.DriveCommand? {
      assert CommandNext(s, config, step).calls.callers == s.calls.callers;
    }
  }

  /** Retries are bounded, happen only after `NotWritten`, and a call gives up on it only when none remain. */
  lemma RetriesAreBounded(config: Config, steps: seq<Step>, c: nat)
    requires c < |Run(config, steps).calls.callers|
    ensures var k := Run(config, steps).calls.callers[c];
            && |k.outcomes| <= k.retryLimit + 1
            && (forall i :: 0 <= i < |k.outcomes| - 1 ==> k.outcomes[i] == NotWritten)
            && (k.phase == Finished(NotWritten) ==> |k.outcomes| == k.retryLimit + 1)
  {
    RunKeepsInv(config, steps);
    assert CallerInv(Run(config, steps).calls, c);
  }

  ghost predicate Grows(a: Calls, b: Calls) {
    a.trace <= b.trace && a.owners <= b.owners && |a.callers| <= |b.callers|
  }

  lemma CallerNextGrows(s: State, step: Step)
    ensures Grows(s.calls, CallerNext(s, step).calls)
  {
  }

  lemma CommandNextGrows(s: State, config: Config, step: Step)
    ensures Grows(s.calls, CommandNext(s, config, step).calls)
  {
  }

  lemma NextGrows(s: State, config: Config, step: Step)
    ensures Grows(s.calls, Next(s, config, step).calls)
  {
    CallerNextGrows(s, step);
    CommandNextGrows(s, config, step);
  }

  lemma {:induction false} RunFromGrows(s: State, config: Config, steps: seq<Step>)
    ensures Grows(s.calls, RunFrom(s, config, steps).calls)
  {
    if steps != [] {
      RunFromGrows(s, config, steps[..|steps| - 1]);
      NextGrows(RunFrom(s, config, steps[..|steps| - 1]), config, steps[|steps| - 1]);
    }
  }

  lemma RunFromSplit(s: State, config: Config, steps: seq<Step>, n: nat)
    requires n <= |steps|
    ensures RunFrom(s, config, steps) == RunFrom(RunFrom(s, config, steps[..n]), config, steps[n..])
  {
    IterateSplit(s, steps, n, NextOf(config));
  }

  /** Wire trace and id allocation only ever grow. */
  lemma RunGrows(config: Config, steps: seq<Step>, n: nat)
    requires n <= |steps|
    ensures Run(config, steps[..n]).calls.trace <= Run(config, steps).calls.trace
    ensures Run(config, steps[..n]).calls.owners <= Run(config, steps).calls.owners
  {
    RunFromSplit(Initial(config), config, steps, n);
    RunFromGrows(Run(config, steps[..n]), config, steps[n..]);
  }

  function Count(b: bool): nat { if b then 1 else 0 }

  /**
   Request conservation: at every step each allocated request is in exactly one place, and
   outside a connection nothing is pending.
   */
  lemma RequestsAreConserved(config: Config, steps: seq<Step>, id: nat)
    requires 0 < id < |Run(config, steps).calls.slots|
    ensures var s := Run(config, steps).calls;
            && id < |s.owners| && s.owners[id] < |s.callers|
            && Count(s.callers[s.owners[id]].phase == Sending(id)) + Count(InQueue(s.queue, id)) +
               Count(id in s.pending) + Count(s.slots[id].Resolved?) + Count(s.slots[id].Gone?) == 1
    ensures Run(config, steps).link.phase != Driving ==> Run(config, steps).calls.pending == map[]
    ensures Run(config, steps).link.phase == Stopped ==> !InQueue(Run(config, steps).calls.queue, id)
  {
    RunKeepsInv(config, steps);
    assert IdInv(Run(config, steps).calls, id);
  }

  /** Receipt numbering, whatever handshakes, disconnects and malformed frames the run contains. */
  lemma ReceiptsAreConsecutive(config: Config, steps: seq<Step>, i: nat)
    requires i < |Run(config, steps).link.received|
    ensures Run(config, steps).link.received[i].number == i + 1
    ensures Run(config, steps).link.ingressOpen ==>
              |Run(config, steps).link.received| == Run(config, steps).link.sequence
  {
    RunKeepsInv(config, steps);
  }

  /** The frames that came off the socket, in order. */
  function Frames(trace: seq<WireItem>): seq<IncomingFrame> {
    if trace == [] then []
    else
      Frames(trace[..|trace| - 1]) +
      (if trace[|trace| - 1].Read? then [trace[|trace| - 1].frame] else [])
  }

  lemma FramesPush(trace: seq<WireItem>, item: WireItem)
    ensures Frames(trace + [item]) == Frames(trace) + (if item.Read? then [item.frame] else [])
  {
    assert (trace + [item])[..|trace|] == trace;
  }

  /** Every frame that came off the socket drew a number, and ingress was handed the first ones. */
  ghost predicate Wired(s: State) {
    && |s.link.received| <= |Frames(s.calls.trace)| == s.link.sequence
    && (s.link.ingressOpen ==> |s.link.received| == s.link.sequence)
    && forall i :: 0 <= i < |s.link.received| ==> s.link.received[i].frame == Frames(s.calls.trace)[i]
  }

  lemma DeliverKeepsWired(s: State, frame: IncomingFrame)
    requires Wired(s)
    ensures Wired(State(SeeFrame(s.calls, frame), Deliver(s.link, frame)))
  {
    FramesPush(s.calls.trace, Read(s.calls.conn, frame));
  }

  lemma CommandKeepsWired(s: State, config: Config, step: Step)
    requires Wired(s)
    ensures Wired(CommandNext(s, config, step))
  {
    if s.calls.queue != [] && s.calls.queue[0].Request? {
      FramesPush(s.calls.trace, Wrote(s.calls.conn, s.calls.queue[0].id, s.calls.queue[0].name));
    }
  }

  lemma NextKeepsWired(s: State, config: Config, step: Step)
    requires Wired(s)
    ensures Wired(Next(s, config, step))
  {
    if IsEnvironment(step) {
      EnvironmentTouches(s, step);
    } else if step.BackoffCommand? || step.HandlesDropped? || step.DriveCommand? {
      CommandKeepsWired(s, config, step);
    } else if step.DriveFrame? || step.HandshakeFrame? {
      DeliverKeepsWired(s, step.frame);
    }
  }

  lemma {:induction false} RunKeepsWired(config: Config, steps: seq<Step>)
    ensures Wired(Run(config, steps))
  {
    if steps != [] {
      RunKeepsWired(config, steps[..|steps| - 1]);
      NextKeepsWired(Run(config, steps[..|steps| - 1]), config, steps[|steps| - 1]);
    }
  }

  ghost predicate WasRead(trace: seq<WireItem>, frame: IncomingFrame) {
    exists k :: 0 <= k < |trace| && trace[k].Read? && trace[k].frame == frame
  }

  lemma {:induction false} FramesWereRead(trace: seq<WireItem>, i: nat)
    requires i < |Frames(trace)|
    ensures WasRead(trace, Frames(trace)[i])
  {
    var front := trace[..|trace| - 1];
    if i < |Frames(front)| {
      FramesWereRead(front, i);
      var k :| 0 <= k < |front| && front[k].Read? && front[k].frame == Frames(front)[i];
      assert trace[k] == front[k];
    }
  }

  /** What ingress is handed is what came off the socket, frame by frame, in order. */
  lemma ReceiptsAreRead(config: Config, steps: seq<Step>, i: nat)
    requires i < |Run(config, steps).link.received|
    ensures var s := Run(config, steps);
            && i < |Frames(s.calls.trace)| && s.link.received[i].frame == Frames(s.calls.trace)[i]
            && WasRead(s.calls.trace, s.link.received[i].frame)
  {
    RunKeepsWired(config, steps);
    FramesWereRead(Run(config, steps).calls.trace, i);
  }

  // ---------------------------------------------------------------- what each step of a call does

  /**
   The gate, in every reachable state: an action attempted while it is closed is `NotWritten` and draws no
   id; any other attempt draws the next id and opens its slot.
   */
  lemma GateIsChecked(config: Config, steps: seq<Step>, c: nat)
    requires c < |Run(config, steps).calls.callers| && Run(config, steps).calls.callers[c].phase == Start
    ensures var s := Run(config, steps);
            var t := Next(s, config, Attempt(c)).calls;
            var k := s.calls.callers[c];
            && t.queue == s.calls.queue && t.trace == s.calls.trace && t.pending == s.calls.pending
            && (k.action && !s.link.ready ==>
                  t.slots == s.calls.slots && t.callers[c].outcomes == k.outcomes + [NotWritten])
            && (!(k.action && !s.link.ready) ==>
                  && t.slots == s.calls.slots + [Waiting] && t.callers[c].outcomes == k.outcomes
                  && t.callers[c].phase == Sending(|s.calls.slots|) && t.owners == s.calls.owners + [c])
  {
  }

  /** A call that is sent joins the end of the queue while there is room, and is closed when the loop has ended. */
  lemma SentIsQueued(config: Config, steps: seq<Step>, c: nat, id: nat)
    requires c < |Run(config, steps).calls.callers| && Run(config, steps).calls.callers[c].phase == Sending(id)
    ensures var s := Run(config, steps);
            var t := Next(s, config, Send(c)).calls;
            && (s.link.phase == Stopped ==> t.callers[c].outcomes == s.calls.callers[c].outcomes + [Closed])
            && (s.link.phase != Stopped && |s.calls.queue| < 256 ==>
                  && t.callers[c].phase == Awaiting(id)
                  && t.queue == s.calls.queue + [Request(id, s.calls.callers[c].name)])
            && (s.link.phase != Stopped && |s.calls.queue| >= 256 ==> t == s.calls)
  {
    RunKeepsInv(config, steps);
    assert CallerInv(Run(config, steps).calls, c);
  }

  /** What resolves a slot is what its call is told; a dropped slot is `Closed`, and only an open one can time out. */
  lemma AnswersAreDelivered(config: Config, steps: seq<Step>, c: nat, id: nat)
    requires c < |Run(config, steps).calls.callers| && Run(config, steps).calls.callers[c].phase == Awaiting(id)
    ensures var s := Run(config, steps);
            && id < |s.calls.slots|
            && var slot, told := s.calls.slots[id], s.calls.callers[c].outcomes;
               var t, u := Next(s, config, Collect(c)).calls.callers[c], Next(s, config, GiveUp(c)).calls.callers[c];
               && (slot.Resolved? ==> t.outcomes == told + [slot.outcome])
               && (slot.Gone? ==> t.outcomes == told + [Closed])
               && (slot.Waiting? ==> t.outcomes == told && u.outcomes == told + [TimedOut])
               && (!slot.Waiting? ==> u.outcomes == told)
  {
    RunKeepsInv(config, steps);
    assert CallerInv(Run(config, steps).calls, c);
  }

  /** A response to a pending request resolves it with what the frame says; any other frame resolves nothing. */
  lemma ResponsesResolve(config: Config, steps: seq<Step>, frame: IncomingFrame)
    requires Run(config, steps).link.phase == Driving && Run(config, steps).link.ingressOpen
    ensures var s := Run(config, steps).calls;
            var t := Next(Run(config, steps), config, DriveFrame(frame)).calls;
            && (frame.Response? && frame.id.Number? && frame.id.n in s.pending ==>
                  && t.pending == s.pending - {frame.id.n} && frame.id.n < |t.slots|
                  && t.slots[frame.id.n].Resolved? && Says(frame, t.slots[frame.id.n].outcome))
            && (!(frame.Response? && frame.id.Number? && frame.id.n in s.pending) ==>
                  t.pending == s.pending && t.slots == s.slots)
  {
    RunKeepsInv(config, steps);
  }

  /** A request at the head of the queue is written as it stands and becomes pending, or is answered `NotWritten`. */
  lemma HeadIsWritten(config: Config, steps: seq<Step>, written: bool)
    requires var s := Run(config, steps);
             s.link.phase == Driving && s.calls.queue != [] && s.calls.queue[0].Request?
    ensures var s, t := Run(config, steps), Next(Run(config, steps), config, DriveCommand(written));
            var Request(id, name) := s.calls.queue[0];
            && t.calls.queue == s.calls.queue[1..]
            && (written ==> t.calls.trace == s.calls.trace + [Wrote(s.calls.conn, id, name)] &&
                            t.calls.pending == s.calls.pending[id := name] && t.link == s.link)
            && (!written ==> t.calls.trace == s.calls.trace && id < |t.calls.slots| &&
                             t.calls.slots[id] == Resolved(NotWritten) && t.link.phase == Connecting)
  {
    RunKeepsInv(config, steps);
    HeadIsOpen(Run(config, steps).calls);
    assert IdInv(Run(config, steps).calls, Run(config, steps).calls.queue[0].id);
  }

  /** Any other command at the head: a notification needs the socket, a shutdown ends the loop. */
  lemma OtherHeadIsTaken(config: Config, steps: seq<Step>, written: bool)
    requires var s := Run(config, steps);
             s.link.phase == Driving && s.calls.queue != [] && !s.calls.queue[0].Request?
    ensures var s, t := Run(config, steps), Next(Run(config, steps), config, DriveCommand(written));
            && t.calls.trace == s.calls.trace
            && (s.calls.queue[0].Shutdown? <==> t.link.phase == Stopped)
            && (s.calls.queue[0].Notify? && !written <==> t.link.phase == Connecting)
            && (t.link.phase == Driving ==> t.calls == s.calls.(queue := s.calls.queue[1..]))
  {
  }

  /** While disconnected the loop answers one command without writing it; only a shutdown ends it. */
  lemma BackoffAnswersOne(config: Config, steps: seq<Step>)
    requires Run(config, steps).link.phase == Backoff && Run(config, steps).calls.queue != []
    ensures var s, t := Run(config, steps), Next(Run(config, steps), config, BackoffCommand);
            && t.calls.trace == s.calls.trace
            && (s.calls.queue[0].Shutdown? ==> t.link.phase == Stopped && t.calls.queue == [])
            && (!s.calls.queue[0].Shutdown? ==> t.link.phase == Connecting && t.calls.queue == s.calls.queue[1..])
            && (s.calls.queue[0].Request? ==>
                  s.calls.queue[0].id < |t.calls.slots| &&
                  t.calls.slots[s.calls.queue[0].id] == Resolved(NotWritten))
  {
    RunKeepsInv(config, steps);
    if Run(config, steps).calls.queue[0].Request? {
      HeadIsOpen(Run(config, steps).calls);
    }
  }

  /** A connection that is lost resolves exactly what was pending, as written with an unknown outcome. */
  lemma LosingResolvesPending(config: Config, steps: seq<Step>, id: nat)
    requires Run(config, steps).link.phase == Driving && id < |Run(config, steps).calls.slots|
    ensures var s, t := Run(config, steps), Next(Run(config, steps), config, DriveLost);
            && t.link.phase == Connecting && t.calls.pending == map[] && t.calls.queue == s.calls.queue
            && |t.calls.slots| == |s.calls.slots|
            && t.calls.slots[id] == if id in s.calls.pending then Resolved(WrittenOutcomeUnknown) else s.calls.slots[id]
  {
  }

  /**
   The handshake: a connection is driven exactly when the daemon has answered request 0 without an error,
   ingress is open and `initialized` could be sent. It starts with the gate closed and the delay reset.
   */
  lemma DrivingNeedsHandshake(config: Config, steps: seq<Step>, step: Step)
    requires Run(config, steps).link.phase != Driving
    ensures var s, t := Run(config, steps), Next(Run(config, steps), config, step);
            && (t.link.phase == Driving <==>
                  && s.link.phase == Handshaking && step.HandshakeFrame? && s.link.ingressOpen
                  && step.frame.Response? && step.frame.id == RpcId.Number(0) && step.frame.error.None?
                  && step.initializedSent)
            && (t.link.phase == Driving ==> !t.link.ready && t.link.backoffMs == config.retryInitialMs)
  {
  }

  /** Exactly how the gate moves. */
  lemma GateMoves(config: Config, steps: seq<Step>, step: Step)
    ensures var s, t := Run(config, steps), Next(Run(config, steps), config, step);
            var opens := step.SetReady? ||
                         (step.DriveCommand? && s.link.phase == Driving &&
                          s.calls.queue != [] && s.calls.queue[0] == Reconciled);
            var closes := (s.link.phase == Driving && t.link.phase == Connecting) ||
                          (s.link.phase != Driving && t.link.phase == Driving) ||
                          (step == SendCommand(Reconciled) && s.link.phase == Stopped);
            t.link.ready <==> opens || (s.link.ready && !closes)
  {
    RunKeepsInv(config, steps);
    CommandGate(Run(config, steps), config, step);
  }

  lemma CommandGate(s: State, config: Config, step: Step)
    requires CallsInv(s.calls)
    ensures step.DriveCommand? ==>
              var t := CommandNext(s, config, step);
              t.link.ready <==>
                if s.link.phase == Driving && s.calls.queue != [] && s.calls.queue[0] == Reconciled then true
                else s.link.ready && !(s.link.phase == Driving && t.link.phase == Connecting)
  {
  }

  // ---------------------------------------------------------------- what a run keeps of its calls

  /** A command carries the method of the call it belongs to, and so does a frame; a plain request is never retried. */
  ghost predicate Named(s: Calls) {
    && (forall i :: 0 <= i < |s.queue| && s.queue[i].Request? ==> Carries(s, s.queue[i].id, s.queue[i].name))
    && (forall k :: 0 <= k < |s.trace| && s.trace[k].Wrote? ==> Carries(s, s.trace[k].id, s.trace[k].name))
    && (forall c :: 0 <= c < |s.callers| && !s.callers[c].action ==> s.callers[c].retryLimit == 0)
    && |s.queue| <= COMMAND_CAPACITY
  }

  ghost predicate Carries(s: Calls, id: nat, name: string) {
    id < |s.owners| && s.owners[id] < |s.callers| && s.callers[s.owners[id]].name == name
  }

  /** The callers of one state and the next: the same calls, perhaps one more. */
  ghost predicate SameCalls(s: Calls, t: Calls) {
    && s.owners <= t.owners && |s.callers| <= |t.callers|
    && forall c :: 0 <= c < |s.callers| ==>
         && t.callers[c].name == s.callers[c].name && t.callers[c].action == s.callers[c].action
         && t.callers[c].retryLimit == s.callers[c].retryLimit
  }

  lemma CallerNextSame(s: State, step: Step)
    ensures SameCalls(s.calls, CallerNext(s, step).calls)
  {
  }

  lemma CallerNextNamed(s: State, step: Step)
    requires CallsInv(s.calls) && Named(s.calls)
    ensures Named(CallerNext(s, step).calls)
  {
    CallerNextSame(s, step);
    if step.Send? && step.caller < |s.calls.callers| {
      assert CallerInv(s.calls, step.caller);
    }
    var t := CallerNext(s, step).calls;
    forall i | 0 <= i < |t.queue| && t.queue[i].Request? ensures Carries(t, t.queue[i].id, t.queue[i].name) {
      if i < |s.calls.queue| {
        assert t.queue[i] == s.calls.queue[i];
        assert Carries(s.calls, s.calls.queue[i].id, s.calls.queue[i].name);
      }
    }
    forall k | 0 <= k < |t.trace| && t.trace[k].Wrote? ensures Carries(t, t.trace[k].id, t.trace[k].name) {
      assert Carries(s.calls, s.calls.trace[k].id, s.calls.trace[k].name);
    }
  }

  /** The loop only takes commands off the front, and writes the one it takes. */
  ghost predicate TakesFromFront(s: Calls, t: Calls) {
    && t.owners == s.owners && t.callers == s.callers
    && (t.queue == s.queue || t.queue == [] || (s.queue != [] && t.queue == s.queue[1..]))
    && (|| t.trace == s.trace
        || (exists frame :: t.trace == s.trace + [Read(s.conn, frame)])
        || (s.queue != [] && s.queue[0].Request? &&
            t.trace == s.trace + [Wrote(s.conn, s.queue[0].id, s.queue[0].name)]))
  }

  lemma LoopTakesFromFront(s: State, config: Config, step: Step)
    requires !IsEnvironment(step)
    ensures TakesFromFront(s.calls, Next(s, config, step).calls)
  {
    if step.DriveFrame? || step.HandshakeFrame? {
      assert SeeFrame(s.calls, step.frame).trace == s.calls.trace + [Read(s.calls.conn, step.frame)];
    }
  }

  lemma TakingKeepsNamed(s: Calls, t: Calls)
    requires Named(s) && TakesFromFront(s, t)
    ensures Named(t)
  {
    forall i | 0 <= i < |t.queue| && t.queue[i].Request? ensures Carries(t, t.queue[i].id, t.queue[i].name) {
      if t.queue == s.queue {
        assert Carries(s, s.queue[i].id, s.queue[i].name);
      } else {
        assert t.queue[i] == s.queue[i + 1];
        assert Carries(s, s.queue[i + 1].id, s.queue[i + 1].name);
      }
    }
    forall k | 0 <= k < |t.trace| && t.trace[k].Wrote? ensures Carries(t, t.trace[k].id, t.trace[k].name) {
      if k < |s.trace| {
        assert Carries(s, s.trace[k].id, s.trace[k].name);
      } else {
        assert Carries(s, s.queue[0].id, s.queue[0].name);
      }
    }
  }

  lemma {:induction false} RunKeepsNamed(config: Config, steps: seq<Step>)
    ensures Named(Run(config, steps).calls)
  {
    if steps != [] {
      var front, step := steps[..|steps| - 1], steps[|steps| - 1];
      RunKeepsNamed(config, front);
      RunKeepsInv(config, front);
      if IsEnvironment(step) {
        CallerNextNamed(Run(config, front), step);
      } else {
        LoopTakesFromFront(Run(config, front), config, step);
        TakingKeepsNamed(Run(config, front).calls, Run(config, steps).calls);
      }
    }
  }

  /**
   Every frame on the wire carries the method of the call that owns it; a plain request has at most one
   attempt; and no more than 256 commands ever wait.
   */
  lemma FramesCarryTheirMethod(config: Config, steps: seq<Step>)
    ensures var s := Run(config, steps).calls;
            && |s.queue| <= 256
            && (forall k :: 0 <= k < |s.trace| && s.trace[k].Wrote? ==>
                  && s.trace[k].id < |s.owners| && s.owners[s.trace[k].id] < |s.callers|
                  && s.trace[k].name == s.callers[s.owners[s.trace[k].id]].name)
            && (forall c :: 0 <= c < |s.callers| && !s.callers[c].action ==> |s.callers[c].outcomes| <= 1)
  {
    RunKeepsNamed(config, steps);
    RunKeepsInv(config, steps);
    var s := Run(config, steps).calls;
    forall k | 0 <= k < |s.trace| && s.trace[k].Wrote? ensures Carries(s, s.trace[k].id, s.trace[k].name) {
    }
    forall c | 0 <= c < |s.callers| && !s.callers[c].action ensures |s.callers[c].outcomes| <= 1 {
      RetriesAreBounded(config, steps, c);
    }
  }

  // ---------------------------------------------------------------- reconnecting

  function NextWaits(before: LoopPhase, after: LoopPhase, waits: nat): nat {
    if before == Handshaking && after == Driving then 0
    else if before == Backoff && after == Connecting then waits + 1
    else waits
  }

  /** How often the loop has waited since its last driven connection. */
  function Waits(config: Config, steps: seq<Step>): nat {
    if steps == [] then 0
    else
      var front := steps[..|steps| - 1];
      NextWaits(Run(config, front).link.phase, Run(config, steps).link.phase, Waits(config, front))
  }

  function NextFailures(before: LoopPhase, after: LoopPhase, failures: nat): nat {
    if (before != Backoff && after == Backoff) || (before == Driving && after == Connecting) then failures + 1
    else failures
  }

  /** How often a connection could not be made or was lost. */
  function Failures(config: Config, steps: seq<Step>): nat {
    if steps == [] then 0
    else
      var front := steps[..|steps| - 1];
      NextFailures(Run(config, front).link.phase, Run(config, steps).link.phase, Failures(config, front))
  }

  function Power(n: nat): nat {
    if n == 0 then 1 else 2 * Power(n - 1)
  }

  /** The delay doubles with each wait, up to its maximum. */
  function Delay(config: Config, waits: nat): nat {
    var doubled := config.retryInitialMs * Power(waits);
    if waits == 0 || doubled < config.retryMaxMs then doubled else config.retryMaxMs
  }

  lemma DelayDoubles(config: Config, waits: nat)
    ensures Delay(config, waits + 1) == Min(Delay(config, waits) * 2, config.retryMaxMs)
  {
    var i, p := config.retryInitialMs, Power(waits);
    assert i * Power(waits + 1) == (i * p) * 2;
  }

  /** A step doubles the delay when a wait ends, resets it when a connection is driven, and counts failures. */
  ghost predicate Paces(a: Link, b: Link, config: Config) {
    && (a.phase == Handshaking && b.phase == Driving ==> b.backoffMs == config.retryInitialMs)
    && (a.phase == Backoff && b.phase == Connecting ==> b.backoffMs == Min(a.backoffMs * 2, config.retryMaxMs))
    && ((a.phase == Handshaking && b.phase == Driving) || (a.phase == Backoff && b.phase == Connecting)
        || b.backoffMs == a.backoffMs)
    && b.attempts == NextFailures(a.phase, b.phase, a.attempts)
  }

  lemma CommandPaces(s: State, config: Config, step: Step)
    requires CallsInv(s.calls)
    ensures Paces(s.link, CommandNext(s, config, step).link, config)
  {
    if s.calls.queue != [] && s.calls.queue[0].Request? {
      HeadIsOpen(s.calls);
    }
  }

  lemma NextPaces(s: State, config: Config, step: Step)
    requires Inv(s)
    ensures Paces(s.link, Next(s, config, step).link, config)
  {
    if IsEnvironment(step) {
      EnvironmentTouches(s, step);
    } else {
      CommandPaces(s, config, step);
    }
  }

  lemma StepIsPaced(config: Config, a: Link, b: Link, waits: nat)
    requires Paces(a, b, config) && a.backoffMs == Delay(config, waits)
    ensures b.backoffMs == Delay(config, NextWaits(a.phase, b.phase, waits))
  {
    DelayDoubles(config, waits);
  }

  /** Reconnects are counted and paced: in every run the delay and the attempt count are what the history says. */
  lemma {:induction false} ReconnectsArePaced(config: Config, steps: seq<Step>)
    ensures Run(config, steps).link.backoffMs == Delay(config, Waits(config, steps))
    ensures Run(config, steps).link.attempts == Failures(config, steps)
  {
    if steps != [] {
      var front := steps[..|steps| - 1];
      ReconnectsArePaced(config, front);
      RunKeepsInv(config, front);
      NextPaces(Run(config, front), config, steps[|steps| - 1]);
      StepIsPaced(config, Run(config, front).link, Run(config, steps).link, Waits(config, front));
    }
  }

  // ---------------------------------------------------------------- the loop as it runs

  lemma RunOneMore(s: State, config: Config, steps: seq<Step>, n: nat)
    requires n < |steps|
    ensures RunFrom(s, config, steps[..n + 1]) == Next(RunFrom(s, config, steps[..n]), config, steps[n])
  {
    IterateAt(s, steps, n, NextOf(config));
  }

  /** Other tasks reach the loop only through the queue, the response slots and two flags. */
  lemma EnvironmentTouches(s: State, step: Step)
    requires IsEnvironment(step)
    ensures var t := CallerNext(s, step);
            && t.calls == s.calls.(queue := t.calls.queue, slots := t.calls.slots, owners := t.calls.owners,
                                   callers := t.calls.callers)
            && t.link == s.link.(ready := t.link.ready, ingressOpen := t.link.ingressOpen)
  {
  }

  /**
   `connection_loop` with its inner `drive`. A schedule decides every choice the loop does not make
   itself: what its peer and its selects yield, and which steps of other tasks fall in between.
   */
  class ConnectionLoop {
    const config: Config
    var queue: seq<Command>
    var slots: seq<Slot>
    var owners: seq<nat>
    var callers: seq<Caller>
    var trace: seq<WireItem>
    var conn: nat
    var attempts: nat
    var backoffMs: nat
    var ready: bool
    var sequence: nat
    var received: seq<Receipt>
    var ingressOpen: bool

    ghost function Full(phase: LoopPhase, pending: map<nat, string>): State
      reads this
    {
      State(Calls(queue, pending, slots, owners, callers, trace, conn),
            Link(phase, attempts, backoffMs, ready, sequence, received, ingressOpen))
    }

    constructor (config: Config)
      ensures this.config == config && Full(Connecting, map[]) == Initial(config)
    {
      this.config := config;
      queue, slots, owners, callers, trace, conn := [], [Gone], [0], [], [], 0;
      attempts, backoffMs, ready, sequence, received, ingressOpen := 0, config.retryInitialMs, false, 0, [], true;
    }

    method Environment(step: Step, phase: LoopPhase, pending: map<nat, string>)
      requires IsEnvironment(step)
      modifies this
      ensures Full(phase, pending) == Next(old(Full(phase, pending)), config, step)
    {
      var s := State(Calls(queue, pending, slots, owners, callers, trace, conn),
                     Link(phase, attempts, backoffMs, ready, sequence, received, ingressOpen));
      var t := CallerNext(s, step);
      EnvironmentTouches(s, step);
      queue, slots, owners, callers := t.calls.queue, t.calls.slots, t.calls.owners, t.calls.callers;
      ready, ingressOpen := t.link.ready, t.link.ingressOpen;
    }

    method Resolve(id: nat, outcome: Outcome)
      requires id < |slots|
      modifies this`slots
      ensures slots == old(slots)[id := Resolved(outcome)]
    {
      slots := slots[id := Resolved(outcome)];
    }

    /** Numbers a frame that has come off the socket and hands it to ingress. */
    method Accept(frame: IncomingFrame)
      modifies this`sequence, this`received, this`trace
      ensures Full(Driving, map[]).link == Deliver(old(Full(Driving, map[])).link, frame)
      ensures trace == old(trace) + [Read(conn, frame)]
    {
      trace := trace + [Read(conn, frame)];
      sequence := sequence + 1;
      if ingressOpen {
        received := received + [Receipt(sequence, frame)];
      }
    }

    /** The drain after the select loop. */
    method FlushPending(pending: map<nat, string>)
      modifies this`slots
      ensures Full(Driving, map[]).calls == Flush(old(Full(Driving, pending)).calls)
    {
      var open := slots;
      slots := seq(|open|, i requires 0 <= i < |open| =>
        if i in pending then Resolved(WrittenOutcomeUnknown) else open[i]);
    }

    /** Returning from the loop drops the receiver with everything in it. */
    method DropReceiver()
      modifies this`slots, this`queue
      ensures Full(Driving, map[]).calls == DropQueue(old(Full(Driving, map[])).calls)
    {
      var open, dropped := slots, queue;
      slots := seq(|open|, i requires 0 <= i < |open| => if InQueue(dropped, i) then Gone else open[i]);
      queue := [];
    }

    /** What follows the select loop: resolve what is pending, then stop or go back to connecting. */
    method Leave(phase: LoopPhase, pending: map<nat, string>)
      requires phase == Connecting || phase == Stopped
      modifies this
      ensures Full(phase, map[]) == if phase == Stopped then Stop(old(Full(Driving, pending)))
                                    else Disconnect(old(Full(Driving, pending)))
    {
      FlushPending(pending);
      if phase == Stopped {
        DropReceiver();
      } else {
        attempts := attempts + 1;
        ready := false;
      }
    }

    /** A request is written and remembered, or answered `NotWritten` and the connection given up. */
    method RequestTurn(written: bool, pending: map<nat, string>) returns (phase: LoopPhase, left: map<nat, string>)
      requires CallsInv(Full(Driving, pending).calls) && queue != [] && queue[0].Request?
      modifies this
      ensures Full(phase, left) == CommandNext(old(Full(Driving, pending)), config, DriveCommand(written))
      ensures phase in {Driving, Connecting} && (phase != Driving ==> left == map[])
    {
      var Request(id, name) := queue[0];
      queue := queue[1..];
      if written {
        trace := trace + [Wrote(conn, id, name)];
        phase, left := Driving, pending[id := name];
      } else {
        Resolve(id, NotWritten);
        phase, left := Connecting, map[];
        Leave(phase, pending);
      }
    }

    /** The command branch of the select. */
    method CommandTurn(written: bool, pending: map<nat, string>) returns (phase: LoopPhase, left: map<nat, string>)
      requires CallsInv(Full(Driving, pending).calls) && queue != []
      modifies this
      ensures Full(phase, left) == CommandNext(old(Full(Driving, pending)), config, DriveCommand(written))
      ensures phase in {Driving, Connecting, Stopped} && (phase != Driving ==> left == map[])
    {
      if queue[0].Request? {
        phase, left := RequestTurn(written, pending);
        return;
      }
      phase, left := Driving, pending;
      var command := queue[0];
      queue := queue[1..];
      match command {
        case Notify(_) =>
          if !written {
            phase := Connecting;
          }
        case Reconciled => ready := true;
        case Shutdown => phase := Stopped;
      }
      if phase != Driving {
        Leave(phase, left);
        left := map[];
      }
    }

    /** The message branch of the select, for a frame that parses. */
    method FrameTurn(frame: IncomingFrame, pending: map<nat, string>)
      returns (phase: LoopPhase, left: map<nat, string>)
      requires CallsInv(Full(Driving, pending).calls)
      modifies this
      ensures Full(phase, left) == DriveNext(old(Full(Driving, pending)), DriveFrame(frame))
      ensures phase in {Driving, Connecting, Stopped} && (phase != Driving ==> left == map[])
    {
      phase, left := Driving, pending;
      Accept(frame);
      if frame.Response? && frame.id.Number? && frame.id.n in left {
        left := left - {frame.id.n};
        Resolve(frame.id.n, if frame.error.Some? then Rejected(frame.error.value)
                            else Ok(if frame.result.Some? then frame.result.value else NO_REPLY));
      }
      if !ingressOpen {
        phase := Stopped;
        Leave(phase, left);
        left := map[];
      }
    }

    /** One turn of `drive`'s select loop; the phase says whether and how it exits. */
    method DriveTurn(step: Step, pending: map<nat, string>) returns (phase: LoopPhase, left: map<nat, string>)
      requires !IsEnvironment(step) && CallsInv(Full(Driving, pending).calls)
      modifies this
      ensures Full(phase, left) == Next(old(Full(Driving, pending)), config, step)
      ensures phase in {Driving, Connecting, Stopped} && (phase != Driving ==> left == map[])
    {
      phase, left := Driving, pending;
      match step {
        case DriveCommand(written) =>
          if queue != [] {
            phase, left := CommandTurn(written, pending);
          }
        case HandlesDropped =>
          if queue == [] {
            phase, left := Stopped, map[];
            Leave(phase, pending);
          }
        case DriveFrame(frame) => phase, left := FrameTurn(frame, pending);
        case DriveLost =>
          phase, left := Connecting, map[];
          Leave(phase, pending);
        case _ =>
      }
    }

    /** `drive`: runs until it exits or the schedule ends; every exit leaves nothing pending. */
    method Drive(schedule: seq<Step>) returns (phase: LoopPhase, pending: map<nat, string>, used: nat)
      requires Inv(Full(Driving, map[]))
      modifies this
      ensures used <= |schedule| && (phase == Driving ==> used == |schedule|)
      ensures Full(phase, pending) == RunFrom(old(Full(Driving, map[])), config, schedule[..used])
      ensures Inv(Full(phase, pending)) && (phase != Driving ==> pending == map[])
      ensures phase in {Driving, Connecting, Stopped} && (schedule != [] ==> used > 0)
    {
      phase, pending, used := Driving, map[], 0;
      ghost var start := Full(Driving, map[]);
      while used < |schedule| && phase == Driving
        invariant used <= |schedule| && (phase != Driving ==> pending == map[])
        invariant phase in {Driving, Connecting, Stopped} && (used == 0 ==> phase == Driving)
        invariant Full(phase, pending) == RunFrom(start, config, schedule[..used]) && Inv(Full(phase, pending))
        decreases |schedule| - used
      {
        RunOneMore(start, config, schedule, used);
        phase, pending := DriveStep(schedule[used], pending);
        used := used + 1;
      }
    }

    /** One step while a connection is driven, by this task or another. */
    method DriveStep(step: Step, before: map<nat, string>) returns (phase: LoopPhase, pending: map<nat, string>)
      requires Inv(Full(Driving, before))
      modifies this
      ensures Full(phase, pending) == Next(old(Full(Driving, before)), config, step)
      ensures Inv(Full(phase, pending)) && (phase != Driving ==> pending == map[])
      ensures phase in {Driving, Connecting, Stopped}
    {
      NextKeepsInv(Full(Driving, before), config, step);
      if IsEnvironment(step) {
        Environment(step, Driving, before);
        phase, pending := Driving, before;
      } else {
        phase, pending := DriveTurn(step, before);
      }
    }

    /** `initialize`: every frame that parses is numbered; the answer to the handshake decides. */
    method HandshakeTurn(step: Step) returns (phase: LoopPhase)
      requires step.HandshakeFrame? || step.HandshakeFailed?
      modifies this
      ensures Full(phase, map[]) == HandshakeNext(old(Full(Handshaking, map[])), config, step)
    {
      phase := Handshaking;
      var failed := step.HandshakeFailed?;
      if step.HandshakeFrame? {
        var frame := step.frame;
        Accept(frame);
        if !ingressOpen {
          failed := true;
        } else if frame.Response? && frame.id == RpcId.Number(0) {
          if frame.error.None? && step.initializedSent {
            ready := false;
            backoffMs := config.retryInitialMs;
            phase := Driving;
          } else {
            failed := true;
          }
        }
      }
      if failed {
        attempts := attempts + 1;
        phase := Backoff;
      }
    }

    /** One step outside a connection: connecting, shaking hands, or waiting in backoff. */
    method OutsideTurn(step: Step, before: LoopPhase) returns (phase: LoopPhase)
      requires !IsEnvironment(step) && before != Driving && CallsInv(Full(before, map[]).calls)
      modifies this
      ensures Full(phase, map[]) == Next(old(Full(before, map[])), config, step)
    {
      phase := before;
      if before == Connecting {
        if step.ConnectOk? {
          conn := conn + 1;
          phase := Handshaking;
        } else if step.ConnectFailed? {
          attempts := attempts + 1;
          phase := Backoff;
        }
      } else if before == Handshaking {
        if step.HandshakeFrame? || step.HandshakeFailed? {
          phase := HandshakeTurn(step);
        }
      } else if before == Backoff {
        phase := BackoffTurn(step);
      }
    }

    /** The select between a command and the backoff sleep; `reject_while_disconnected` handles the command. */
    method BackoffTurn(step: Step) returns (phase: LoopPhase)
      requires !IsEnvironment(step) && CallsInv(Full(Backoff, map[]).calls)
      modifies this
      ensures Full(phase, map[]) == Next(old(Full(Backoff, map[])), config, step)
    {
      phase := Backoff;
      if step.BackoffCommand? && queue != [] {
        phase := RejectWhileDisconnected();
      } else if step.HandlesDropped? && queue == [] {
        phase := Stopped;
      } else if step.BackoffElapsed? {
        phase := Connecting;
      }
      if phase == Stopped {
        FlushPending(map[]);
        DropReceiver();
      } else if phase == Connecting {
        backoffMs := Min(backoffMs * 2, config.retryMaxMs);
      }
    }

    /** Answers one command without writing it; only a shutdown ends the loop. */
    method RejectWhileDisconnected() returns (phase: LoopPhase)
      requires CallsInv(Full(Backoff, map[]).calls) && queue != []
      modifies this`queue, this`slots
      ensures phase == if old(queue[0]).Shutdown? then Stopped else Connecting
      ensures old(queue[0]).Request? ==> old(queue[0]).id < |slots|
      ensures Full(Backoff, map[]).calls ==
              if old(queue[0]).Request? then RejectHead(old(Full(Backoff, map[])).calls)
              else Pop(old(Full(Backoff, map[])).calls)
    {
      var command := queue[0];
      queue := queue[1..];
      phase := Connecting;
      if command.Request? {
        Resolve(command.id, NotWritten);
      } else if command.Shutdown? {
        phase := Stopped;
      }
    }

    /** One step while no connection is driven, by this task or another. */
    method IdleStep(step: Step, before: LoopPhase) returns (phase: LoopPhase)
      requires before != Driving && Inv(Full(before, map[]))
      modifies this
      ensures Full(phase, map[]) == Next(old(Full(before, map[])), config, step) && Inv(Full(phase, map[]))
    {
      NextKeepsInv(Full(before, map[]), config, step);
      if IsEnvironment(step) {
        Environment(step, before, map[]);
        phase := before;
      } else {
        phase := OutsideTurn(step, before);
      }
    }

    /** The whole loop does what the transition system says, for every schedule. */
    method RunLoop(schedule: seq<Step>) returns (phase: LoopPhase, pending: map<nat, string>)
      requires Full(Connecting, map[]) == Initial(config)
      modifies this
      ensures Full(phase, pending) == Run(config, schedule)
    {
      phase, pending := Connecting, map[];
      var used := 0;
      while used < |schedule|
        invariant 0 <= used <= |schedule| && (used < |schedule| ==> pending == map[])
        invariant Full(phase, pending) == Run(config, schedule[..used])
        decreases |schedule| - used
      {
        phase, pending, used := RunSegment(schedule, used, phase);
      }
      assert schedule[..used] == schedule;
    }

    /** One stay in a connection. */
    method DriveSegment(schedule: seq<Step>, used: nat)
      returns (phase: LoopPhase, pending: map<nat, string>, next: nat)
      requires used < |schedule| && Full(Driving, map[]) == Run(config, schedule[..used])
      modifies this
      ensures used < next <= |schedule| && (next < |schedule| ==> pending == map[])
      ensures Full(phase, pending) == Run(config, schedule[..next])
    {
      RunKeepsInv(config, schedule[..used]);
      var n;
      phase, pending, n := Drive(schedule[used..]);
      RunSegments(config, schedule, used, n);
      next := used + n;
    }

    /** One stay in a connection, or one step outside it. */
    method RunSegment(schedule: seq<Step>, used: nat, phaseBefore: LoopPhase)
      returns (phase: LoopPhase, pending: map<nat, string>, next: nat)
      requires used < |schedule| && Full(phaseBefore, map[]) == Run(config, schedule[..used])
      modifies this
      ensures used < next <= |schedule| && (next < |schedule| ==> pending == map[])
      ensures Full(phase, pending) == Run(config, schedule[..next])
    {
      if phaseBefore == Driving {
        phase, pending, next := DriveSegment(schedule, used);
      } else {
        RunKeepsInv(config, schedule[..used]);
        RunOneMore(Initial(config), config, schedule, used);
        phase := IdleStep(schedule[used], phaseBefore);
        pending, next := map[], used + 1;
      }
    }
  }

  lemma RunSegments(config: Config, steps: seq<Step>, m: nat, n: nat)
    requires m + n <= |steps|
    ensures Run(config, steps[..m + n]) == RunFrom(Run(config, steps[..m]), config, steps[m..][..n])
  {
    RunInTwo(Initial(config), config, steps, m, n);
  }

  lemma RunInTwo(s: State, config: Config, steps: seq<Step>, m: nat, n: nat)
    requires m + n <= |steps|
    ensures RunFrom(s, config, steps[..m + n]) == RunFrom(RunFrom(s, config, steps[..m]), config, steps[m..][..n])
  {
    IterateSlice(s, steps, m, n, NextOf(config));
  }
}
