/**
 Control actions: each registers its waiter, sends its request with retries that are safe by
 construction, and classifies what it learnt into Confirmed, Rejected or OutcomeUnknown.
 */
module Control {
  import opened Protocol
  import R = Reduction
  import T = Transport
  import P = Pipeline

  datatype ActionTarget = TurnTarget(threadId: string, turnId: string) | ThreadTarget(threadId: string)

  datatype Evidence = Evidence(
    correlation: nat, rpcAccepted: bool, observedSequence: Option<Sequence>, observedMethod: Option<string>)

  datatype ActionOutcome =
    | Confirmed(target: ActionTarget, evidence: Evidence)
    | Rejected(target: ActionTarget, rpcError: Option<string>)
    | OutcomeUnknown(target: ActionTarget, evidence: Evidence)

  // ---------------------------------------------------------------- waiter predicates

  predicate IsCompletion(event: SequencedEvent, threadId: string, turnId: string) {
    event.Method() == Some("turn/completed") && event.threadId == Some(threadId) && event.turnId == Some(turnId)
  }

  predicate IsStart(event: SequencedEvent, threadId: string) {
    event.Method() == Some("turn/started") && event.threadId == Some(threadId)
  }

  function Completion(threadId: string, turnId: string): R.Predicate {
    (event: SequencedEvent) => IsCompletion(event, threadId, turnId)
  }

  function Started(threadId: string): R.Predicate {
    (event: SequencedEvent) => IsStart(event, threadId)
  }

  // ---------------------------------------------------------------- classification

  function Observed(correlation: nat, event: SequencedEvent): Evidence {
    Evidence(correlation, true, Some(event.sequence), event.Method())
  }

  function Plain(correlation: nat, rpcAccepted: bool): Evidence {
    Evidence(correlation, rpcAccepted, None, None)
  }

  function FindTurn(turns: seq<TurnRecord>, turnId: string): Option<TurnRecord> {
    if turns == [] then None
    else if turns[0].id == Some(turnId) then Some(turns[0])
    else FindTurn(turns[1..], turnId)
  }

  /** Whether a `thread/read` answer shows the target turn in a terminal state. */
  predicate ShowsTerminal(read: T.Outcome, turnId: string) {
    && read.Ok? && read.reply.thread.Some? && read.reply.thread.value.turns.Some?
    && var turn := FindTurn(read.reply.thread.value.turns.value, turnId);
       turn.Some? && IsTerminal(turn.value.status)
  }

  /** The first turn with this id stands at `i`. */
  ghost predicate FirstTurnAt(turns: seq<TurnRecord>, turnId: string, i: nat) {
    i < |turns| && turns[i].id == Some(turnId) && forall j :: 0 <= j < i ==> turns[j].id != Some(turnId)
  }

  /** A `thread/read` answer lists the turn, and the first entry with its id has this status. */
  ghost predicate ShowsStatus(read: T.Outcome, turnId: string, status: string) {
    && read.Ok? && read.reply.thread.Some? && read.reply.thread.value.turns.Some?
    && var turns := read.reply.thread.value.turns.value;
       exists i: nat :: FirstTurnAt(turns, turnId, i) && turns[i].status == Some(status)
  }

  /** The answer shows the turn over, in one of the three ways a turn can be. */
  ghost predicate ShowsEnded(read: T.Outcome, turnId: string) {
    ShowsStatus(read, turnId, "completed") || ShowsStatus(read, turnId, "failed") ||
    ShowsStatus(read, turnId, "interrupted")
  }

  lemma {:induction false} FindTurnIsFirst(turns: seq<TurnRecord>, turnId: string)
    ensures FindTurn(turns, turnId).None? ==> forall i :: 0 <= i < |turns| ==> turns[i].id != Some(turnId)
    ensures FindTurn(turns, turnId).Some? ==>
              exists i: nat :: FirstTurnAt(turns, turnId, i) && turns[i] == FindTurn(turns, turnId).value
  {
    if turns != [] && turns[0].id != Some(turnId) {
      FindTurnIsFirst(turns[1..], turnId);
      assert forall i :: 0 <= i < |turns| - 1 ==> turns[1..][i] == turns[i + 1];
      if FindTurn(turns, turnId).Some? {
        var i: nat :| FirstTurnAt(turns[1..], turnId, i) && turns[1..][i] == FindTurn(turns, turnId).value;
        forall j | 0 <= j < i + 1 ensures turns[j].id != Some(turnId) {
          assert j > 0 ==> turns[1..][j - 1] == turns[j];
        }
        assert FirstTurnAt(turns, turnId, i + 1);
      } else {
        forall i | 0 <= i < |turns| ensures turns[i].id != Some(turnId) {
          assert i > 0 ==> turns[1..][i - 1] == turns[i];
        }
      }
    } else if turns != [] {
      assert FirstTurnAt(turns, turnId, 0);
    }
  }

  lemma ShownStatusIff(read: T.Outcome, turnId: string, status: string)
    ensures ShownStatus(read, turnId) == Some(status) <==> ShowsStatus(read, turnId, status)
  {
    if read.Ok? && read.reply.thread.Some? && read.reply.thread.value.turns.Some? {
      var turns := read.reply.thread.value.turns.value;
      FindTurnIsFirst(turns, turnId);
      forall i: nat, j: nat | FirstTurnAt(turns, turnId, i) && FirstTurnAt(turns, turnId, j) ensures i == j {
      }
    }
  }

  /** Exactly when the fallback read confirms an interrupt. */
  lemma ShowsTerminalIff(read: T.Outcome, turnId: string)
    ensures ShowsTerminal(read, turnId) <==> ShowsEnded(read, turnId)
  {
    ShownStatusIff(read, turnId, "completed");
    ShownStatusIff(read, turnId, "failed");
    ShownStatusIff(read, turnId, "interrupted");
  }

  /** What a `thread/read` answer says of the target turn's status. */
  function ShownStatus(read: T.Outcome, turnId: string): Option<string> {
    if read.Ok? && read.reply.thread.Some? && read.reply.thread.value.turns.Some? then
      var turn := FindTurn(read.reply.thread.value.turns.value, turnId);
      if turn.Some? then turn.value.status else None
    else None
  }

  function ReconcileInterrupt(target: ActionTarget, correlation: nat, accepted: bool, read: T.Outcome): ActionOutcome
    requires target.TurnTarget?
  {
    if ShowsTerminal(read, target.turnId)
    then Confirmed(target, Plain(correlation, accepted))
    else OutcomeUnknown(target, Plain(correlation, accepted))
  }

  function InterruptOutcome(
    target: ActionTarget, correlation: nat, result: T.Outcome, completion: Option<SequencedEvent>, read: T.Outcome)
    : ActionOutcome
    requires target.TurnTarget?
  {
    match result
    case Ok(_) =>
      if completion.Some? then Confirmed(target, Observed(correlation, completion.value))
      else ReconcileInterrupt(target, correlation, true, read)
    case Rejected(error) => Rejected(target, Some(error))
    case WrittenOutcomeUnknown => ReconcileInterrupt(target, correlation, false, read)
    case TimedOut => ReconcileInterrupt(target, correlation, false, read)
    case NotWritten => Rejected(target, None)
    case Closed => Rejected(target, None)
  }

  function StartOutcome(
    target: ActionTarget, correlation: nat, result: T.Outcome, started: Option<SequencedEvent>): ActionOutcome
  {
    match result
    case Ok(reply) =>
      if reply.turnId.None? then OutcomeUnknown(target, Plain(correlation, true))
      else if started.Some? && started.value.turnId == reply.turnId
      then Confirmed(target, Observed(correlation, started.value))
      else Confirmed(target, Plain(correlation, true))
    case Rejected(error) => Rejected(target, Some(error))
    case WrittenOutcomeUnknown => OutcomeUnknown(target, Plain(correlation, false))
    case TimedOut => OutcomeUnknown(target, Plain(correlation, false))
    case NotWritten => Rejected(target, None)
    case Closed => Rejected(target, None)
  }

  function SteerOutcome(target: ActionTarget, correlation: nat, result: T.Outcome): ActionOutcome {
    match result
    case Ok(_) => Confirmed(target, Plain(correlation, true))
    case Rejected(error) => Rejected(target, Some(error))
    case WrittenOutcomeUnknown => OutcomeUnknown(target, Plain(correlation, false))
    case TimedOut => OutcomeUnknown(target, Plain(correlation, false))
    case NotWritten => Rejected(target, None)
    case Closed => Rejected(target, None)
  }

  /** The safe retry: what the n-th attempt and those after it end with, given the answer to each. */
  function SafeSend(answer: nat -> T.Outcome, retries: nat, n: nat): T.Outcome
    decreases if n < retries then retries - n else 0
  {
    if answer(n) == T.NotWritten && n < retries then SafeSend(answer, retries, n + 1) else answer(n)
  }

  /** Attempt number `last` is the last one: everything before it was `NotWritten`, and it is not retried. */
  ghost predicate Settles(answer: nat -> T.Outcome, retries: nat, last: nat) {
    && last <= retries
    && (forall n :: 0 <= n < last ==> answer(n) == T.NotWritten)
    && (answer(last) == T.NotWritten ==> last == retries)
  }

  lemma {:induction false} SafeSendSettles(answer: nat -> T.Outcome, retries: nat, n: nat, last: nat)
    requires Settles(answer, retries, last) && n <= last
    ensures SafeSend(answer, retries, n) == answer(last)
    decreases last - n
  {
    if n < last {
      SafeSendSettles(answer, retries, n + 1, last);
    }
  }

  // ---------------------------------------------------------------- end to end

  /** The call `c` has ended in the transport run and this is what it was told. */
  ghost predicate Told(s: T.Calls, c: nat, result: T.Outcome) {
    c < |s.callers| && s.callers[c].phase == T.Finished(result)
  }

  /** A response without (or with) an error was read for the call's one frame, on the connection that carried it. */
  ghost predicate DaemonAnswered(s: T.Calls, c: nat, result: T.Outcome) {
    exists id :: 0 < id < |s.owners| && s.owners[id] == c && T.Answered(s.trace, id, result)
  }

  /** A rejection is the daemon's error answer, or nothing was written. */
  ghost predicate RejectedRightly(s: T.Calls, c: nat, rpcError: Option<string>) {
    if rpcError.Some? then DaemonAnswered(s, c, T.Rejected(rpcError.value)) else !T.WrittenBy(s, c)
  }

  /** A refused call, and only that, is rejected, with the daemon's error if there is one; the rest carries evidence. */
  ghost predicate Classifies(outcome: ActionOutcome, target: ActionTarget, correlation: nat, result: T.Outcome) {
    && outcome.target == target
    && (outcome.Rejected? <==> result.Rejected? || result.NotWritten? || result.Closed?)
    && (outcome.Rejected? ==> outcome.rpcError == if result.Rejected? then Some(result.error) else None)
    && (!outcome.Rejected? ==>
          outcome.evidence.correlation == correlation && (outcome.evidence.rpcAccepted <==> result.Ok?))
  }

  /** The evidence names this event, or none. */
  ghost predicate Observes(outcome: ActionOutcome, event: Option<SequencedEvent>) {
    !outcome.Rejected? ==>
      && (event.Some? ==> outcome.evidence.observedSequence == Some(event.value.sequence) &&
                          outcome.evidence.observedMethod == event.value.Method())
      && (event.None? ==> outcome.evidence.observedSequence == None && outcome.evidence.observedMethod == None)
  }

  /** The first start on the thread, if it is of the turn the daemon returned. */
  ghost function Matching(result: T.Outcome, started: Option<SequencedEvent>): Option<SequencedEvent> {
    if result.Ok? && result.reply.turnId.Some? && started.Some? && started.value.turnId == result.reply.turnId
    then started else None
  }

  ghost predicate FrameOf(s: T.Calls, c: nat, i: nat)
    requires i < |s.trace|
  {
    s.trace[i].Wrote? && s.trace[i].id < |s.owners| && s.owners[s.trace[i].id] == c
  }

  /** A call has at most one frame on the wire. */
  ghost predicate OneFrame(s: T.Calls, c: nat) {
    forall i, j :: 0 <= i < j < |s.trace| ==> !(FrameOf(s, c, i) && FrameOf(s, c, j))
  }

  lemma CallIsTruthful(config: T.Config, steps: seq<T.Step>, c: nat, result: T.Outcome)
    requires Told(T.Run(config, steps).calls, c, result)
    ensures OneFrame(T.Run(config, steps).calls, c) && T.TellsTruth(T.Run(config, steps).calls, c, result)
  {
    var s := T.Run(config, steps).calls;
    T.OutcomesAreTruthful(config, steps, c);
    forall i, j | 0 <= i < j < |s.trace| && FrameOf(s, c, i) && FrameOf(s, c, j) ensures false {
      T.AtMostOneWrite(config, steps, i, j);
    }
  }

  /** The answers a finished call of the transport has received, one per attempt. */
  function Answers(k: T.Caller): nat -> T.Outcome {
    (n: nat) => if n < |k.outcomes| then k.outcomes[n] else T.Closed
  }

  /** In every run of the transport, a finished call was told what the safe retry makes of its answers. */
  lemma CallSettles(config: T.Config, steps: seq<T.Step>, c: nat, result: T.Outcome)
    requires Told(T.Run(config, steps).calls, c, result)
    ensures var k := T.Run(config, steps).calls.callers[c];
            && |k.outcomes| > 0 && Settles(Answers(k), k.retryLimit, |k.outcomes| - 1)
            && result == SafeSend(Answers(k), k.retryLimit, 0)
  {
    T.RunKeepsInv(config, steps);
    var k := T.Run(config, steps).calls.callers[c];
    assert T.CallerInv(T.Run(config, steps).calls, c);
    SafeSendSettles(Answers(k), k.retryLimit, 0, |k.outcomes| - 1);
  }

  /**
   Sound outcomes for `steer`: it is confirmed exactly when its call was told that the daemon answered
   its one frame without error; it is rejected only if the daemon answered with an error or nothing was written.
   */
  lemma SteerIsSound(
    config: T.Config, steps: seq<T.Step>, c: nat, result: T.Outcome, target: ActionTarget, correlation: nat)
    requires Told(T.Run(config, steps).calls, c, result)
    ensures var s, outcome := T.Run(config, steps).calls, SteerOutcome(target, correlation, result);
            && OneFrame(s, c)
            && (outcome.Confirmed? <==> result.Ok?)
            && (outcome.Confirmed? ==> DaemonAnswered(s, c, result))
            && (outcome.OutcomeUnknown? ==> result.TimedOut? || T.WrittenBy(s, c))
            && Classifies(outcome, target, correlation, result) && Observes(outcome, None)
            && (outcome.Rejected? ==> RejectedRightly(s, c, outcome.rpcError))
  {
    CallIsTruthful(config, steps, c, result);
  }

  /** The pipeline run is fed by the transport run: ingress is handed its receipts, in order. */
  ghost predicate Fed(config: T.Config, steps: seq<T.Step>, caps: P.Capacities, events: seq<P.Step>) {
    P.FedBy(P.Offered(caps, events), T.Run(config, steps).link.received)
  }

  lemma AppliedWasRead(config: T.Config, steps: seq<T.Step>, caps: P.Capacities, events: seq<P.Step>)
    requires P.Sensible(caps)
    ensures Fed(config, steps, caps, events) ==>
              forall event <- P.Run(caps, events).ingress.history ::
                T.WasRead(T.Run(config, steps).calls.trace, event.frame)
  {
    if Fed(config, steps, caps, events) {
      P.ReceivedEventsFlowThrough(caps, events, config, steps);
    }
  }

  /** What a waiter registered as operation `i` of the pipeline holds. */
  ghost function Received(g: P.Ingress, i: nat): Option<SequencedEvent> {
    if i in P.Waits(g).fired then Some(P.Waits(g).fired[i]) else None
  }

  /** What a start waiter holds was applied, and read if the pipeline is fed by this transport. */
  lemma StartWaiterHolds(
    config: T.Config, steps: seq<T.Step>, caps: P.Capacities, events: seq<P.Step>, waiter: nat, threadId: string)
    requires P.Sensible(caps)
    requires var ops := P.Run(caps, events).ingress.waiterOps;
             waiter < |ops| && ops[waiter] == R.Register(waiter, Started(threadId))
    ensures var g := P.Run(caps, events).ingress;
            Received(g, waiter).Some? ==>
              var event := Received(g, waiter).value;
              && event in g.history && IsStart(event, threadId)
              && (Fed(config, steps, caps, events) ==> T.WasRead(T.Run(config, steps).calls.trace, event.frame))
  {
    P.WaiterHoldsFirstMatch(caps, events, waiter);
    AppliedWasRead(config, steps, caps, events);
  }

  /**
   Sound outcomes for `start`; an observed event is the first start on the thread and carries the
   returned turn id.
   */
  lemma StartIsSound(
    config: T.Config, steps: seq<T.Step>, c: nat, result: T.Outcome, target: ActionTarget, correlation: nat,
    caps: P.Capacities, events: seq<P.Step>, waiter: nat)
    requires Told(T.Run(config, steps).calls, c, result) && P.Sensible(caps)
    requires var ops := P.Run(caps, events).ingress.waiterOps;
             waiter < |ops| && ops[waiter] == R.Register(waiter, Started(target.threadId))
    ensures var s, g := T.Run(config, steps).calls, P.Run(caps, events).ingress;
            var outcome := StartOutcome(target, correlation, result, Received(g, waiter));
            && OneFrame(s, c)
            && (outcome.Confirmed? <==> result.Ok? && result.reply.turnId.Some?)
            && (outcome.Confirmed? ==> DaemonAnswered(s, c, result))
            && Classifies(outcome, target, correlation, result)
            && Observes(outcome, Matching(result, Received(g, waiter)))
            && (outcome.Confirmed? && outcome.evidence.observedSequence.Some? ==>
                  exists event :: event in g.history && event.Method() == Some("turn/started") &&
                    event.threadId == Some(target.threadId) && event.turnId == result.reply.turnId &&
                    outcome.evidence.observedSequence == Some(event.sequence) &&
                    (Fed(config, steps, caps, events) ==> T.WasRead(s.trace, event.frame)))
            && (outcome.Rejected? ==> RejectedRightly(s, c, outcome.rpcError))
  {
    CallIsTruthful(config, steps, c, result);
    StartWaiterHolds(config, steps, caps, events, waiter, target.threadId);
  }

  /** As `DaemonAnswered`, with the frame written no earlier than trace position `m`. */
  ghost predicate DaemonAnsweredAfter(s: T.Calls, c: nat, result: T.Outcome, m: nat) {
    exists id: nat, i: nat, j: nat ::
      0 < id < |s.owners| && s.owners[id] == c && m <= i && T.AnsweredAt(s.trace, id, result, i, j)
  }

  /** A call made after a point of the run is written, if at all, after that point. */
  lemma LaterCallIsLater(config: T.Config, steps: seq<T.Step>, n: nat, r: nat, read: T.Outcome)
    requires n <= |steps| && |T.Run(config, steps[..n]).calls.callers| <= r
    requires read.Ok? && Told(T.Run(config, steps).calls, r, read)
    ensures DaemonAnsweredAfter(T.Run(config, steps).calls, r, read, |T.Run(config, steps[..n]).calls.trace|)
  {
    var early, s := T.Run(config, steps[..n]).calls, T.Run(config, steps).calls;
    CallIsTruthful(config, steps, r, read);
    T.RunKeepsInv(config, steps[..n]);
    T.RunGrows(config, steps, n);
    var id :| 0 < id < |s.owners| && s.owners[id] == r && T.Answered(s.trace, id, read);
    var i: nat, j: nat :| T.AnsweredAt(s.trace, id, read, i, j);
    if i < |early.trace| {
      assert early.trace[i] == s.trace[i];
      T.WrittenIsCurrent(early, i);
    }
  }

  /** When `interrupt` falls back to a `thread/read`. */
  predicate ReadsThread(result: T.Outcome, completion: Option<SequencedEvent>) {
    (result.Ok? && completion.None?) || result.WrittenOutcomeUnknown? || result.TimedOut?
  }

  /**
   Sound outcomes for `interrupt`, and exactly when it is confirmed: a completion of this very turn was
   applied after the waiter was registered (and read off the socket, if this transport feeds the
   pipeline), or a `thread/read` sent after the interrupt had its result was answered and showed the
   turn terminal.
   */
  lemma InterruptIsSound(
    config: T.Config, steps: seq<T.Step>, n: nat, c: nat, result: T.Outcome, r: nat, read: T.Outcome,
    target: ActionTarget, correlation: nat, caps: P.Capacities, events: seq<P.Step>, waiter: nat)
    requires target.TurnTarget? && P.Sensible(caps) && n <= |steps|
    requires Told(T.Run(config, steps[..n]).calls, c, result) && |T.Run(config, steps[..n]).calls.callers| <= r
    requires ReadsThread(result, Received(P.Run(caps, events).ingress, waiter)) ==>
               Told(T.Run(config, steps).calls, r, read)
    requires var ops := P.Run(caps, events).ingress.waiterOps;
             waiter < |ops| && ops[waiter] == R.Register(waiter, Completion(target.threadId, target.turnId))
    ensures var s, g := T.Run(config, steps).calls, P.Run(caps, events).ingress;
            var outcome := InterruptOutcome(target, correlation, result, Received(g, waiter), read);
            && OneFrame(s, c)
            && (outcome.Confirmed? <==>
                  || (result.Ok? && Received(g, waiter).Some?)
                  || (ReadsThread(result, Received(g, waiter)) && ShowsEnded(read, target.turnId)))
            && Classifies(outcome, target, correlation, result)
            && Observes(outcome, if result.Ok? then Received(g, waiter) else None)
            && (outcome.Confirmed? ==>
                  || (exists event :: R.Fire(event) in g.waiterOps[waiter + 1..] && event in g.history &&
                        event.Method() == Some("turn/completed") &&
                        event.threadId == Some(target.threadId) && event.turnId == Some(target.turnId) &&
                        (Fed(config, steps, caps, events) ==> T.WasRead(s.trace, event.frame)) &&
                        outcome.evidence.observedSequence == Some(event.sequence))
                  || (DaemonAnsweredAfter(s, r, read, |T.Run(config, steps[..n]).calls.trace|) &&
                      ShowsEnded(read, target.turnId)))
            && (outcome.Rejected? ==> RejectedRightly(s, c, outcome.rpcError))
  {
    var s, g := T.Run(config, steps).calls, P.Run(caps, events).ingress;
    T.RunFromSplit(T.Initial(config), config, steps, n);
    T.FinishedIsFinal(T.Run(config, steps[..n]), config, steps[n..], c);
    CallIsTruthful(config, steps, c, result);
    P.WaiterHoldsFirstMatch(caps, events, waiter);
    AppliedWasRead(config, steps, caps, events);
    ShowsTerminalIff(read, target.turnId);
    if Received(g, waiter).Some? {
      P.FirstMatchIsApplied(g.waiterOps[waiter + 1..], g.waiterOps[waiter].matches);
    }
    if ReadsThread(result, Received(g, waiter)) && ShowsTerminal(read, target.turnId) {
      LaterCallIsLater(config, steps, n, r, read);
    }
  }

  /** What `interrupt` goes by says that the turn ended interrupted. */
  ghost predicate SaysInterrupted(
    result: T.Outcome, completion: Option<SequencedEvent>, read: T.Outcome, turnId: string)
    requires completion.Some? ==> !completion.value.frame.Response?
  {
    if result.Ok? && completion.Some? then completion.value.frame.params.turnStatus == Some("interrupted")
    else ShowsStatus(read, turnId, "interrupted")
  }

  /**
   Exactly when a confirmed interrupt means that the turn ended interrupted: the completion the waiter
   held says so, and where a read decides instead, it does not show the turn completed or failed.
   */
  lemma ConfirmedMeansInterruptedIff(
    target: ActionTarget, correlation: nat, result: T.Outcome, completion: Option<SequencedEvent>, read: T.Outcome)
    requires target.TurnTarget?
    requires completion.Some? ==> IsCompletion(completion.value, target.threadId, target.turnId)
    ensures var outcome := InterruptOutcome(target, correlation, result, completion, read);
            (outcome.Confirmed? ==> SaysInterrupted(result, completion, read, target.turnId)) <==>
            && (result.Ok? && completion.Some? ==> completion.value.frame.params.turnStatus == Some("interrupted"))
            && (ReadsThread(result, completion) ==>
                  !ShowsStatus(read, target.turnId, "completed") && !ShowsStatus(read, target.turnId, "failed"))
  {
    ShowsTerminalIff(read, target.turnId);
    ShownStatusIff(read, target.turnId, "completed");
    ShownStatusIff(read, target.turnId, "failed");
    ShownStatusIff(read, target.turnId, "interrupted");
  }

  /** A run in which it does not: the turn completes by itself, and that confirms the interrupt. */
  lemma CompletedTurnConfirms(
    caps: P.Capacities, event: SequencedEvent, target: ActionTarget, correlation: nat, reply: Reply, read: T.Outcome)
    returns (steps: seq<P.Step>)
    requires P.Sensible(caps) && target.TurnTarget? && IsCompletion(event, target.threadId, target.turnId)
    requires event.sequence > 0 && event.frame.params.turnStatus == Some("completed")
    ensures var g := P.Run(caps, steps).ingress;
            && g.waiterOps == [R.Register(0, Completion(target.threadId, target.turnId)), R.Fire(event)]
            && Received(g, 0) == Some(event)
            && InterruptOutcome(target, correlation, T.Ok(reply), Received(g, 0), read) ==
               Confirmed(target, Observed(correlation, event))
            && !SaysInterrupted(T.Ok(reply), Received(g, 0), read, target.turnId)
  {
    var matches := Completion(target.threadId, target.turnId);
    steps := [P.RegisterWaiter(matches)];
    P.RunSnoc(caps, [], P.RegisterWaiter(matches));
    assert [] + steps == steps;
    P.ProducerStep(caps, steps, P.Take(event));
    steps := steps + [P.Take(event)];
    P.ProducerStep(caps, steps, P.Retain);
    steps := steps + [P.Retain];
    assert P.Run(caps, steps).ingress.stage == P.Logged;
    P.ProducerStep(caps, steps, P.Notify);
    steps := steps + [P.Notify];
    var ops := P.Run(caps, steps).ingress.waiterOps;
    assert ops == [R.Register(0, matches), R.Fire(event)];
    P.WaiterHoldsFirstMatch(caps, steps, 0);
    assert ops[1..] == [R.Fire(event)];
  }

  /** A completion applied any time after registration, even before the response, confirms an accepted interrupt. */
  lemma EarlyCompletionConfirms(
    target: ActionTarget, correlation: nat, reply: Reply, read: T.Outcome,
    caps: P.Capacities, events: seq<P.Step>, waiter: nat, k: nat)
    requires target.TurnTarget? && P.Sensible(caps)
    requires var ops := P.Run(caps, events).ingress.waiterOps;
             waiter < k < |ops| && ops[waiter] == R.Register(waiter, Completion(target.threadId, target.turnId)) &&
             ops[k].Fire? && ops[k].event.Method() == Some("turn/completed") &&
             ops[k].event.threadId == Some(target.threadId) && ops[k].event.turnId == Some(target.turnId)
    ensures var g := P.Run(caps, events).ingress;
            var outcome := InterruptOutcome(target, correlation, T.Ok(reply), Received(g, waiter), read);
            outcome.Confirmed? && outcome.evidence.rpcAccepted && outcome.evidence.observedSequence.Some?
  {
    var ops := P.Run(caps, events).ingress.waiterOps;
    P.WaiterHoldsFirstMatch(caps, events, waiter);
    assert ops[waiter + 1..][k - waiter - 1] == ops[k];
    R.FirstMatchIsFirst(ops[waiter + 1..], ops[waiter].matches, k - waiter - 1);
  }

  // ---------------------------------------------------------------- the controller object

  /** The operations that applying these events performs on the waiters. */
  function Fires(events: seq<SequencedEvent>): seq<R.WaiterOp> {
    seq(|events|, i requires 0 <= i < |events| => R.Fire(events[i]))
  }

  class Controller {
    const reducer: R.Reducer
    const notWrittenRetries: nat
    var threadLocks: map<string, nat>
    var nextLock: nat
    var nextCorrelation: nat

    ghost predicate Valid()
      reads this, reducer
    {
      && reducer.Valid() && |reducer.lifecycle| <= reducer.lifecycleCapacity
      && (forall id <- threadLocks :: threadLocks[id] < nextLock)
      && (forall a, b :: a in threadLocks && b in threadLocks && a != b ==> threadLocks[a] != threadLocks[b])
    }

    constructor (reducer: R.Reducer, notWrittenRetries: nat)
      requires reducer.Valid() && |reducer.lifecycle| <= reducer.lifecycleCapacity
      ensures Valid() && this.reducer == reducer && this.notWrittenRetries == notWrittenRetries
      ensures nextCorrelation == 1 && threadLocks == map[]
    {
      this.reducer, this.notWrittenRetries := reducer, notWrittenRetries;
      threadLocks, nextLock, nextCorrelation := map[], 0, 1;
    }

    /** One lock per thread, for good: the same thread always gets the same lock, two threads never share one. */
    method LockFor(id: string) returns (lock: nat)
      requires Valid()
      modifies this`threadLocks, this`nextLock
      ensures Valid() && id in threadLocks && lock == threadLocks[id]
      ensures threadLocks == old(threadLocks)[id := lock]
      ensures id in old(threadLocks) ==> threadLocks == old(threadLocks)
    {
      if id !in threadLocks {
        threadLocks := threadLocks[id := nextLock];
        nextLock := nextLock + 1;
      }
      lock := threadLocks[id];
    }

    /** Resends only after `NotWritten`; `answer(n)` is what the n-th attempt gets. */
    method SendNotWrittenSafe(answer: nat -> T.Outcome) returns (result: T.Outcome)
      ensures result == SafeSend(answer, notWrittenRetries, 0)
      ensures exists last: nat :: Settles(answer, notWrittenRetries, last) && result == answer(last)
    {
      var retries := 0;
      while true
        invariant 0 <= retries <= notWrittenRetries
        invariant forall n :: 0 <= n < retries ==> answer(n) == T.NotWritten
        invariant SafeSend(answer, notWrittenRetries, retries) == SafeSend(answer, notWrittenRetries, 0)
        decreases notWrittenRetries - retries
      {
        result := answer(retries);
        if result.NotWritten? && retries < notWrittenRetries {
          retries := retries + 1;
        } else {
          assert Settles(answer, notWrittenRetries, retries);
          return;
        }
      }
    }

    /** The ingress task applies events while an action waits. */
    method Ingest(events: seq<SequencedEvent>)
      requires Valid()
      modifies reducer
      ensures Valid() && reducer.Waits() == R.RunWaiters(old(reducer.Waits()), Fires(events))
      ensures reducer.nextWaiter == old(reducer.nextWaiter)
    {
      ghost var start := reducer.Waits();
      assert Fires(events)[0..] == Fires(events);
      for i := 0 to |events|
        invariant Valid() && reducer.nextWaiter == old(reducer.nextWaiter)
        invariant R.RunWaiters(reducer.Waits(), Fires(events)[i..]) == R.RunWaiters(start, Fires(events))
      {
        assert Fires(events)[i..][1..] == Fires(events)[i + 1..];
        reducer.Apply(events[i]);
      }
    }

    /** Registers a waiter, lets events arrive, and says what the waiter then holds. */
    method AwaitFirst(matches: R.Predicate, events: seq<SequencedEvent>) returns (received: Option<SequencedEvent>)
      requires Valid()
      modifies reducer
      ensures Valid() && received == R.FirstMatch(Fires(events), matches)
    {
      var id := reducer.RegisterWaiter(matches);
      ghost var registered := reducer.Waits();
      Ingest(events);
      R.WaiterGetsFirstMatch(registered, id, matches, Fires(events));
      received := if id in reducer.fired then Some(reducer.fired[id]) else None;
    }

    /**
     `interrupt`. The waiter is registered before anything is sent; `events` is what ingress applies
     from then until the correlation window closes, before and after the response alike.
     */
    method Interrupt(
      threadId: string, turnId: string, answer: nat -> T.Outcome, events: seq<SequencedEvent>, read: T.Outcome)
      returns (outcome: ActionOutcome)
      requires Valid()
      modifies this, reducer
      ensures Valid() && nextCorrelation == old(nextCorrelation) + 1 && threadId in threadLocks
      ensures outcome == InterruptOutcome(TurnTarget(threadId, turnId), old(nextCorrelation),
                                          SafeSend(answer, notWrittenRetries, 0),
                                          R.FirstMatch(Fires(events), Completion(threadId, turnId)), read)
    {
      var target := TurnTarget(threadId, turnId);
      var _ := LockFor(threadId);
      var correlation := nextCorrelation;
      nextCorrelation := nextCorrelation + 1;
      var completion := AwaitFirst(Completion(threadId, turnId), events);
      var result := SendNotWrittenSafe(answer);
      match result {
        case Ok(_) =>
          if completion.Some? {
            outcome := Confirmed(target, Observed(correlation, completion.value));
          } else {
            outcome := ReconcileInterrupt(target, correlation, true, read);
          }
        case Rejected(error) => outcome := Rejected(target, Some(error));
        case WrittenOutcomeUnknown => outcome := ReconcileInterrupt(target, correlation, false, read);
        case TimedOut => outcome := ReconcileInterrupt(target, correlation, false, read);
        case _ => outcome := Rejected(target, None);
      }
    }

    /** `start`, with the events ingress applies from the registration to the end of the window. */
    method Start(threadId: string, answer: nat -> T.Outcome, events: seq<SequencedEvent>)
      returns (outcome: ActionOutcome)
      requires Valid()
      modifies this, reducer
      ensures Valid() && nextCorrelation == old(nextCorrelation) + 1 && threadId in threadLocks
      ensures outcome == StartOutcome(ThreadTarget(threadId), old(nextCorrelation),
                                      SafeSend(answer, notWrittenRetries, 0),
                                      R.FirstMatch(Fires(events), Started(threadId)))
    {
      var target := ThreadTarget(threadId);
      var _ := LockFor(threadId);
      var correlation := nextCorrelation;
      nextCorrelation := nextCorrelation + 1;
      var started := AwaitFirst(Started(threadId), events);
      var result := SendNotWrittenSafe(answer);
      match result {
        case Ok(reply) =>
          var turn := reply.turnId;
          if turn.Some? && started.Some? && started.value.turnId == turn {
            outcome := Confirmed(target, Observed(correlation, started.value));
          } else if turn.Some? {
            outcome := Confirmed(target, Plain(correlation, true));
          } else {
            outcome := OutcomeUnknown(target, Plain(correlation, true));
          }
        case Rejected(error) => outcome := Rejected(target, Some(error));
        case WrittenOutcomeUnknown => outcome := OutcomeUnknown(target, Plain(correlation, false));
        case TimedOut => outcome := OutcomeUnknown(target, Plain(correlation, false));
        case _ => outcome := Rejected(target, None);
      }
    }

    /** `steer`, through `rpc_response_action`: no waiter, the response alone decides. */
    method Steer(threadId: string, expectedTurnId: string, answer: nat -> T.Outcome) returns (outcome: ActionOutcome)
      requires Valid()
      modifies this
      ensures Valid() && nextCorrelation == old(nextCorrelation) + 1 && threadId in threadLocks
      ensures outcome == SteerOutcome(TurnTarget(threadId, expectedTurnId), old(nextCorrelation),
                                      SafeSend(answer, notWrittenRetries, 0))
    {
      var target := TurnTarget(threadId, expectedTurnId);
      var _ := LockFor(threadId);
      var correlation := nextCorrelation;
      nextCorrelation := nextCorrelation + 1;
      var result := SendNotWrittenSafe(answer);
      match result {
        case Ok(_) => outcome := Confirmed(target, Plain(correlation, true));
        case Rejected(error) => outcome := Rejected(target, Some(error));
        case WrittenOutcomeUnknown => outcome := OutcomeUnknown(target, Plain(correlation, false));
        case TimedOut => outcome := OutcomeUnknown(target, Plain(correlation, false));
        case _ => outcome := Rejected(target, None);
      }
    }
  }
}
