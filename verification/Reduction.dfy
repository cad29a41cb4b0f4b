/**
 The authoritative reducer: current thread state with inline pruning, the bounded lifecycle
 replay log, and one-shot waiters. Each section the code runs under one lock is one function
 on values here; the class below is proved against those functions.
 */
module Reduction {
  import opened Sequences
  import opened Protocol

  // ---------------------------------------------------------------- thread state

  datatype ThreadState = ThreadState(
    threadId: string,
    status: string,
    activeTurnId: Option<string>,
    subscribed: bool,
    ephemeral: bool,
    lastSequence: Sequence,
    rawThread: Option<ThreadRecord>)

  datatype Snapshot = Snapshot(atSequence: Sequence, threads: map<string, ThreadState>)

  datatype Core = Core(snapshot: Snapshot, subscribing: set<string>)

  const EMPTY_CORE := Core(Snapshot(0, map[]), {})

  function UnknownThread(id: string): ThreadState {
    ThreadState(id, "unknown", None, false, false, 0, None)
  }

  function Entry(threads: map<string, ThreadState>, id: string): ThreadState {
    if id in threads then threads[id] else UnknownThread(id)
  }

  predicate IsPrunable(thread: ThreadState) {
    !thread.subscribed && thread.activeTurnId.None?
  }

  function UpdateThread(thread: ThreadState, event: SequencedEvent): ThreadState {
    var t := thread.(lastSequence := event.sequence);
    match event.Method()
    case None => t
    case Some(name) =>
      var params := event.frame.params;
      if name == "thread/started" then
        t.(status := "idle", rawThread := params.thread,
           ephemeral := params.thread.Some? && params.thread.value.ephemeral == Some(true))
      else if name == "thread/status/changed" then
        t.(status := if params.status.Some? then params.status.value else "unknown")
      else if name == "turn/started" then
        t.(status := "active", activeTurnId := event.turnId)
      else if name == "turn/completed" then
        t.(status := "idle",
           activeTurnId := if t.activeTurnId == event.turnId || event.turnId.None? then None else t.activeTurnId)
      else t
  }

  /** A record written back, unless it has become irrelevant. */
  function KeepIfRelevant(
    threads: map<string, ThreadState>, subscribing: set<string>, id: string, thread: ThreadState)
    : map<string, ThreadState>
  {
    if id !in subscribing && IsPrunable(thread) then threads - {id} else threads[id := thread]
  }

  function FoldEvent(core: Core, event: SequencedEvent): Core {
    var at := if core.snapshot.atSequence < event.sequence then event.sequence else core.snapshot.atSequence;
    var threads := core.snapshot.threads;
    match event.threadId
    case None => core.(snapshot := Snapshot(at, threads))
    case Some(id) =>
      var thread := UpdateThread(Entry(threads, id), event);
      core.(snapshot := Snapshot(at, KeepIfRelevant(threads, core.subscribing, id, thread)))
  }

  function BeginSubscription(core: Core, id: string): Core {
    Core(core.snapshot.(threads := core.snapshot.threads[id := Entry(core.snapshot.threads, id)]),
         core.subscribing + {id})
  }

  function FinishSubscription(core: Core, id: string): Core {
    Core(core.snapshot.(threads :=
           core.snapshot.threads[id := Entry(core.snapshot.threads, id).(subscribed := true)]),
         core.subscribing - {id})
  }

  function CancelSubscription(core: Core, id: string): Core {
    var threads := core.snapshot.threads;
    Core(core.snapshot.(threads := if id in threads && IsPrunable(threads[id]) then threads - {id} else threads),
         core.subscribing - {id})
  }

  /** `set_subscribed(id, false)`. */
  function Unsubscribe(core: Core, id: string): Core {
    var threads := core.snapshot.threads;
    var subscribing := core.subscribing - {id};
    if id !in threads then core.(subscribing := subscribing)
    else
      var thread := threads[id].(subscribed := false);
      Core(core.snapshot.(threads := if IsPrunable(thread) then threads - {id} else threads[id := thread]),
           subscribing)
  }

  predicate Kept(core: Core, id: string)
    requires id in core.snapshot.threads
  {
    id in core.subscribing || !IsPrunable(core.snapshot.threads[id])
  }

  function EvictIdle(core: Core): Core {
    core.(snapshot := core.snapshot.(threads :=
      map id | id in core.snapshot.threads && Kept(core, id) :: core.snapshot.threads[id]))
  }

  function ReconcileThread(core: Core, raw: ThreadRecord): Core {
    match raw.id
    case None => core
    case Some(id) =>
      var turn := if raw.turns.Some? then InFlightTurn(raw.turns.value) else None;
      var status := if raw.status.Some? then raw.status.value else "unknown";
      var threads := core.snapshot.threads;
      core.(snapshot := core.snapshot.(threads := threads[id := ThreadState(
        id, if turn.Some? then "active" else status, turn, id in threads && threads[id].subscribed,
        raw.ephemeral == Some(true), core.snapshot.atSequence, Some(raw))]))
  }

  // ---------------------------------------------------------------- never-pruning reference

  datatype CoreOp =
    | Fold(event: SequencedEvent)
    | Begin(id: string)
    | Finish(id: string)
    | Cancel(id: string)
    | Release(id: string)
    | Evict
    | Reconcile(raw: ThreadRecord)

  function StepCore(core: Core, op: CoreOp): Core {
    match op
    case Fold(event) => FoldEvent(core, event)
    case Begin(id) => BeginSubscription(core, id)
    case Finish(id) => FinishSubscription(core, id)
    case Cancel(id) => CancelSubscription(core, id)
    case Release(id) => Unsubscribe(core, id)
    case Evict => EvictIdle(core)
    case Reconcile(raw) => ReconcileThread(core, raw)
  }

  function RunCore(ops: seq<CoreOp>): Core {
    if ops == [] then EMPTY_CORE else StepCore(RunCore(ops[..|ops| - 1]), ops[|ops| - 1])
  }

  /**
   What a reducer that never forgets knows about one thread. `lingers` is true from a
   `thread/read` reconciliation until the next operation that applies the pruning rule to the thread.
   */
  datatype View = View(turn: Option<string>, subscribed: bool, subscribing: bool, lingers: bool) {
    predicate Relevant() {
      turn.Some? || subscribed || subscribing
    }
  }

  const UNSEEN := View(None, false, false, false)

  function ViewEvent(v: View, event: SequencedEvent): View {
    var w := v.(lingers := false);
    match event.Method()
    case None => w
    case Some(name) =>
      if name == "turn/started" then w.(turn := event.turnId)
      else if name == "turn/completed" && event.turnId in {None, v.turn} then w.(turn := None)
      else w
  }

  function StepView(v: View, op: CoreOp, id: string): View {
    match op
    case Fold(event) => if event.threadId == Some(id) then ViewEvent(v, event) else v
    case Begin(i) => if i == id then v.(subscribing := true) else v
    case Finish(i) => if i == id then v.(subscribing := false, subscribed := true) else v
    case Cancel(i) => if i == id then v.(subscribing := false, lingers := false) else v
    case Release(i) => if i == id then v.(subscribing := false, subscribed := false, lingers := false) else v
    case Evict => v.(lingers := false)
    case Reconcile(raw) =>
      if raw.id != Some(id) then v
      else v.(turn := if raw.turns.Some? then InFlightTurn(raw.turns.value) else None, lingers := true)
  }

  /** The reference: the view of one thread after a history, with nothing ever removed. */
  function RunView(ops: seq<CoreOp>, id: string): View {
    if ops == [] then UNSEEN else StepView(RunView(ops[..|ops| - 1], id), ops[|ops| - 1], id)
  }

  ghost predicate Agrees(core: Core, id: string, v: View) {
    && (id in core.snapshot.threads <==> v.Relevant() || v.lingers)
    && (id in core.subscribing <==> v.subscribing)
    && var thread := Entry(core.snapshot.threads, id);
       thread.threadId == id && thread.activeTurnId == v.turn && thread.subscribed == v.subscribed
  }

  lemma UpdateAgrees(thread: ThreadState, event: SequencedEvent, v: View)
    requires thread.activeTurnId == v.turn
    ensures var after := UpdateThread(thread, event);
            && after.activeTurnId == ViewEvent(v, event).turn
            && after.threadId == thread.threadId && after.subscribed == thread.subscribed
    ensures var w := ViewEvent(v, event); w == v.(turn := w.turn, lingers := false)
  {
  }

  lemma FoldAgrees(core: Core, event: SequencedEvent, id: string, v: View)
    requires Agrees(core, id, v)
    ensures Agrees(FoldEvent(core, event), id, StepView(v, Fold(event), id))
  {
    UpdateAgrees(Entry(core.snapshot.threads, id), event, v);
  }

  lemma StepAgrees(core: Core, op: CoreOp, id: string, v: View)
    requires Agrees(core, id, v)
    ensures Agrees(StepCore(core, op), id, StepView(v, op, id))
  {
    if op.Fold? {
      FoldAgrees(core, op.event, id, v);
    }
  }

  /**
   Pruning refines never-pruning: after any history the pruned map, with an absent entry read
   as "no turn, not subscribed", answers exactly what the reference knows, and its keys are
   exactly the relevant threads plus those a reconciliation left behind.
   */
  lemma {:induction false} PruningRefinesReference(ops: seq<CoreOp>, id: string)
    ensures Agrees(RunCore(ops), id, RunView(ops, id))
  {
    if ops != [] {
      PruningRefinesReference(ops[..|ops| - 1], id);
      StepAgrees(RunCore(ops[..|ops| - 1]), ops[|ops| - 1], id, RunView(ops[..|ops| - 1], id));
    }
  }

  lemma {:induction false} NothingLingersWithoutReconcile(ops: seq<CoreOp>, id: string)
    requires forall op <- ops :: !op.Reconcile?
    ensures !RunView(ops, id).lingers
  {
    if ops != [] {
      NothingLingersWithoutReconcile(ops[..|ops| - 1], id);
    }
  }

  /** The state is bounded by relevance whenever no reconciliation, or an eviction pass, came last. */
  lemma StateIsBounded(ops: seq<CoreOp>)
    requires (forall op <- ops :: !op.Reconcile?) || (ops != [] && ops[|ops| - 1].Evict?)
    ensures forall id :: id in RunCore(ops).snapshot.threads <==> RunView(ops, id).Relevant()
  {
    forall id ensures id in RunCore(ops).snapshot.threads <==> RunView(ops, id).Relevant() {
      PruningRefinesReference(ops, id);
      if forall op <- ops :: !op.Reconcile? {
        NothingLingersWithoutReconcile(ops, id);
      }
    }
  }

  /** A thread with an active turn says so. */
  predicate StatusFollowsTurn(thread: ThreadState) {
    thread.activeTurnId.Some? ==> thread.status == "active"
  }

  /** The status an operation writes to a thread, if it writes one. */
  function WrittenStatus(op: CoreOp, id: string): Option<string> {
    match op
    case Fold(event) =>
      if event.threadId != Some(id) then None
      else
        (match event.Method()
         case None => None
         case Some(name) =>
           if name == "turn/started" then Some("active")
           else if name == "turn/completed" || name == "thread/started" then Some("idle")
           else if name != "thread/status/changed" then None
           else if event.frame.params.status.Some? then event.frame.params.status
           else Some("unknown"))
    case Reconcile(raw) =>
      if raw.id != Some(id) then None
      else if raw.turns.Some? && InFlightTurn(raw.turns.value).Some? then Some("active")
      else if raw.status.Some? then raw.status
      else Some("unknown")
    case _ => None
  }

  function LastStatus(ops: seq<CoreOp>, id: string): Option<string> {
    if ops == [] then None
    else if WrittenStatus(ops[|ops| - 1], id).Some? then WrittenStatus(ops[|ops| - 1], id)
    else LastStatus(ops[..|ops| - 1], id)
  }

  /** What is known of a thread's status: with an active turn it is the last one written. */
  ghost predicate StatusIsLast(core: Core, id: string, v: View, last: Option<string>) {
    v.turn.Some? ==> last == Some(Entry(core.snapshot.threads, id).status)
  }

  lemma FoldKeepsStatus(core: Core, event: SequencedEvent, id: string, v: View, last: Option<string>)
    requires Agrees(core, id, v) && StatusIsLast(core, id, v, last)
    ensures var op := Fold(event);
            StatusIsLast(FoldEvent(core, event), id, StepView(v, op, id),
                         if WrittenStatus(op, id).Some? then WrittenStatus(op, id) else last)
  {
    FoldAgrees(core, event, id, v);
  }

  lemma StepKeepsStatus(core: Core, op: CoreOp, id: string, v: View, last: Option<string>)
    requires Agrees(core, id, v) && StatusIsLast(core, id, v, last)
    ensures StatusIsLast(StepCore(core, op), id, StepView(v, op, id),
                         if WrittenStatus(op, id).Some? then WrittenStatus(op, id) else last)
  {
    if op.Fold? {
      FoldKeepsStatus(core, op.event, id, v, last);
    }
  }

  lemma {:induction false} StatusIsLastWritten(ops: seq<CoreOp>, id: string)
    ensures StatusIsLast(RunCore(ops), id, RunView(ops, id), LastStatus(ops, id))
  {
    if ops != [] {
      var front := ops[..|ops| - 1];
      StatusIsLastWritten(front, id);
      PruningRefinesReference(front, id);
      StepKeepsStatus(RunCore(front), ops[|ops| - 1], id, RunView(front, id), LastStatus(front, id));
    }
  }

  /** What a thread's record says besides its turn and subscription. */
  datatype Details = Details(status: string, lastSequence: Sequence, raw: Option<ThreadRecord>, ephemeral: bool)

  const BLANK := Details("unknown", 0, None, false)

  /** What one operation writes, given the highest sequence so far: an event what it carries, a read all of it. */
  function WriteDetails(before: Details, op: CoreOp, id: string, at: Sequence): Details {
    var status := WrittenStatus(op, id);
    match op
    case Fold(event) =>
      if event.threadId != Some(id) then before
      else
        var d := before.(lastSequence := event.sequence,
                         status := if status.Some? then status.value else before.status);
        if event.Method() != Some("thread/started") then d
        else
          var raw := event.frame.params.thread;
          d.(raw := raw, ephemeral := raw.Some? && raw.value.ephemeral == Some(true))
    case Reconcile(raw) =>
      if status.None? then before else Details(status.value, at, Some(raw), raw.ephemeral == Some(true))
    case _ => before
  }

  /** What was last written to a thread since its entry was created; an entry starts blank. */
  function DetailsOf(ops: seq<CoreOp>, id: string): Details {
    if ops == [] then BLANK
    else
      var front, v := ops[..|ops| - 1], RunView(ops[..|ops| - 1], id);
      WriteDetails(if v.Relevant() || v.lingers then DetailsOf(front, id) else BLANK,
                   ops[|ops| - 1], id, RunCore(front).snapshot.atSequence)
  }

  function Record(id: string, v: View, d: Details): ThreadState {
    ThreadState(id, d.status, v.turn, v.subscribed, d.ephemeral, d.lastSequence, d.raw)
  }

  ghost predicate IsRecorded(core: Core, id: string, v: View, d: Details) {
    id in core.snapshot.threads ==> core.snapshot.threads[id] == Record(id, v, d)
  }

  /** One event on one record. */
  lemma UpdateWrites(event: SequencedEvent, id: string, v: View, d: Details, at: Sequence)
    requires event.threadId == Some(id)
    ensures UpdateThread(Record(id, v, d), event) ==
            Record(id, ViewEvent(v, event), WriteDetails(d, Fold(event), id, at))
  {
  }

  lemma FoldIsRecorded(core: Core, event: SequencedEvent, id: string, v: View, d: Details)
    requires Agrees(core, id, v) && IsRecorded(core, id, v, d)
    ensures var before := if id in core.snapshot.threads then d else BLANK;
            IsRecorded(FoldEvent(core, event), id, StepView(v, Fold(event), id),
                       WriteDetails(before, Fold(event), id, core.snapshot.atSequence))
  {
    if event.threadId == Some(id) {
      var before := if id in core.snapshot.threads then d else BLANK;
      assert Entry(core.snapshot.threads, id) == Record(id, v, before);
      UpdateWrites(event, id, v, before, core.snapshot.atSequence);
    }
  }

  lemma StepIsRecorded(core: Core, op: CoreOp, id: string, v: View, d: Details)
    requires Agrees(core, id, v) && IsRecorded(core, id, v, d)
    ensures var before := if id in core.snapshot.threads then d else BLANK;
            IsRecorded(StepCore(core, op), id, StepView(v, op, id),
                       WriteDetails(before, op, id, core.snapshot.atSequence))
  {
    if op.Fold? {
      FoldIsRecorded(core, op.event, id, v, d);
    }
  }

  /**
   The state is exact: after any history a thread has an entry when it is relevant or lingers, and the
   entry says the turn and subscription of the reference and what was last written since its creation.
   */
  lemma {:induction false} EntriesAreExact(ops: seq<CoreOp>, id: string)
    ensures var threads, v := RunCore(ops).snapshot.threads, RunView(ops, id);
            && (id in threads <==> v.Relevant() || v.lingers)
            && (id in threads ==> threads[id] == Record(id, v, DetailsOf(ops, id)))
  {
    PruningRefinesReference(ops, id);
    if ops != [] {
      var front := ops[..|ops| - 1];
      EntriesAreExact(front, id);
      PruningRefinesReference(front, id);
      StepIsRecorded(RunCore(front), ops[|ops| - 1], id, RunView(front, id), DetailsOf(front, id));
    }
  }

  /**
   Exactly when a reachable thread with an active turn says so: the last status written to it, by
   whichever event or read, was "active". Pruning in between never matters.
   */
  lemma StatusFollowsTurnIff(ops: seq<CoreOp>, id: string)
    ensures StatusFollowsTurn(Entry(RunCore(ops).snapshot.threads, id)) <==>
            RunView(ops, id).turn.None? || LastStatus(ops, id) == Some("active")
  {
    StatusIsLastWritten(ops, id);
    PruningRefinesReference(ops, id);
  }

  /** A history that breaks it: a turn starts, and a completion arrives that names another turn. */
  lemma OtherCompletionLeavesTurn(start: SequencedEvent, end: SequencedEvent)
    requires start.Method() == Some("turn/started") && end.Method() == Some("turn/completed")
    requires start.threadId.Some? && end.threadId == start.threadId
    requires start.turnId.Some? && end.turnId.Some? && end.turnId != start.turnId
    ensures var threads := RunCore([Fold(start), Fold(end)]).snapshot.threads;
            var id := start.threadId.value;
            id in threads && threads[id].activeTurnId == start.turnId && threads[id].status == "idle"
  {
    var front, all := [Fold(start)], [Fold(start), Fold(end)];
    assert front[..|front| - 1] == [] && all[..|all| - 1] == front;
    assert RunCore(front) == FoldEvent(EMPTY_CORE, start);
  }

  // ---------------------------------------------------------------- replay log

  function AppendLog(log: seq<SequencedEvent>, capacity: nat, event: SequencedEvent): seq<SequencedEvent> {
    if event.plane == Lifecycle then LastN(log + [event], capacity) else log
  }

  datatype ReplayResult =
    | Events(events: seq<SequencedEvent>)
    | GapTooOld(requestedAfter: Sequence, oldestAvailable: Option<Sequence>, snapshot: Snapshot)

  predicate PredatesLog(log: seq<SequencedEvent>, after: Sequence) {
    log != [] && SaturatingAdd(after, 1) < log[0].sequence
  }

  function RunLog(history: seq<SequencedEvent>, capacity: nat): seq<SequencedEvent> {
    if history == [] then []
    else AppendLog(RunLog(history[..|history| - 1], capacity), capacity, history[|history| - 1])
  }

  /** The log is always the last `capacity` lifecycle events of the whole history. */
  lemma {:induction false} LogKeepsLastLifecycle(history: seq<SequencedEvent>, capacity: nat)
    ensures RunLog(history, capacity) == LastN(LifecycleOf(history), capacity)
  {
    if history != [] {
      LogKeepsLastLifecycle(history[..|history| - 1], capacity);
      LogGrows(history, capacity);
    }
  }

  lemma LogGrows(history: seq<SequencedEvent>, capacity: nat)
    requires history != []
    ensures AppendLog(LastN(LifecycleOf(history[..|history| - 1]), capacity), capacity, history[|history| - 1]) ==
            LastN(LifecycleOf(history), capacity)
  {
    OfPlaneLast(history, Lifecycle);
    LogAppend(LifecycleOf(history[..|history| - 1]), capacity, history[|history| - 1]);
  }

  lemma LogAppend(lifecycle: seq<SequencedEvent>, capacity: nat, event: SequencedEvent)
    ensures AppendLog(LastN(lifecycle, capacity), capacity, event) ==
            LastN(lifecycle + (if event.plane == Lifecycle then [event] else []), capacity)
  {
    if event.plane == Delta {
      assert lifecycle + [] == lifecycle;
    }
  }

  lemma AboveMembers(events: seq<SequencedEvent>, floor: Sequence)
    ensures forall e :: e in Above(events, floor) <==> e in events && e.sequence > floor
  {
    FilterMembers(events, NumberedAbove(floor));
  }

  /**
   Replay is exact: when the log is the tail of a strictly increasing lifecycle history and the
   request does not predate it, the answer is every lifecycle event ever numbered above the request.
   */
  lemma ReplayIsExact(lifecycle: seq<SequencedEvent>, capacity: nat, after: Sequence)
    requires capacity > 0 && Increasing(lifecycle)
    requires !PredatesLog(LastN(lifecycle, capacity), after)
    ensures Above(LastN(lifecycle, capacity), after) == Above(lifecycle, after)
  {
    if |lifecycle| > capacity {
      FilterSkips(lifecycle, |lifecycle| - capacity, NumberedAbove(after));
    }
  }

  /**
   A request is refused exactly when the number after it lies below the oldest retained event.
   If the numbers of the lifecycle plane have no holes, that is exactly when an event was lost.
   */
  lemma RefusalMeansLossWithoutDeltas(lifecycle: seq<SequencedEvent>, capacity: nat, after: Sequence)
    requires capacity > 0
    requires forall i :: 0 <= i < |lifecycle| ==> lifecycle[i].sequence == i + 1
    ensures PredatesLog(LastN(lifecycle, capacity), after) <==>
            exists e <- Above(lifecycle, after) :: e !in LastN(lifecycle, capacity)
  {
    AboveMembers(lifecycle, after);
    var log := LastN(lifecycle, capacity);
    if PredatesLog(log, after) {
      assert log[0] == lifecycle[|lifecycle| - |log|];
      assert lifecycle[after].sequence == after + 1;
      assert lifecycle[after] in Above(lifecycle, after) && lifecycle[after] !in log;
    }
  }

  lemma ForgottenIsMissing(lifecycle: seq<SequencedEvent>, k: nat, after: Sequence)
    requires k < |lifecycle| && Increasing(lifecycle) && lifecycle[k].sequence > after
    ensures Above(lifecycle[k + 1..], after) != Above(lifecycle, after)
  {
    var rest := lifecycle[k + 1..];
    AboveMembers(lifecycle, after);
    AboveMembers(rest, after);
    assert forall i :: 0 <= i < |rest| ==> rest[i].sequence > lifecycle[k].sequence;
    assert lifecycle[k] in Above(lifecycle, after);
  }

  lemma ForgottenIsMissedIff(lifecycle: seq<SequencedEvent>, k: nat, after: Sequence)
    requires k < |lifecycle| && Increasing(lifecycle)
    ensures Above(lifecycle[k + 1..], after) == Above(lifecycle, after) <==> lifecycle[k].sequence <= after
  {
    if lifecycle[k].sequence <= after {
      FilterSkips(lifecycle, k + 1, NumberedAbove(after));
    } else {
      ForgottenIsMissing(lifecycle, k, after);
    }
  }

  /** Exactly when the log still holds everything above a number: the newest forgotten event is not above it. */
  lemma NothingLostIff(lifecycle: seq<SequencedEvent>, capacity: nat, after: Sequence)
    requires capacity > 0 && Increasing(lifecycle)
    ensures Above(LastN(lifecycle, capacity), after) == Above(lifecycle, after) <==>
            |lifecycle| <= capacity || lifecycle[|lifecycle| - capacity - 1].sequence <= after
  {
    if |lifecycle| > capacity {
      var k := |lifecycle| - capacity - 1;
      assert LastN(lifecycle, capacity) == lifecycle[k + 1..];
      ForgottenIsMissedIff(lifecycle, k, after);
    }
  }

  /** The number of the newest event the log has forgotten, or 0 if it has forgotten none. */
  function NewestForgotten(lifecycle: seq<SequencedEvent>, capacity: nat): Sequence {
    if |lifecycle| <= capacity then 0 else lifecycle[|lifecycle| - capacity - 1].sequence
  }

  ghost predicate RefusalMeansLoss(lifecycle: seq<SequencedEvent>, capacity: nat, after: Sequence) {
    PredatesLog(LastN(lifecycle, capacity), after) ==>
      Above(LastN(lifecycle, capacity), after) != Above(lifecycle, after)
  }

  /**
   Exactly when every refusal is honest: no number lies unused between the newest forgotten event (or
   the start of the numbering) and the oldest retained one.
   */
  lemma RefusalsAreHonestIff(lifecycle: seq<SequencedEvent>, capacity: nat)
    requires capacity > 0 && Increasing(lifecycle) && lifecycle != []
    ensures (forall after :: RefusalMeansLoss(lifecycle, capacity, after)) <==>
            LastN(lifecycle, capacity)[0].sequence <= NewestForgotten(lifecycle, capacity) + 1
  {
    var forgotten := NewestForgotten(lifecycle, capacity);
    forall after ensures RefusalMeansLoss(lifecycle, capacity, after) <==>
                         !PredatesLog(LastN(lifecycle, capacity), after) ||
                         (|lifecycle| > capacity && forgotten > after)
    {
      NothingLostIff(lifecycle, capacity, after);
    }
    if LastN(lifecycle, capacity)[0].sequence > forgotten + 1 {
      assert !RefusalMeansLoss(lifecycle, capacity, forgotten);
    }
  }

  /** Delta frames use up numbers too, so a request can be refused although nothing was lost. */
  lemma RefusalWithoutLoss(delta: SequencedEvent, event: SequencedEvent, capacity: nat)
    requires capacity > 0 && delta.plane == Delta && delta.sequence == 1
    requires event.plane == Lifecycle && event.sequence == 2
    ensures var log := RunLog([delta, event], capacity);
            PredatesLog(log, 0) && Above(log, 0) == Above(LifecycleOf([delta, event]), 0)
  {
    var front, all := [delta], [delta, event];
    LogKeepsLastLifecycle(all, capacity);
    OfPlaneLast(all, Lifecycle);
    OfPlaneLast(front, Lifecycle);
    assert all[..|all| - 1] == front && front[..|front| - 1] == [];
    assert OfPlane([], Lifecycle) == [];
  }

  // ---------------------------------------------------------------- waiters

  type Predicate = SequencedEvent -> bool

  datatype Waiter = Waiter(id: nat, matches: Predicate)

  /** Waiters still open, and the event each fired waiter received. */
  datatype Waiting = Waiting(open: map<nat, Predicate>, fired: map<nat, SequencedEvent>)

  datatype WaiterOp = Register(id: nat, matches: Predicate) | Fire(event: SequencedEvent)

  ghost function FireWaiters(w: Waiting, event: SequencedEvent): Waiting {
    Waiting(Missed(w.open, event), w.fired + Hits(w.open, event))
  }

  ghost function Missed(open: map<nat, Predicate>, event: SequencedEvent): map<nat, Predicate> {
    map id | id in open && !open[id](event) :: open[id]
  }

  ghost function Hits(open: map<nat, Predicate>, event: SequencedEvent): map<nat, SequencedEvent> {
    map id | id in open && open[id](event) :: event
  }

  ghost function StepWaiters(w: Waiting, op: WaiterOp): Waiting {
    match op
    case Register(id, matches) => w.(open := w.open[id := matches])
    case Fire(event) => FireWaiters(w, event)
  }

  ghost function RunWaiters(w: Waiting, ops: seq<WaiterOp>): Waiting
    decreases |ops|
  {
    if ops == [] then w else RunWaiters(StepWaiters(w, ops[0]), ops[1..])
  }

  /** The earliest event in a run of operations that satisfies the predicate. */
  function FirstMatch(ops: seq<WaiterOp>, matches: Predicate): Option<SequencedEvent> {
    if ops == [] then None
    else if ops[0].Fire? && matches(ops[0].event) then Some(ops[0].event)
    else FirstMatch(ops[1..], matches)
  }

  ghost predicate Registers(op: WaiterOp, id: nat) {
    op.Register? && op.id == id
  }

  lemma {:induction false} FiredStays(w: Waiting, ops: seq<WaiterOp>, id: nat)
    requires id in w.fired && id !in w.open
    requires forall op <- ops :: !Registers(op, id)
    ensures var end := RunWaiters(w, ops);
            id in end.fired && end.fired[id] == w.fired[id] && id !in end.open
    decreases |ops|
  {
    if ops != [] {
      assert ops[0] in ops;
      FiredStays(StepWaiters(w, ops[0]), ops[1..], id);
    }
  }

  /**
   A registered waiter receives the first matching event applied after its registration, once,
   and stays open exactly as long as there is none, whatever else registers or fires.
   */
  lemma {:induction false} WaiterGetsFirstMatch(w: Waiting, id: nat, matches: Predicate, ops: seq<WaiterOp>)
    requires id in w.open && w.open[id] == matches && id !in w.fired
    requires forall op <- ops :: !Registers(op, id)
    ensures var end := RunWaiters(w, ops);
            match FirstMatch(ops, matches)
            case None => id in end.open && end.open[id] == matches && id !in end.fired
            case Some(event) => id !in end.open && id in end.fired && end.fired[id] == event
    decreases |ops|
  {
    if ops != [] {
      assert ops[0] in ops;
      var next := StepWaiters(w, ops[0]);
      if ops[0].Fire? && matches(ops[0].event) {
        FiredStays(next, ops[1..], id);
      } else {
        WaiterGetsFirstMatch(next, id, matches, ops[1..]);
      }
    }
  }

  lemma {:induction false} FirstMatchIsFirst(ops: seq<WaiterOp>, matches: Predicate, k: nat)
    requires k < |ops| && ops[k].Fire? && matches(ops[k].event)
    ensures FirstMatch(ops, matches).Some? && matches(FirstMatch(ops, matches).value)
    ensures exists i :: 0 <= i <= k && ops[i].Fire? && FirstMatch(ops, matches) == Some(ops[i].event)
    ensures (forall i :: 0 <= i < k && ops[i].Fire? ==> !matches(ops[i].event)) ==>
            FirstMatch(ops, matches) == Some(ops[k].event)
  {
    if !(ops[0].Fire? && matches(ops[0].event)) {
      FirstMatchIsFirst(ops[1..], matches, k - 1);
      var i :| 0 <= i <= k - 1 && ops[1..][i].Fire? && FirstMatch(ops[1..], matches) == Some(ops[1..][i].event);
      assert ops[i + 1].Fire? && FirstMatch(ops, matches) == Some(ops[i + 1].event);
    }
  }

  ghost predicate DistinctIds(waiters: seq<Waiter>) {
    forall i, j :: 0 <= i < j < |waiters| ==> waiters[i].id != waiters[j].id
  }

  ghost predicate HasId(waiters: seq<Waiter>, id: nat) {
    exists i :: 0 <= i < |waiters| && waiters[i].id == id
  }

  ghost predicate Represents(waiters: seq<Waiter>, open: map<nat, Predicate>) {
    && DistinctIds(waiters)
    && (forall w <- waiters :: w.id in open && open[w.id] == w.matches)
    && (forall id <- open :: HasId(waiters, id))
  }

  /** `Vec::swap_remove`: the last element takes the place of the removed one. */
  function SwapRemove<T>(s: seq<T>, i: nat): seq<T>
    requires i < |s|
  {
    if i == |s| - 1 then s[..i] else s[..|s| - 1][i := s[|s| - 1]]
  }

  lemma SwapRemoveTakesOne<T>(s: seq<T>, i: nat)
    requires i < |s|
    ensures multiset(SwapRemove(s, i)) + multiset{s[i]} == multiset(s)
  {
    var front := s[..|s| - 1];
    assert s == front + [s[|s| - 1]];
    if i < |s| - 1 {
      assert multiset(front[i := s[|s| - 1]]) == multiset(front) - multiset{front[i]} + multiset{s[|s| - 1]};
    }
  }

  /** No id occurs twice among the waiters left and the waiters taken. */
  ghost predicate Apart(rest: seq<Waiter>, ready: seq<Waiter>) {
    DistinctIds(rest) && DistinctIds(ready) &&
    forall i, j :: 0 <= i < |rest| && 0 <= j < |ready| ==> rest[i].id != ready[j].id
  }

  lemma TakingKeepsApart(rest: seq<Waiter>, ready: seq<Waiter>, index: nat)
    requires Apart(rest, ready) && index < |rest|
    ensures Apart(SwapRemove(rest, index), ready + [rest[index]])
  {
  }

  lemma SameMembers(waiters: seq<Waiter>, rest: seq<Waiter>, ready: seq<Waiter>)
    requires multiset(rest) + multiset(ready) == multiset(waiters)
    ensures forall w :: w in waiters <==> w in rest || w in ready
  {
    forall w ensures w in waiters <==> w in rest || w in ready {
      assert w in waiters <==> w in multiset(waiters);
      assert w in rest <==> w in multiset(rest);
      assert w in ready <==> w in multiset(ready);
    }
  }

  /** The waiter loop: splits the waiters into those the event satisfies and the rest. */
  method TakeMatching(waiters: seq<Waiter>, event: SequencedEvent) returns (rest: seq<Waiter>, ready: seq<Waiter>)
    requires DistinctIds(waiters)
    ensures multiset(rest) + multiset(ready) == multiset(waiters)
    ensures forall w <- ready :: w.matches(event)
    ensures forall w <- rest :: !w.matches(event)
    ensures DistinctIds(rest) && DistinctIds(ready)
    ensures forall w :: w in waiters <==> w in rest || w in ready
  {
    rest, ready := waiters, [];
    var index := 0;
    while index < |rest|
      invariant 0 <= index <= |rest|
      invariant multiset(rest) + multiset(ready) == multiset(waiters)
      invariant Apart(rest, ready)
      invariant forall w <- ready :: w.matches(event)
      invariant forall i :: 0 <= i < index ==> !rest[i].matches(event)
      decreases |rest| - index
    {
      if rest[index].matches(event) {
        SwapRemoveTakesOne(rest, index);
        TakingKeepsApart(rest, ready, index);
        ready := ready + [rest[index]];
        rest := SwapRemove(rest, index);
      } else {
        index := index + 1;
      }
    }
    SameMembers(waiters, rest, ready);
  }

  lemma RestRepresents(
    waiters: seq<Waiter>, rest: seq<Waiter>, ready: seq<Waiter>, open: map<nat, Predicate>, event: SequencedEvent)
    requires Represents(waiters, open) && DistinctIds(rest)
    requires forall w :: w in waiters <==> w in rest || w in ready
    requires forall w <- ready :: w.matches(event)
    requires forall w <- rest :: !w.matches(event)
    ensures Represents(rest, Missed(open, event))
    ensures forall id :: id in Hits(open, event) <==> HasId(ready, id)
  {
    forall id <- Missed(open, event) ensures HasId(rest, id) {
      var i :| 0 <= i < |waiters| && waiters[i].id == id;
      var w := waiters[i];
      assert w in rest || w in ready;
    }
    forall id
      ensures id in Hits(open, event) <==> HasId(ready, id)
    {
      if id in open && open[id](event) {
        var i :| 0 <= i < |waiters| && waiters[i].id == id;
        var w := waiters[i];
        assert w in rest || w in ready;
      }
      if w :| w in ready && w.id == id {
        assert w in waiters;
      }
    }
  }

  lemma DeliveryIsFire(
    ready: seq<Waiter>, fired: map<nat, SequencedEvent>, hits: map<nat, SequencedEvent>, event: SequencedEvent,
    delivered: map<nat, SequencedEvent>)
    requires forall id :: id in hits <==> HasId(ready, id)
    requires forall id <- hits :: hits[id] == event
    requires forall id :: id in delivered <==> id in fired || HasId(ready, id)
    requires forall id <- delivered :: delivered[id] == if HasId(ready, id) then event else fired[id]
    ensures delivered == fired + hits
  {
    forall id ensures id in delivered <==> id in fired + hits {
      assert id in hits <==> HasId(ready, id);
    }
    forall id <- delivered ensures delivered[id] == (fired + hits)[id] {
      assert id in hits <==> HasId(ready, id);
    }
  }

  /** The sends that follow the waiter loop. */
  method Deliver(ready: seq<Waiter>, event: SequencedEvent, fired: map<nat, SequencedEvent>)
    returns (result: map<nat, SequencedEvent>)
    ensures forall id :: id in result <==> id in fired || HasId(ready, id)
    ensures forall id <- result :: result[id] == if HasId(ready, id) then event else fired[id]
  {
    result := fired;
    for i := 0 to |ready|
      invariant forall id :: id in result <==> id in fired || HasId(ready[..i], id)
      invariant forall id <- result :: result[id] == if HasId(ready[..i], id) then event else fired[id]
    {
      result := result[ready[i].id := event];
      assert ready[..i + 1] == ready[..i] + [ready[i]];
    }
    assert ready[..|ready|] == ready;
  }

  /** The branch of `apply` that updates one thread record, field by field. */
  method Update(before: ThreadState, event: SequencedEvent) returns (thread: ThreadState)
    ensures thread == UpdateThread(before, event)
  {
    thread := before.(lastSequence := event.sequence);
    if event.Method().None? {
      return;
    }
    var name, params := event.frame.name, event.frame.params;
    if name == "thread/started" {
      thread := thread.(status := "idle");
      thread := thread.(rawThread := params.thread);
      thread := thread.(ephemeral := params.thread.Some? && params.thread.value.ephemeral == Some(true));
    } else if name == "thread/status/changed" {
      thread := thread.(status := match params.status case Some(s) => s case None => "unknown");
    } else if name == "turn/started" {
      thread := thread.(status := "active");
      thread := thread.(activeTurnId := event.turnId);
    } else if name == "turn/completed" {
      if thread.activeTurnId == event.turnId || event.turnId.None? {
        thread := thread.(activeTurnId := None);
      }
      thread := thread.(status := "idle");
    }
  }

  // ---------------------------------------------------------------- the reducer object

  class Reducer {
    const lifecycleCapacity: nat
    var atSequence: Sequence
    var threads: map<string, ThreadState>
    var subscribing: set<string>
    var lifecycle: seq<SequencedEvent>
    var waiters: seq<Waiter>
    var fired: map<nat, SequencedEvent>
    var nextWaiter: nat
    ghost var open: map<nat, Predicate>

    ghost predicate Valid()
      reads this
    {
      && lifecycleCapacity > 0
      && Represents(waiters, open)
      && (forall id <- open :: id < nextWaiter && id !in fired)
      && (forall id <- fired :: id < nextWaiter)
    }

    ghost function State(): Core
      reads this
    {
      Core(Snapshot(atSequence, threads), subscribing)
    }

    ghost function Waits(): Waiting
      reads this
    {
      Waiting(open, fired)
    }

    constructor (lifecycleCapacity: nat)
      requires lifecycleCapacity > 0
      ensures Valid() && this.lifecycleCapacity == lifecycleCapacity
      ensures State() == EMPTY_CORE && lifecycle == [] && Waits() == Waiting(map[], map[])
    {
      this.lifecycleCapacity := lifecycleCapacity;
      atSequence, threads, subscribing := 0, map[], {};
      lifecycle, waiters, fired, nextWaiter := [], [], map[], 0;
      open := map[];
    }

    /** The first section of `apply`, under the state lock. */
    method FoldState(event: SequencedEvent)
      requires Valid()
      modifies this`atSequence, this`threads
      ensures Valid() && State() == FoldEvent(old(State()), event)
    {
      if atSequence < event.sequence {
        atSequence := event.sequence;
      }
      if event.threadId.Some? {
        FoldThread(event.threadId.value, event);
      }
    }

    /** The entry of one thread, created if it is missing. */
    method FoldThread(id: string, event: SequencedEvent)
      modifies this`threads
      ensures threads == KeepIfRelevant(old(threads), subscribing, id, UpdateThread(Entry(old(threads), id), event))
    {
      if id !in threads {
        threads := threads[id := UnknownThread(id)];
      }
      var thread := Update(threads[id], event);
      KeepOrPrune(id, thread);
    }

    /** Writes the record back, then prunes it inline unless it is relevant. */
    method KeepOrPrune(id: string, thread: ThreadState)
      modifies this`threads
      ensures threads == KeepIfRelevant(old(threads), subscribing, id, thread)
    {
      threads := threads[id := thread];
      if id !in subscribing && IsPrunable(thread) {
        threads := threads - {id};
      }
    }

    /** The second section of `apply`, under the log lock. */
    method RetainLifecycle(event: SequencedEvent)
      requires Valid()
      requires |lifecycle| <= lifecycleCapacity
      modifies this`lifecycle
      ensures Valid() && lifecycle == AppendLog(old(lifecycle), lifecycleCapacity, event)
      ensures |lifecycle| <= lifecycleCapacity
    {
      if event.plane == Lifecycle {
        lifecycle := lifecycle + [event];
        ghost var grown := lifecycle;
        while |lifecycle| > lifecycleCapacity
          invariant lifecycle == grown || (|grown| == lifecycleCapacity + 1 && lifecycle == grown[1..])
          decreases |lifecycle|
        {
          lifecycle := lifecycle[1..];
        }
      }
    }

    /** The third section of `apply`, under the waiter lock, and the sends that follow it. */
    method NotifyWaiters(event: SequencedEvent)
      requires Valid()
      modifies this`waiters, this`fired, this`open
      ensures Valid() && Waits() == FireWaiters(old(Waits()), event)
    {
      var rest, ready := TakeMatching(waiters, event);
      RestRepresents(waiters, rest, ready, open, event);
      ghost var expected := FireWaiters(Waits(), event);
      var delivered := Deliver(ready, event, fired);
      DeliveryIsFire(ready, fired, Hits(open, event), event, delivered);
      waiters, fired, open := rest, delivered, expected.open;
    }

    method Apply(event: SequencedEvent)
      requires Valid() && |lifecycle| <= lifecycleCapacity
      modifies this
      ensures Valid() && |lifecycle| <= lifecycleCapacity && nextWaiter == old(nextWaiter)
      ensures State() == FoldEvent(old(State()), event)
      ensures lifecycle == AppendLog(old(lifecycle), lifecycleCapacity, event)
      ensures Waits() == FireWaiters(old(Waits()), event)
    {
      FoldState(event);
      RetainLifecycle(event);
      NotifyWaiters(event);
    }

    method RegisterWaiter(matches: Predicate) returns (id: nat)
      requires Valid()
      modifies this`waiters, this`open, this`nextWaiter
      ensures Valid() && id == old(nextWaiter) && nextWaiter == id + 1
      ensures id !in old(open) && id !in fired
      ensures Waits() == StepWaiters(old(Waits()), Register(id, matches))
    {
      id := nextWaiter;
      nextWaiter := nextWaiter + 1;
      var waiter := Waiter(id, matches);
      waiters := waiters + [waiter];
      open := open[id := matches];
      assert waiters[|waiters| - 1] == waiter;
      forall k <- open ensures HasId(waiters, k) {
        if k != id {
          var i :| 0 <= i < |old(waiters)| && old(waiters)[i].id == k;
          assert waiters[i].id == k;
        }
      }
    }

    method EventsSince(after: Sequence) returns (result: ReplayResult)
      requires Valid()
      ensures result == if PredatesLog(lifecycle, after)
                        then GapTooOld(after, Some(lifecycle[0].sequence), State().snapshot)
                        else Events(Above(lifecycle, after))
    {
      var oldest := if lifecycle == [] then None else Some(lifecycle[0].sequence);
      if oldest.Some? && SaturatingAdd(after, 1) < oldest.value {
        return GapTooOld(after, oldest, Snapshot(atSequence, threads));
      }
      result := Events(Above(lifecycle, after));
    }

    method SetSubscribed(id: string, subscribed: bool)
      requires Valid()
      modifies this`threads, this`subscribing
      ensures Valid()
      ensures State() == if subscribed then FinishSubscription(old(State()), id) else Unsubscribe(old(State()), id)
    {
      if subscribed {
        Finish(id);
        return;
      }
      subscribing := subscribing - {id};
      if id in threads {
        threads := threads[id := threads[id].(subscribed := false)];
        if IsPrunable(threads[id]) {
          threads := threads - {id};
        }
      }
    }

    method Begin(id: string)
      requires Valid()
      modifies this`threads, this`subscribing
      ensures Valid() && State() == BeginSubscription(old(State()), id)
    {
      subscribing := subscribing + {id};
      if id !in threads {
        threads := threads[id := UnknownThread(id)];
      }
    }

    method Finish(id: string)
      requires Valid()
      modifies this`threads, this`subscribing
      ensures Valid() && State() == FinishSubscription(old(State()), id)
    {
      subscribing := subscribing - {id};
      if id !in threads {
        threads := threads[id := UnknownThread(id)];
      }
      threads := threads[id := threads[id].(subscribed := true)];
    }

    method Cancel(id: string)
      requires Valid()
      modifies this`threads, this`subscribing
      ensures Valid() && State() == CancelSubscription(old(State()), id)
    {
      subscribing := subscribing - {id};
      if id in threads && IsPrunable(threads[id]) {
        threads := threads - {id};
      }
    }

    method EvictIdleThreads() returns (evicted: nat)
      requires Valid()
      modifies this`threads
      ensures Valid() && State() == EvictIdle(old(State()))
      ensures evicted == |old(threads)| - |threads|
      ensures threads.Keys == set id | id in old(threads) && (id in subscribing || !IsPrunable(old(threads)[id]))
    {
      var kept := map id | id in threads && (id in subscribing || !IsPrunable(threads[id])) :: threads[id];
      var before := |threads|;
      assert kept.Keys <= threads.Keys;
      CardinalitySubset(kept.Keys, threads.Keys);
      evicted := before - |kept|;
      threads := kept;
      assert threads == EvictIdle(old(State())).snapshot.threads;
    }

    method ReconcileRead(raw: ThreadRecord)
      requires Valid()
      modifies this`threads
      ensures Valid() && State() == ReconcileThread(old(State()), raw)
    {
      if raw.id.None? {
        return;
      }
      var id := raw.id.value;
      var status := match raw.status case Some(s) => s case None => "unknown";
      var turn := match raw.turns case Some(turns) => InFlightTurn(turns) case None => None;
      var previous := id in threads && threads[id].subscribed;
      threads := threads[id := ThreadState(
        id, if turn.Some? then "active" else status, turn, previous,
        raw.ephemeral == Some(true), atSequence, Some(raw))];
    }
  }

  lemma CardinalitySubset<T>(a: set<T>, b: set<T>)
    requires a <= b
    ensures |a| <= |b|
  {
    assert b == a + (b - a);
  }
}
