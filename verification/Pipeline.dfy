/**
 The whole event path as one state machine: the ingress task moves each event through state,
 log, waiters, store and publication, while any number of consumers, waiters, subscription
 tasks and store sweeps take steps in between. Component state is derived from the operations
 applied so far, so every theorem of a component speaks about every reachable state here.
 */
module Pipeline {
  import opened Sequences
  import opened Protocol
  import opened Reduction
  import opened Runs
  import opened Streaming
  import Storage
  import T = Transport

  /** How far the ingress task is with the newest event. */
  datatype Stage = Idle | Folded | Logged | Notified | Stored

  datatype Capacities = Capacities(log: nat, lifecycleRing: nat, deltaRing: nat)

  /** The authoritative side: what the ingress task and its neighbours have done so far. */
  datatype Ingress = Ingress(
    history: seq<SequencedEvent>,
    stage: Stage,
    coreOps: seq<CoreOp>,
    log: seq<SequencedEvent>,
    waiterOps: seq<WaiterOp>,
    storeOps: seq<Storage.StoreOp>,
    lifecycleSent: seq<SequencedEvent>,
    deltaSent: seq<SequencedEvent>,
    closed: bool)

  datatype State = State(ingress: Ingress, consumers: seq<Consumer>, deltas: seq<DeltaConsumer>)

  const INIT := State(Ingress([], Idle, [], [], [], [], [], [], false), [], [])

  datatype Step =
    // the ingress task
    | Take(event: SequencedEvent)
    | Retain
    | Notify
    | Store
    | Publish
    | CloseHub
    // everyone else who shares the reducer and the store
    | OtherCore(op: CoreOp)
    | RegisterWaiter(matches: Predicate)
    | OtherStore(storeOp: Storage.StoreOp)
    // consumers
    | Subscribe(after: Sequence)
    | PollRing(consumer: nat)
    | ReadLog(consumer: nat)
    | ReadState(consumer: nat)
    | DropRecv(consumer: nat)
    | SubscribeDeltas
    | PollDeltas(consumer: nat)

  function LastSequence(history: seq<SequencedEvent>): Sequence {
    if history == [] then 0 else history[|history| - 1].sequence
  }

  function Newest(g: Ingress): SequencedEvent
    requires g.history != []
  {
    g.history[|g.history| - 1]
  }

  function TakeStep(g: Ingress, event: SequencedEvent): Ingress {
    if g.stage == Idle && !g.closed && event.sequence > LastSequence(g.history) then
      g.(history := g.history + [event], coreOps := g.coreOps + [Fold(event)], stage := Folded)
    else g
  }

  function RetainStep(g: Ingress, capacity: nat): Ingress {
    if g.stage == Folded && g.history != []
    then g.(log := AppendLog(g.log, capacity, Newest(g)), stage := Logged)
    else g
  }

  function NotifyStep(g: Ingress): Ingress {
    if g.stage == Logged && g.history != []
    then g.(waiterOps := g.waiterOps + [Fire(Newest(g))], stage := Notified)
    else g
  }

  function StoreStep(g: Ingress): Ingress {
    if g.stage == Notified && g.history != []
    then g.(storeOps := g.storeOps + [Storage.RecordOp(Newest(g))], stage := Stored)
    else g
  }

  function PublishStep(g: Ingress): Ingress {
    if g.stage != Stored || g.history == [] then g
    else if Newest(g).plane == Lifecycle
    then g.(lifecycleSent := g.lifecycleSent + [Newest(g)], stage := Idle)
    else g.(deltaSent := g.deltaSent + [Newest(g)], stage := Idle)
  }

  function IngressNext(g: Ingress, caps: Capacities, step: Step): Ingress {
    match step
    case Take(event) => TakeStep(g, event)
    case Retain => RetainStep(g, caps.log)
    case Notify => NotifyStep(g)
    case Store => StoreStep(g)
    case Publish => PublishStep(g)
    case CloseHub => if g.stage == Idle then g.(closed := true) else g
    case OtherCore(op) => if op.Fold? then g else g.(coreOps := g.coreOps + [op])
    case RegisterWaiter(matches) => g.(waiterOps := g.waiterOps + [Register(|g.waiterOps|, matches)])
    case OtherStore(op) => if op.RecordOp? then g else g.(storeOps := g.storeOps + [op])
    case _ => g
  }

  function ConsumerNext(c: Consumer, g: Ingress, caps: Capacities, step: Step): Consumer {
    match step
    case PollRing(_) => PollStep(c, g.lifecycleSent, caps.lifecycleRing, g.closed)
    case ReadLog(_) => LogStep(c, g.log)
    case ReadState(_) => SnapshotStep(c, RunCore(g.coreOps).snapshot)
    case DropRecv(_) => DropStep(c)
    case _ => c
  }

  predicate IsConsumerStep(step: Step) {
    step.PollRing? || step.ReadLog? || step.ReadState? || step.DropRecv?
  }

  function ConsumersNext(consumers: seq<Consumer>, g: Ingress, caps: Capacities, step: Step): seq<Consumer> {
    if step.Subscribe? then consumers + [NewConsumer(step.after, |g.lifecycleSent|)]
    else if IsConsumerStep(step) && step.consumer < |consumers|
    then consumers[step.consumer := ConsumerNext(consumers[step.consumer], g, caps, step)]
    else consumers
  }

  function DeltasNext(deltas: seq<DeltaConsumer>, g: Ingress, caps: Capacities, step: Step): seq<DeltaConsumer> {
    if step.SubscribeDeltas? then deltas + [DeltaConsumer(|g.deltaSent|, |g.deltaSent|, 0, [])]
    else if step.PollDeltas? && step.consumer < |deltas|
    then deltas[step.consumer := DeltaStep(deltas[step.consumer], g.deltaSent, caps.deltaRing, g.closed)]
    else deltas
  }

  /** A step that is not enabled leaves the state unchanged. */
  function Next(s: State, caps: Capacities, step: Step): State {
    State(IngressNext(s.ingress, caps, step),
          ConsumersNext(s.consumers, s.ingress, caps, step),
          DeltasNext(s.deltas, s.ingress, caps, step))
  }

  // ---------------------------------------------------------------- invariant

  /** The history, or the history before the newest event when a section has not processed that one yet. */
  function Through(history: seq<SequencedEvent>, done: bool): seq<SequencedEvent> {
    if done || history == [] then history else history[..|history| - 1]
  }

  /** The events the waiters were shown, in order. */
  function Fired(ops: seq<WaiterOp>): seq<SequencedEvent> {
    if ops == [] then []
    else Fired(ops[..|ops| - 1]) + (if ops[|ops| - 1].Fire? then [ops[|ops| - 1].event] else [])
  }

  /** The wire events the store was given, in order. */
  function Given(ops: seq<Storage.StoreOp>): seq<SequencedEvent> {
    if ops == [] then []
    else Given(ops[..|ops| - 1]) + (if ops[|ops| - 1].RecordOp? then [ops[|ops| - 1].event] else [])
  }

  /** The events the thread state has folded, in order. */
  function FoldedEvents(ops: seq<CoreOp>): seq<SequencedEvent> {
    if ops == [] then []
    else FoldedEvents(ops[..|ops| - 1]) + (if ops[|ops| - 1].Fold? then [ops[|ops| - 1].event] else [])
  }

  /** The lifecycle events logged so far. */
  function LoggedEvents(g: Ingress): seq<SequencedEvent> {
    LifecycleOf(Through(g.history, g.stage != Folded))
  }

  /** State, waiters and store have been given the history, up to where the ingress task is with it. */
  ghost predicate OpsInv(g: Ingress) {
    && FoldedEvents(g.coreOps) == g.history
    && Fired(g.waiterOps) == Through(g.history, g.stage != Folded && g.stage != Logged)
    && Given(g.storeOps) == Through(g.history, g.stage == Stored || g.stage == Idle)
  }

  ghost predicate LogInv(g: Ingress, capacity: nat) {
    g.log == LastN(LoggedEvents(g), capacity)
  }

  ghost predicate RingInv(sent: seq<SequencedEvent>, g: Ingress, plane: Plane) {
    sent == OfPlane(Through(g.history, g.stage == Idle), plane)
  }

  /** The log and the two rings hold the history by planes, up to where the ingress task is with it. */
  ghost predicate PlanesInv(g: Ingress, capacity: nat) {
    && LogInv(g, capacity)
    && RingInv(g.lifecycleSent, g, Lifecycle)
    && RingInv(g.deltaSent, g, Delta)
  }

  /** Every authoritative component has processed a prefix of the history that reaches past the fan-out. */
  ghost predicate IngressInv(g: Ingress, capacity: nat) {
    && (g.stage != Idle ==> g.history != [])
    && Increasing(g.history)
    && OpsInv(g) && PlanesInv(g, capacity)
  }

  ghost predicate WasState(ops: seq<CoreOp>, snapshot: Snapshot) {
    exists n :: 0 <= n <= |ops| && snapshot == RunCore(ops[..n]).snapshot
  }

  /** What a consumer was handed is real: events of the history, and snapshots the state really had. */
  ghost predicate ItemIsReal(all: seq<SequencedEvent>, ops: seq<CoreOp>, item: LifecycleItem) {
    match item
    case Event(event) => event in all
    case Replay(events) => forall e <- events :: e in all
    case TooOld(snapshot, _) => WasState(ops, snapshot)
    case StreamClosed => true
  }

  /** The items are real, and reach no further than the newest number. */
  ghost predicate ItemsAreReal(c: Consumer, all: seq<SequencedEvent>, ops: seq<CoreOp>, last: Sequence) {
    Reached(c.after, c.items) <= Max(c.after, last) && forall item <- c.items :: ItemIsReal(all, ops, item)
  }

  /** A consumer relative to the lifecycle events so far, the number published, and the newest number. */
  ghost predicate ConsumerInv(
    c: Consumer, all: seq<SequencedEvent>, ops: seq<CoreOp>, published: nat, last: Sequence)
  {
    Unmissed(c, all, published) && ItemsAreHonest(all, c) && ItemsAreReal(c, all, ops, last)
  }

  ghost predicate Unmissed(c: Consumer, all: seq<SequencedEvent>, published: nat) {
    c.start <= c.next <= published && NothingMissed(all, c) && LagIsNew(all, c)
  }

  ghost predicate ConsumerOk(g: Ingress, c: Consumer) {
    ConsumerInv(c, LifecycleOf(g.history), g.coreOps, |g.lifecycleSent|, LastSequence(g.history))
  }

  ghost predicate Inv(s: State, caps: Capacities) {
    && IngressInv(s.ingress, caps.log)
    && (forall c <- s.consumers :: ConsumerOk(s.ingress, c))
    && (forall d <- s.deltas :: DeltaConserved(d, |s.ingress.deltaSent|, caps.deltaRing))
  }

  // ---------------------------------------------------------------- facts about the ingress order

  lemma OfPlaneMembers(events: seq<SequencedEvent>, plane: Plane)
    ensures forall e :: e in OfPlane(events, plane) <==> e in events && e.plane == plane
  {
    FilterMembers(events, OnPlane(plane));
  }

  lemma {:induction false} OfPlaneIncreases(events: seq<SequencedEvent>, plane: Plane)
    requires Increasing(events)
    ensures Increasing(OfPlane(events, plane))
  {
    if events != [] {
      var front := events[..|events| - 1];
      OfPlaneIncreases(front, plane);
      OfPlaneMembers(front, plane);
      OfPlaneLast(events, plane);
      forall i | 0 <= i < |OfPlane(front, plane)|
        ensures OfPlane(front, plane)[i].sequence < events[|events| - 1].sequence
      {
        assert OfPlane(front, plane)[i] in OfPlane(front, plane);
      }
    }
  }

  lemma {:induction false} StateHasMaxSequence(ops: seq<CoreOp>)
    ensures RunCore(ops).snapshot.atSequence == MaxSequence(FoldedEvents(ops))
  {
    if ops != [] {
      StateHasMaxSequence(ops[..|ops| - 1]);
      if ops[|ops| - 1].Fold? {
        AppendLast(FoldedEvents(ops[..|ops| - 1]), ops[|ops| - 1].event);
      } else {
        assert FoldedEvents(ops) == FoldedEvents(ops[..|ops| - 1]);
      }
    }
  }

  lemma {:induction false} MaxIsLast(events: seq<SequencedEvent>)
    requires Increasing(events)
    ensures MaxSequence(events) == LastSequence(events)
  {
    if |events| > 1 {
      MaxIsLast(events[..|events| - 1]);
      assert events[|events| - 2].sequence < events[|events| - 1].sequence;
    }
  }

  lemma StateHasLastSequence(ops: seq<CoreOp>)
    requires Increasing(FoldedEvents(ops))
    ensures RunCore(ops).snapshot.atSequence == LastSequence(FoldedEvents(ops))
  {
    StateHasMaxSequence(ops);
    MaxIsLast(FoldedEvents(ops));
  }

  /** What is published is a prefix of what is logged, which is a prefix of what is folded. */
  lemma Prefixes(g: Ingress, capacity: nat)
    requires IngressInv(g, capacity)
    ensures g.lifecycleSent <= LoggedEvents(g) <= LifecycleOf(g.history)
    ensures Increasing(LifecycleOf(g.history))
    ensures forall e <- LifecycleOf(g.history) :: e.sequence <= LastSequence(g.history)
  {
    OfPlaneIncreases(g.history, Lifecycle);
    OfPlaneMembers(g.history, Lifecycle);
    if g.history != [] {
      OfPlaneLast(g.history, Lifecycle);
    }
    forall e <- LifecycleOf(g.history) ensures e.sequence <= LastSequence(g.history) {
      assert e in g.history;
      var i :| 0 <= i < |g.history| && g.history[i] == e;
    }
  }

  // ---------------------------------------------------------------- preservation

  lemma AppendLast<T>(s: seq<T>, x: T)
    ensures (s + [x])[..|s + [x]| - 1] == s
  {
  }

  lemma GrowthKeepsReal(
    c: Consumer, all: seq<SequencedEvent>, ops: seq<CoreOp>, last: Sequence,
    all': seq<SequencedEvent>, ops': seq<CoreOp>, last': Sequence)
    requires ItemsAreReal(c, all, ops, last) && all <= all' && ops <= ops' && last <= last'
    ensures ItemsAreReal(c, all', ops', last')
  {
    forall item <- c.items ensures ItemIsReal(all', ops', item) {
      assert ItemIsReal(all, ops, item);
      if item.TooOld? {
        var n :| 0 <= n <= |ops| && item.snapshot == RunCore(ops[..n]).snapshot;
        assert ops'[..n] == ops[..n];
      }
    }
  }

  lemma NamedStays(
    all: seq<SequencedEvent>, all': seq<SequencedEvent>, oldest: Option<Sequence>, cursor: Sequence)
    requires all <= all' && NamesLater(all, oldest, cursor)
    ensures NamesLater(all', oldest, cursor)
  {
    var k :| 0 <= k < |all| && all[k].sequence == oldest.value;
    assert all'[k] == all[k];
  }

  lemma GrowthKeepsWhole(c: Consumer, all: seq<SequencedEvent>, all': seq<SequencedEvent>)
    requires ItemsAreHonest(all, c) && all <= all'
    ensures ItemsAreHonest(all', c)
  {
    if c.phase.Refused? {
      NamedStays(all, all', c.phase.oldest, c.cursor);
    }
    forall j | 0 <= j < |c.items| ensures HonestItem(all', c.items[j], CursorAfter(c.after, c.items[..j])) {
      var cursor := CursorAfter(c.after, c.items[..j]);
      assert HonestItem(all, c.items[j], cursor);
      if c.items[j].TooOld? {
        NamedStays(all, all', c.items[j].oldestAvailable, cursor);
      }
      if c.items[j].Replay? {
        var n :| 0 <= n <= |all| && c.items[j].events == Above(all[..n], cursor);
        assert all'[..n] == all[..n];
      }
    }
  }

  /** Growth of the history above the newest number, of the operations and of the ring keeps a consumer's invariant. */
  lemma GrowthKeepsConsumer(
    c: Consumer, all: seq<SequencedEvent>, ops: seq<CoreOp>, published: nat, last: Sequence,
    all': seq<SequencedEvent>, ops': seq<CoreOp>, published': nat, last': Sequence)
    requires ConsumerInv(c, all, ops, published, last)
    requires all <= all' && ops <= ops' && published <= published' && last <= last' && published <= |all|
    requires forall k :: |all| <= k < |all'| ==> all'[k].sequence > last
    ensures ConsumerInv(c, all', ops', published', last')
  {
    GrowthKeepsReal(c, all, ops, last, all', ops', last');
    GrowthKeepsWhole(c, all, all');
    forall k | 0 <= k < |all| ensures all'[k] == all[k] {
    }
  }

  /** A new item that is real and reaches no further than the newest number. */
  lemma ItemKeepsReal(
    c: Consumer, d: Consumer, item: LifecycleItem, all: seq<SequencedEvent>, ops: seq<CoreOp>, last: Sequence)
    requires ItemsAreReal(c, all, ops, last) && d.after == c.after && d.items == c.items + [item]
    requires ItemIsReal(all, ops, item) && Reach(item) <= last
    ensures ItemsAreReal(d, all, ops, last)
  {
    ReachedPush(c.after, c.items, item);
  }

  lemma PollKeepsReal(
    c: Consumer, all: seq<SequencedEvent>, ops: seq<CoreOp>, sent: seq<SequencedEvent>, last: Sequence,
    capacity: nat, closed: bool)
    requires ItemsAreReal(c, all, ops, last)
    requires sent <= all && (forall e <- all :: e.sequence <= last)
    ensures ItemsAreReal(PollStep(c, sent, capacity, closed), all, ops, last)
  {
    var d := PollStep(c, sent, capacity, closed);
    if d.items != c.items {
      var item := d.items[|c.items|];
      if item.Event? {
        assert item.event == sent[c.next] == all[c.next];
      }
      ItemKeepsReal(c, d, item, all, ops, last);
    }
  }

  lemma PollKeepsUnmissed(
    c: Consumer, all: seq<SequencedEvent>, sent: seq<SequencedEvent>, capacity: nat, closed: bool)
    requires Unmissed(c, all, |sent|) && sent <= all && Increasing(all)
    ensures Unmissed(PollStep(c, sent, capacity, closed), all, |sent|)
  {
    PollMissesNothing(all, sent, capacity, closed, c);
    PollLagIsNew(all, c, sent, capacity, closed);
  }

  lemma LogKeepsReal(
    c: Consumer, all: seq<SequencedEvent>, ops: seq<CoreOp>, last: Sequence,
    logged: seq<SequencedEvent>, capacity: nat)
    requires ItemsAreReal(c, all, ops, last)
    requires logged <= all && (forall e <- all :: e.sequence <= last)
    ensures ItemsAreReal(LogStep(c, LastN(logged, capacity)), all, ops, last)
  {
    var d := LogStep(c, LastN(logged, capacity));
    if d.items != c.items {
      var events := Above(LastN(logged, capacity), c.cursor);
      AboveMembers(LastN(logged, capacity), c.cursor);
      MaxSequenceBounds(events);
      forall e <- events ensures e in all && e.sequence <= last {
        assert e in logged;
      }
      ItemKeepsReal(c, d, Replay(events), all, ops, last);
    }
  }

  lemma LogKeepsUnmissed(
    c: Consumer, all: seq<SequencedEvent>, published: nat, logged: seq<SequencedEvent>, capacity: nat)
    requires Unmissed(c, all, published) && logged <= all && published <= |logged| && capacity > 0 && Increasing(all)
    ensures Unmissed(LogStep(c, LastN(logged, capacity)), all, published)
  {
    LogMissesNothing(all, logged, capacity, c);
    LogLagIsNew(all, c, LastN(logged, capacity));
  }

  lemma SnapshotKeepsReal(c: Consumer, all: seq<SequencedEvent>, ops: seq<CoreOp>, last: Sequence)
    requires ItemsAreReal(c, all, ops, last) && RunCore(ops).snapshot.atSequence == last
    ensures ItemsAreReal(SnapshotStep(c, RunCore(ops).snapshot), all, ops, last)
  {
    if c.phase.Refused? {
      var snapshot := RunCore(ops).snapshot;
      assert ops[..|ops|] == ops;
      assert WasState(ops, snapshot);
      ItemKeepsReal(c, SnapshotStep(c, snapshot), TooOld(snapshot, c.phase.oldest), all, ops, last);
    }
  }

  lemma DropKeepsConsumer(c: Consumer, all: seq<SequencedEvent>, ops: seq<CoreOp>, published: nat, last: Sequence)
    requires ConsumerInv(c, all, ops, published, last)
    ensures ConsumerInv(DropStep(c), all, ops, published, last)
  {
    DropMissesNothing(all, c);
  }

  lemma PollIsOk(g: Ingress, caps: Capacities, c: Consumer)
    requires IngressInv(g, caps.log) && ConsumerOk(g, c)
    ensures ConsumerOk(g, PollStep(c, g.lifecycleSent, caps.lifecycleRing, g.closed))
  {
    Prefixes(g, caps.log);
    var all, last := LifecycleOf(g.history), LastSequence(g.history);
    PollKeepsUnmissed(c, all, g.lifecycleSent, caps.lifecycleRing, g.closed);
    PollKeepsWhole(all, c, g.lifecycleSent, caps.lifecycleRing, g.closed);
    PollKeepsReal(c, all, g.coreOps, g.lifecycleSent, last, caps.lifecycleRing, g.closed);
  }

  lemma LogIsOk(g: Ingress, caps: Capacities, c: Consumer)
    requires IngressInv(g, caps.log) && caps.log > 0 && ConsumerOk(g, c)
    ensures ConsumerOk(g, LogStep(c, g.log))
  {
    Prefixes(g, caps.log);
    var all, last, logged := LifecycleOf(g.history), LastSequence(g.history), LoggedEvents(g);
    LogKeepsUnmissed(c, all, |g.lifecycleSent|, logged, caps.log);
    LogKeepsWhole(all, logged, caps.log, c);
    LogKeepsReal(c, all, g.coreOps, last, logged, caps.log);
  }

  lemma SnapshotIsOk(g: Ingress, caps: Capacities, c: Consumer)
    requires IngressInv(g, caps.log) && ConsumerOk(g, c)
    ensures ConsumerOk(g, SnapshotStep(c, RunCore(g.coreOps).snapshot))
  {
    Prefixes(g, caps.log);
    StateHasLastSequence(g.coreOps);
    var all, snapshot := LifecycleOf(g.history), RunCore(g.coreOps).snapshot;
    SnapshotMissesNothing(all, snapshot, c);
    SnapshotKeepsWhole(all, snapshot, c);
    SnapshotKeepsReal(c, all, g.coreOps, LastSequence(g.history));
  }

  lemma ConsumerNextKeeps(g: Ingress, caps: Capacities, step: Step, c: Consumer)
    requires IngressInv(g, caps.log) && caps.log > 0 && IsConsumerStep(step) && ConsumerOk(g, c)
    ensures ConsumerOk(g, ConsumerNext(c, g, caps, step))
  {
    match step
    case PollRing(_) => PollIsOk(g, caps, c);
    case ReadLog(_) => LogIsOk(g, caps, c);
    case ReadState(_) => SnapshotIsOk(g, caps, c);
    case DropRecv(_) =>
      DropKeepsConsumer(c, LifecycleOf(g.history), g.coreOps, |g.lifecycleSent|, LastSequence(g.history));
  }

  /** What surrounds a consumer only ever grows, and the history by higher numbers. */
  ghost predicate Grows(g: Ingress, h: Ingress) {
    && LifecycleOf(g.history) <= LifecycleOf(h.history) && g.coreOps <= h.coreOps
    && |g.lifecycleSent| <= |h.lifecycleSent| && LastSequence(g.history) <= LastSequence(h.history)
    && |g.deltaSent| <= |h.deltaSent| <= |g.deltaSent| + 1
    && forall k :: |LifecycleOf(g.history)| <= k < |LifecycleOf(h.history)| ==>
         LifecycleOf(h.history)[k].sequence > LastSequence(g.history)
  }

  lemma IngressNextGrows(g: Ingress, caps: Capacities, step: Step)
    ensures Grows(g, IngressNext(g, caps, step))
  {
    if step.Take? {
      TakeGrows(g, step.event);
    } else {
      var h := IngressNext(g, caps, step);
      assert h.history == g.history;
    }
  }

  lemma TakeGrows(g: Ingress, event: SequencedEvent)
    ensures var h := TakeStep(g, event);
            && LifecycleOf(g.history) <= LifecycleOf(h.history) && LastSequence(g.history) <= LastSequence(h.history)
            && forall k :: |LifecycleOf(g.history)| <= k < |LifecycleOf(h.history)| ==>
                 LifecycleOf(h.history)[k].sequence > LastSequence(g.history)
  {
    AppendLast(g.history, event);
    OfPlaneLast(g.history + [event], Lifecycle);
  }

  lemma IncreasingPush(history: seq<SequencedEvent>, event: SequencedEvent)
    requires Increasing(history) && event.sequence > LastSequence(history)
    ensures Increasing(history + [event])
  {
    forall i | 0 <= i < |history| ensures history[i].sequence < event.sequence {
      assert history[i].sequence <= LastSequence(history);
    }
  }

  lemma FoldedPush(ops: seq<CoreOp>, op: CoreOp)
    ensures FoldedEvents(ops + [op]) == FoldedEvents(ops) + (if op.Fold? then [op.event] else [])
  {
    AppendLast(ops, op);
  }

  lemma FiredPush(ops: seq<WaiterOp>, op: WaiterOp)
    ensures Fired(ops + [op]) == Fired(ops) + (if op.Fire? then [op.event] else [])
  {
    AppendLast(ops, op);
  }

  lemma GivenPush(ops: seq<Storage.StoreOp>, op: Storage.StoreOp)
    ensures Given(ops + [op]) == Given(ops) + (if op.RecordOp? then [op.event] else [])
  {
    AppendLast(ops, op);
  }

  /** A section that leaves log and rings alone keeps what they hold. */
  lemma SamePlanes(g: Ingress, h: Ingress, capacity: nat)
    requires PlanesInv(g, capacity) && h.history == g.history && h.log == g.log
    requires h.lifecycleSent == g.lifecycleSent && h.deltaSent == g.deltaSent
    requires (h.stage == Folded <==> g.stage == Folded) && (h.stage == Idle <==> g.stage == Idle)
    ensures PlanesInv(h, capacity)
  {
  }

  lemma TakeKeepsIngress(g: Ingress, capacity: nat, event: SequencedEvent)
    requires IngressInv(g, capacity)
    ensures IngressInv(TakeStep(g, event), capacity)
  {
    var h := TakeStep(g, event);
    if h != g {
      AppendLast(g.history, event);
      IncreasingPush(g.history, event);
      TakeKeepsOps(g, event);
      TakeKeepsPlanes(g, capacity, event);
    }
  }

  lemma TakeKeepsOps(g: Ingress, event: SequencedEvent)
    requires OpsInv(g)
    ensures OpsInv(TakeStep(g, event))
  {
    AppendLast(g.history, event);
    FoldedPush(g.coreOps, Fold(event));
  }

  lemma TakeKeepsPlanes(g: Ingress, capacity: nat, event: SequencedEvent)
    requires PlanesInv(g, capacity)
    ensures PlanesInv(TakeStep(g, event), capacity)
  {
    AppendLast(g.history, event);
  }

  lemma RetainKeepsIngress(g: Ingress, capacity: nat)
    requires IngressInv(g, capacity)
    ensures IngressInv(RetainStep(g, capacity), capacity)
  {
    RetainKeepsOps(g, capacity);
    RetainKeepsPlanes(g, capacity);
  }

  lemma RetainKeepsOps(g: Ingress, capacity: nat)
    requires OpsInv(g)
    ensures OpsInv(RetainStep(g, capacity))
  {
  }

  lemma RetainKeepsPlanes(g: Ingress, capacity: nat)
    requires PlanesInv(g, capacity)
    ensures PlanesInv(RetainStep(g, capacity), capacity)
  {
    RetainKeepsLog(g, capacity);
  }

  lemma RetainKeepsLog(g: Ingress, capacity: nat)
    requires LogInv(g, capacity)
    ensures LogInv(RetainStep(g, capacity), capacity)
  {
    if g.stage == Folded && g.history != [] {
      LogGrows(g.history, capacity);
    }
  }

  lemma NotifyKeepsIngress(g: Ingress, capacity: nat)
    requires IngressInv(g, capacity)
    ensures IngressInv(NotifyStep(g), capacity)
  {
    NotifyKeepsOps(g);
    SamePlanes(g, NotifyStep(g), capacity);
  }

  lemma NotifyKeepsOps(g: Ingress)
    requires OpsInv(g)
    ensures OpsInv(NotifyStep(g))
  {
    if g.stage == Logged && g.history != [] {
      FiredPush(g.waiterOps, Fire(Newest(g)));
    }
  }

  lemma StoreKeepsIngress(g: Ingress, capacity: nat)
    requires IngressInv(g, capacity)
    ensures IngressInv(StoreStep(g), capacity)
  {
    StoreKeepsOps(g);
    SamePlanes(g, StoreStep(g), capacity);
  }

  lemma StoreKeepsOps(g: Ingress)
    requires OpsInv(g)
    ensures OpsInv(StoreStep(g))
  {
    if g.stage == Notified && g.history != [] {
      GivenPush(g.storeOps, Storage.RecordOp(Newest(g)));
    }
  }

  lemma PublishKeepsIngress(g: Ingress, capacity: nat)
    requires IngressInv(g, capacity)
    ensures IngressInv(PublishStep(g), capacity)
  {
    PublishKeepsOps(g);
    PublishKeepsPlanes(g, capacity);
  }

  lemma PublishKeepsOps(g: Ingress)
    requires OpsInv(g)
    ensures OpsInv(PublishStep(g))
  {
  }

  lemma PublishKeepsPlanes(g: Ingress, capacity: nat)
    requires PlanesInv(g, capacity)
    ensures PlanesInv(PublishStep(g), capacity)
  {
    PublishKeepsLog(g, capacity);
    if g.stage == Stored && g.history != [] {
      PublishKeepsRing(g, g.lifecycleSent, Lifecycle);
      PublishKeepsRing(g, g.deltaSent, Delta);
    }
  }

  lemma PublishKeepsLog(g: Ingress, capacity: nat)
    requires LogInv(g, capacity)
    ensures LogInv(PublishStep(g), capacity)
  {
  }

  lemma PublishKeepsRing(g: Ingress, sent: seq<SequencedEvent>, plane: Plane)
    requires g.stage == Stored && g.history != [] && RingInv(sent, g, plane)
    ensures RingInv(if Newest(g).plane == plane then sent + [Newest(g)] else sent, PublishStep(g), plane)
  {
    OfPlaneLast(g.history, plane);
  }

  // operations of the neighbours are no events of the history

  lemma OtherCoreKeepsOps(g: Ingress, op: CoreOp)
    requires OpsInv(g) && !op.Fold?
    ensures OpsInv(g.(coreOps := g.coreOps + [op]))
  {
    FoldedPush(g.coreOps, op);
  }

  lemma RegisterKeepsOps(g: Ingress, op: WaiterOp)
    requires OpsInv(g) && op.Register?
    ensures OpsInv(g.(waiterOps := g.waiterOps + [op]))
  {
    FiredPush(g.waiterOps, op);
  }

  lemma OtherStoreKeepsOps(g: Ingress, op: Storage.StoreOp)
    requires OpsInv(g) && !op.RecordOp?
    ensures OpsInv(g.(storeOps := g.storeOps + [op]))
  {
    GivenPush(g.storeOps, op);
  }

  lemma NeighbourKeepsIngress(g: Ingress, h: Ingress, capacity: nat)
    requires IngressInv(g, capacity) && OpsInv(h)
    requires h == g.(coreOps := h.coreOps, waiterOps := h.waiterOps, storeOps := h.storeOps)
    ensures IngressInv(h, capacity)
  {
    SamePlanes(g, h, capacity);
  }

  lemma IngressNextKeepsInv(g: Ingress, caps: Capacities, step: Step)
    requires IngressInv(g, caps.log)
    ensures IngressInv(IngressNext(g, caps, step), caps.log)
  {
    match step
    case Take(event) => TakeKeepsIngress(g, caps.log, event);
    case Retain => RetainKeepsIngress(g, caps.log);
    case Notify => NotifyKeepsIngress(g, caps.log);
    case Store => StoreKeepsIngress(g, caps.log);
    case Publish => PublishKeepsIngress(g, caps.log);
    case OtherCore(op) =>
      if !op.Fold? {
        OtherCoreKeepsOps(g, op);
        NeighbourKeepsIngress(g, IngressNext(g, caps, step), caps.log);
      }
    case RegisterWaiter(matches) =>
      RegisterKeepsOps(g, Register(|g.waiterOps|, matches));
      NeighbourKeepsIngress(g, IngressNext(g, caps, step), caps.log);
    case OtherStore(op) =>
      if !op.RecordOp? {
        OtherStoreKeepsOps(g, op);
        NeighbourKeepsIngress(g, IngressNext(g, caps, step), caps.log);
      }
    case _ =>
  }

  lemma IngressKeepsConsumer(g: Ingress, caps: Capacities, step: Step, c: Consumer)
    requires IngressInv(g, caps.log) && ConsumerOk(g, c)
    ensures ConsumerOk(IngressNext(g, caps, step), c)
  {
    var h := IngressNext(g, caps, step);
    Prefixes(g, caps.log);
    IngressNextGrows(g, caps, step);
    GrowthKeepsConsumer(
      c, LifecycleOf(g.history), g.coreOps, |g.lifecycleSent|, LastSequence(g.history),
      LifecycleOf(h.history), h.coreOps, |h.lifecycleSent|, LastSequence(h.history));
  }

  lemma NextKeepsConsumer(s: State, caps: Capacities, step: Step, c: Consumer)
    requires Inv(s, caps) && caps.log > 0 && c in Next(s, caps, step).consumers
    ensures ConsumerOk(Next(s, caps, step).ingress, c)
  {
    var g, h := s.ingress, IngressNext(s.ingress, caps, step);
    if c in s.consumers {
      IngressKeepsConsumer(g, caps, step, c);
      return;
    }
    ConsumersCome(s, caps, step, c);
    if step.Subscribe? {
      NewConsumerIsOk(g, step.after);
    } else {
      ConsumerNextKeeps(g, caps, step, s.consumers[step.consumer]);
    }
  }

  /** Where the consumers of the next state come from. */
  lemma ConsumersCome(s: State, caps: Capacities, step: Step, c: Consumer)
    requires c in Next(s, caps, step).consumers && c !in s.consumers
    ensures IngressNext(s.ingress, caps, step) == s.ingress
    ensures (step.Subscribe? && c == NewConsumer(step.after, |s.ingress.lifecycleSent|)) ||
            (IsConsumerStep(step) && step.consumer < |s.consumers| && s.consumers[step.consumer] in s.consumers &&
             c == ConsumerNext(s.consumers[step.consumer], s.ingress, caps, step))
  {
  }

  lemma NewConsumerIsOk(g: Ingress, after: Sequence)
    ensures ConsumerOk(g, NewConsumer(after, |g.lifecycleSent|))
  {
  }

  lemma DeltaRingGrows(g: Ingress, caps: Capacities, step: Step)
    ensures |g.deltaSent| <= |IngressNext(g, caps, step).deltaSent| <= |g.deltaSent| + 1
    ensures step.PollDeltas? || step.SubscribeDeltas? ==> IngressNext(g, caps, step).deltaSent == g.deltaSent
  {
  }

  lemma NextKeepsDeltas(s: State, caps: Capacities, step: Step, d: DeltaConsumer)
    requires Inv(s, caps) && d in Next(s, caps, step).deltas
    ensures DeltaConserved(d, |Next(s, caps, step).ingress.deltaSent|, caps.deltaRing)
  {
    DeltaRingGrows(s.ingress, caps, step);
    if d in s.deltas {
      PublishConserves(d, |s.ingress.deltaSent|, caps.deltaRing);
    } else if !step.SubscribeDeltas? {
      assert s.deltas[step.consumer] in s.deltas;
      DeltaStepConserves(s.deltas[step.consumer], s.ingress.deltaSent, caps.deltaRing, s.ingress.closed);
    }
  }

  lemma NextKeepsInv(s: State, caps: Capacities, step: Step)
    requires Inv(s, caps) && caps.log > 0
    ensures Inv(Next(s, caps, step), caps)
  {
    var t := Next(s, caps, step);
    IngressNextKeepsInv(s.ingress, caps, step);
    forall c <- t.consumers ensures ConsumerOk(t.ingress, c) {
      NextKeepsConsumer(s, caps, step, c);
    }
    forall d <- t.deltas ensures DeltaConserved(d, |t.ingress.deltaSent|, caps.deltaRing) {
      NextKeepsDeltas(s, caps, step, d);
    }
  }

  ghost predicate Sensible(caps: Capacities) {
    caps.log > 0 && caps.lifecycleRing > 0 && caps.deltaRing > 0
  }

  function NextOf(caps: Capacities): (State, Step) -> State {
    (s: State, step: Step) => Next(s, caps, step)
  }

  function Run(caps: Capacities, steps: seq<Step>): State {
    Iterate(INIT, steps, NextOf(caps))
  }

  lemma {:induction false} RunKeepsInv(caps: Capacities, steps: seq<Step>)
    requires Sensible(caps)
    ensures Inv(Run(caps, steps), caps)
  {
    if steps != [] {
      RunKeepsInv(caps, steps[..|steps| - 1]);
      NextKeepsInv(Run(caps, steps[..|steps| - 1]), caps, steps[|steps| - 1]);
    }
  }

  // ---------------------------------------------------------------- main results

  /**
   No silent lifecycle loss. In every interleaving, for every consumer between `recv` calls: each event
   published since it subscribed, numbered above its starting point and now behind its ring position,
   was handed out, or lies within a gap report, or was skipped by a call that the consumer itself
   dropped between lag report and recovery.
   */
  lemma NoSilentLifecycleLoss(caps: Capacities, steps: seq<Step>, i: nat, k: nat)
    requires Sensible(caps)
    requires i < |Run(caps, steps).consumers| && k < |Run(caps, steps).ingress.lifecycleSent|
    requires var c := Run(caps, steps).consumers[i];
             c.phase == Ready && c.start <= k < c.next &&
             c.after < Run(caps, steps).ingress.lifecycleSent[k].sequence
    ensures var s := Run(caps, steps);
            var event := s.ingress.lifecycleSent[k];
            || HandedOut(s.consumers[i].items, event) || ReportedLost(s.consumers[i].items, event)
            || Skipped(s.consumers[i].skipped, k)
  {
    var s := Run(caps, steps);
    RunKeepsInv(caps, steps);
    Prefixes(s.ingress, caps.log);
    assert s.consumers[i] in s.consumers;
    assert s.ingress.lifecycleSent[k] == LifecycleOf(s.ingress.history)[k];
  }

  ghost predicate NeverDrops(steps: seq<Step>, consumer: nat) {
    forall step <- steps :: step != DropRecv(consumer)
  }

  lemma {:induction false} NothingSkippedUnlessDropped(caps: Capacities, steps: seq<Step>, i: nat)
    requires NeverDrops(steps, i) && i < |Run(caps, steps).consumers|
    ensures Run(caps, steps).consumers[i].skipped == []
  {
    if steps != [] {
      var front, step := steps[..|steps| - 1], steps[|steps| - 1];
      var before := Run(caps, front);
      assert forall earlier <- front :: earlier in steps;
      assert step in steps;
      if i < |before.consumers| {
        NothingSkippedUnlessDropped(caps, front, i);
      }
    }
  }

  /** In particular a consumer that never drops a call is never left behind silently. */
  lemma PatientConsumerMissesNothing(caps: Capacities, steps: seq<Step>, i: nat, k: nat)
    requires Sensible(caps) && NeverDrops(steps, i)
    requires i < |Run(caps, steps).consumers| && k < |Run(caps, steps).ingress.lifecycleSent|
    requires var c := Run(caps, steps).consumers[i];
             c.phase == Ready && c.start <= k < c.next &&
             c.after < Run(caps, steps).ingress.lifecycleSent[k].sequence
    ensures var s := Run(caps, steps);
            var event := s.ingress.lifecycleSent[k];
            HandedOut(s.consumers[i].items, event) || ReportedLost(s.consumers[i].items, event)
  {
    NoSilentLifecycleLoss(caps, steps, i, k);
    NothingSkippedUnlessDropped(caps, steps, i);
  }

  lemma RunSnoc(caps: Capacities, steps: seq<Step>, step: Step)
    ensures Run(caps, steps + [step]) == Next(Run(caps, steps), caps, step)
  {
    IterateSnoc(INIT, steps, step, NextOf(caps));
  }

  /** A step of the producers: no consumer moves. */
  lemma ProducerStep(caps: Capacities, steps: seq<Step>, step: Step)
    requires !step.Subscribe? && !IsConsumerStep(step)
    ensures var s, t := Run(caps, steps), Run(caps, steps + [step]);
            t.ingress == IngressNext(s.ingress, caps, step) && t.consumers == s.consumers
  {
    RunSnoc(caps, steps, step);
  }

  lemma TwoProducerSteps(caps: Capacities, steps: seq<Step>, a: Step, b: Step)
    requires !a.Subscribe? && !IsConsumerStep(a) && !b.Subscribe? && !IsConsumerStep(b)
    ensures var s, t := Run(caps, steps), Run(caps, steps + [a] + [b]);
            t.ingress == IngressNext(IngressNext(s.ingress, caps, a), caps, b) && t.consumers == s.consumers
  {
    ProducerStep(caps, steps, a);
    ProducerStep(caps, steps + [a], b);
  }

  /** A consumer's step: the producers do not move. */
  lemma ConsumerStep(caps: Capacities, steps: seq<Step>, step: Step)
    requires IsConsumerStep(step) && step.consumer < |Run(caps, steps).consumers|
    ensures var s, t := Run(caps, steps), Run(caps, steps + [step]);
            && t.ingress == s.ingress
            && t.consumers == s.consumers[step.consumer :=
                 ConsumerNext(s.consumers[step.consumer], s.ingress, caps, step)]
  {
    RunSnoc(caps, steps, step);
  }

  /** The five sections of `process`. */
  function ProcessOne(g: Ingress, caps: Capacities, event: SequencedEvent): Ingress {
    PublishStep(StoreStep(NotifyStep(RetainStep(TakeStep(g, event), caps.log))))
  }

  lemma ProcessOnePublishes(g: Ingress, caps: Capacities, event: SequencedEvent)
    requires g.stage == Idle && !g.closed && event.sequence > LastSequence(g.history) && event.plane == Lifecycle
    ensures var h := ProcessOne(g, caps, event);
            && h.stage == Idle && !h.closed && h.history == g.history + [event]
            && h.lifecycleSent == g.lifecycleSent + [event]
  {
  }

  lemma TakeAndRetain(caps: Capacities, steps: seq<Step>, event: SequencedEvent)
    ensures var s, t := Run(caps, steps), Run(caps, steps + [Take(event)] + [Retain]);
            t.ingress == RetainStep(TakeStep(s.ingress, event), caps.log) && t.consumers == s.consumers
  {
    TwoProducerSteps(caps, steps, Take(event), Retain);
  }

  lemma NotifyAndStore(caps: Capacities, steps: seq<Step>)
    ensures var s, t := Run(caps, steps), Run(caps, steps + [Notify] + [Store]);
            t.ingress == StoreStep(NotifyStep(s.ingress)) && t.consumers == s.consumers
  {
    TwoProducerSteps(caps, steps, Notify, Store);
  }

  lemma FiveSections(caps: Capacities, steps: seq<Step>, event: SequencedEvent) returns (more: seq<Step>)
    ensures Run(caps, more).ingress == ProcessOne(Run(caps, steps).ingress, caps, event)
    ensures Run(caps, more).consumers == Run(caps, steps).consumers
  {
    TakeAndRetain(caps, steps, event);
    more := steps + [Take(event)] + [Retain];
    NotifyAndStore(caps, more);
    more := more + [Notify] + [Store];
    ProducerStep(caps, more, Publish);
    more := more + [Publish];
  }

  /** One lifecycle event goes all the way through an idle ingress. */
  lemma PublishOne(caps: Capacities, steps: seq<Step>, event: SequencedEvent) returns (more: seq<Step>)
    requires var g := Run(caps, steps).ingress;
             g.stage == Idle && !g.closed && event.sequence > LastSequence(g.history) && event.plane == Lifecycle
    ensures var s, t := Run(caps, steps), Run(caps, more);
            && t.ingress.stage == Idle && !t.ingress.closed && t.ingress.history == s.ingress.history + [event]
            && t.ingress.lifecycleSent == s.ingress.lifecycleSent + [event] && t.consumers == s.consumers
  {
    more := FiveSections(caps, steps, event);
    ProcessOnePublishes(Run(caps, steps).ingress, caps, event);
  }

  lemma TwoArePublished(caps: Capacities, first: SequencedEvent, second: SequencedEvent) returns (steps: seq<Step>)
    requires first.plane == Lifecycle && second.plane == Lifecycle && 0 < first.sequence < second.sequence
    ensures var s := Run(caps, steps);
            s.ingress.lifecycleSent == [first, second] && s.consumers == [NewConsumer(0, 0)]
  {
    steps := [Subscribe(0)];
    RunSnoc(caps, [], Subscribe(0));
    assert [] + steps == steps;
    assert Run(caps, steps).consumers == [NewConsumer(0, 0)];
    steps := PublishOne(caps, steps, first);
    steps := PublishOne(caps, steps, second);
  }

  /**
   A run that loses an event silently: a ring of one slot laps the consumer, the call that hears of it
   is dropped, and the next one returns the newer event.
   */
  lemma DroppedCallLosesInRun(caps: Capacities, first: SequencedEvent, second: SequencedEvent)
    returns (steps: seq<Step>)
    requires caps.lifecycleRing == 1
    requires first.plane == Lifecycle && second.plane == Lifecycle && 0 < first.sequence < second.sequence
    ensures var s := Run(caps, steps);
            && s.ingress.lifecycleSent == [first, second] && |s.consumers| == 1
            && s.consumers[0].after == 0 && s.consumers[0].phase == Ready && s.consumers[0].next == 2
            && s.consumers[0].items == [Event(second)] && !Covered(s.consumers[0], first)
  {
    steps := TwoArePublished(caps, first, second);
    var c := NewConsumer(0, 0);
    ConsumerStep(caps, steps, PollRing(0));
    steps := steps + [PollRing(0)];
    var lagging := c.(next := 1, phase := Lagging(0));
    assert Run(caps, steps).consumers == [lagging];
    ConsumerStep(caps, steps, DropRecv(0));
    steps := steps + [DropRecv(0)];
    var dropped := c.(next := 1, skipped := [Stretch(0, 1)]);
    assert [] + [Stretch(0, 1)] == [Stretch(0, 1)];
    assert Run(caps, steps).consumers == [dropped];
    ConsumerStep(caps, steps, PollRing(0));
    steps := steps + [PollRing(0)];
    assert Run(caps, steps).consumers[0].items == [Event(second)];
  }

  lemma PublishedIsThrough(g: Ingress, capacity: nat, event: SequencedEvent)
    requires PlanesInv(g, capacity) && event in g.lifecycleSent + g.deltaSent
    ensures event in Through(g.history, g.stage == Idle)
  {
    OfPlaneMembers(Through(g.history, g.stage == Idle), Lifecycle);
    OfPlaneMembers(Through(g.history, g.stage == Idle), Delta);
  }

  lemma ThroughIsProcessed(g: Ingress, event: SequencedEvent)
    requires OpsInv(g) && event in Through(g.history, g.stage == Idle)
    ensures event in FoldedEvents(g.coreOps) && event in Fired(g.waiterOps) && event in Given(g.storeOps)
  {
  }

  lemma PublishedIsProcessed(g: Ingress, capacity: nat, event: SequencedEvent)
    requires IngressInv(g, capacity)
    requires event in g.lifecycleSent + g.deltaSent
    ensures event in FoldedEvents(g.coreOps) && event in Fired(g.waiterOps) && event in Given(g.storeOps)
    ensures event.sequence <= LastSequence(g.history)
  {
    PublishedIsThrough(g, capacity, event);
    ThroughIsProcessed(g, event);
    InHistoryIsOld(g.history, event);
  }

  lemma InHistoryIsOld(history: seq<SequencedEvent>, event: SequencedEvent)
    requires Increasing(history) && event in history
    ensures event.sequence <= LastSequence(history)
  {
    var i :| 0 <= i < |history| && history[i] == event;
  }

  lemma PublishedIsLogged(g: Ingress, capacity: nat, event: SequencedEvent)
    requires IngressInv(g, capacity) && capacity > 0
    requires event in g.lifecycleSent
    ensures event in g.log || (|g.log| == capacity && event.sequence < g.log[0].sequence)
  {
    Prefixes(g, capacity);
    var j :| 0 <= j < |g.lifecycleSent| && g.lifecycleSent[j] == event;
    LoggedOrOlder(LifecycleOf(g.history), LoggedEvents(g), capacity, j);
  }

  lemma LoggedOrOlder(all: seq<SequencedEvent>, logged: seq<SequencedEvent>, capacity: nat, j: nat)
    requires logged <= all && Increasing(all) && j < |logged| && capacity > 0
    ensures var log := LastN(logged, capacity);
            all[j] in log || (|log| == capacity && all[j].sequence < log[0].sequence)
  {
    var log := LastN(logged, capacity);
    var base := |logged| - |log|;
    assert all[j] == logged[j] && all[base] == logged[base] == log[0];
    if j >= base {
      assert log[j - base] == all[j];
    }
  }

  /** The ingress order: whatever has been published, every authoritative component has already processed. */
  lemma AuthorityBeforeFanOut(caps: Capacities, steps: seq<Step>, event: SequencedEvent)
    requires Sensible(caps)
    requires var g := Run(caps, steps).ingress; event in g.lifecycleSent + g.deltaSent
    ensures var g := Run(caps, steps).ingress;
            && event in FoldedEvents(g.coreOps) && event in Fired(g.waiterOps) && event in Given(g.storeOps)
            && event.sequence <= RunCore(g.coreOps).snapshot.atSequence
            && (event in g.lifecycleSent ==>
                  event in g.log || (|g.log| == caps.log && event.sequence < g.log[0].sequence))
  {
    var g := Run(caps, steps).ingress;
    RunKeepsInv(caps, steps);
    PublishedIsProcessed(g, caps.log, event);
    StateHasLastSequence(g.coreOps);
    if event in g.lifecycleSent {
      PublishedIsLogged(g, caps.log, event);
    }
  }

  /** A snapshot is the state after these operations, and says of every thread what the reference knows. */
  ghost predicate IsStateAfter(snapshot: Snapshot, ops: seq<CoreOp>) {
    && snapshot == RunCore(ops).snapshot
    && snapshot.atSequence == LastSequence(FoldedEvents(ops))
    && forall id ::
         var thread, view := Entry(snapshot.threads, id), RunView(ops, id);
         && thread.activeTurnId == view.turn && thread.subscribed == view.subscribed
         && (id in snapshot.threads <==> view.Relevant() || view.lingers)
  }

  /** A gap report carries one state that the reducer really had, with every thread that mattered in it. */
  lemma GapReportIsTrueState(caps: Capacities, steps: seq<Step>, i: nat, j: nat)
    requires Sensible(caps)
    requires i < |Run(caps, steps).consumers| && j < |Run(caps, steps).consumers[i].items|
    requires Run(caps, steps).consumers[i].items[j].TooOld?
    ensures var s := Run(caps, steps);
            exists n :: 0 <= n <= |s.ingress.coreOps| &&
              IsStateAfter(s.consumers[i].items[j].snapshot, s.ingress.coreOps[..n])
  {
    var s := Run(caps, steps);
    RunKeepsInv(caps, steps);
    assert s.consumers[i] in s.consumers;
    var item, ops := s.consumers[i].items[j], s.ingress.coreOps;
    assert ItemIsReal(LifecycleOf(s.ingress.history), ops, item);
    var n :| 0 <= n <= |ops| && item.snapshot == RunCore(ops[..n]).snapshot;
    FoldedPrefix(ops, n);
    StateHasLastSequence(ops[..n]);
    forall id ensures Agrees(RunCore(ops[..n]), id, RunView(ops[..n], id)) {
      PruningRefinesReference(ops[..n], id);
    }
    assert IsStateAfter(item.snapshot, ops[..n]);
  }

  /**
   Gap reports name what was available: an event of the history, and not the one right after the
   consumer's cursor at that moment.
   */
  lemma GapReportNamesOldest(caps: Capacities, steps: seq<Step>, i: nat, j: nat)
    requires Sensible(caps)
    requires i < |Run(caps, steps).consumers| && j < |Run(caps, steps).consumers[i].items|
    requires Run(caps, steps).consumers[i].items[j].TooOld?
    ensures var s := Run(caps, steps);
            var c := s.consumers[i];
            var oldest := c.items[j].oldestAvailable;
            && oldest.Some? && CursorAfter(c.after, c.items[..j]) + 1 < oldest.value
            && exists e <- LifecycleOf(s.ingress.history) :: e.sequence == oldest.value
  {
    var s := Run(caps, steps);
    RunKeepsInv(caps, steps);
    var c, all := s.consumers[i], LifecycleOf(s.ingress.history);
    assert c in s.consumers;
    assert HonestItem(all, c.items[j], CursorAfter(c.after, c.items[..j]));
    var k :| 0 <= k < |all| && all[k].sequence == c.items[j].oldestAvailable.value;
    assert all[k] in all;
  }

  /**
   Replays are exact in every interleaving, for every consumer: each one is every lifecycle event
   above the consumer's cursor at that moment among the first `n` of the history.
   */
  lemma ReplaysAreExact(caps: Capacities, steps: seq<Step>, i: nat, j: nat)
    requires Sensible(caps)
    requires i < |Run(caps, steps).consumers| && j < |Run(caps, steps).consumers[i].items|
    requires Run(caps, steps).consumers[i].items[j].Replay?
    ensures var s := Run(caps, steps);
            var c, all := s.consumers[i], LifecycleOf(s.ingress.history);
            exists n :: 0 <= n <= |all| &&
              c.items[j].events == Above(all[..n], CursorAfter(c.after, c.items[..j]))
  {
    var s := Run(caps, steps);
    RunKeepsInv(caps, steps);
    var c := s.consumers[i];
    assert c in s.consumers;
    assert HonestItem(LifecycleOf(s.ingress.history), c.items[j], CursorAfter(c.after, c.items[..j]));
  }

  lemma {:induction false} FoldedPrefix(ops: seq<CoreOp>, n: nat)
    requires n <= |ops| && Increasing(FoldedEvents(ops))
    ensures FoldedEvents(ops[..n]) <= FoldedEvents(ops) && Increasing(FoldedEvents(ops[..n]))
  {
    if n < |ops| {
      var front := ops[..|ops| - 1];
      assert FoldedEvents(front) <= FoldedEvents(ops);
      assert Increasing(FoldedEvents(front)) by {
        forall i, j | 0 <= i < j < |FoldedEvents(front)|
          ensures FoldedEvents(front)[i].sequence < FoldedEvents(front)[j].sequence
        {
          assert FoldedEvents(ops)[i] == FoldedEvents(front)[i] && FoldedEvents(ops)[j] == FoldedEvents(front)[j];
        }
      }
      FoldedPrefix(front, n);
      assert front[..n] == ops[..n];
    } else {
      assert ops[..n] == ops;
    }
  }

  /** Delta conservation in every interleaving of publication and polling. */
  lemma DeltasAreConserved(caps: Capacities, steps: seq<Step>, i: nat)
    requires Sensible(caps)
    requires i < |Run(caps, steps).deltas|
    ensures var s := Run(caps, steps);
            var d := s.deltas[i];
            d.start <= d.next <= |s.ingress.deltaSent| &&
            |d.taken| + d.dropped + (|s.ingress.deltaSent| - d.next) == |s.ingress.deltaSent| - d.start
    ensures var s := Run(caps, steps);
            var d := s.deltas[i];
            forall p :: d.start <= p < d.next ==> p in d.taken || p < Oldest(|s.ingress.deltaSent|, caps.deltaRing)
  {
    RunKeepsInv(caps, steps);
    assert Run(caps, steps).deltas[i] in Run(caps, steps).deltas;
  }

  // ---------------------------------------------------------------- waiters in the pipeline

  ghost const NO_WAITERS := Waiting(map[], map[])

  ghost function Waits(g: Ingress): Waiting {
    RunWaiters(NO_WAITERS, g.waiterOps)
  }

  ghost predicate NumberedWaiters(ops: seq<WaiterOp>) {
    forall k :: 0 <= k < |ops| && ops[k].Register? ==> ops[k].id == k
  }

  lemma {:induction false} RunNumbersWaiters(caps: Capacities, steps: seq<Step>)
    ensures NumberedWaiters(Run(caps, steps).ingress.waiterOps)
  {
    if steps != [] {
      RunNumbersWaiters(caps, steps[..|steps| - 1]);
      NextNumbersWaiters(Run(caps, steps[..|steps| - 1]).ingress, caps, steps[|steps| - 1]);
    }
  }

  lemma NextNumbersWaiters(g: Ingress, caps: Capacities, step: Step)
    requires NumberedWaiters(g.waiterOps)
    ensures NumberedWaiters(IngressNext(g, caps, step).waiterOps)
  {
  }

  lemma {:induction false} RunWaitersSplit(w: Waiting, ops: seq<WaiterOp>, n: nat)
    requires n <= |ops|
    ensures RunWaiters(w, ops) == RunWaiters(RunWaiters(w, ops[..n]), ops[n..])
    decreases |ops|
  {
    if n > 0 {
      RunWaitersSplit(StepWaiters(w, ops[0]), ops[1..], n - 1);
      assert ops[..n][1..] == ops[1..][..n - 1];
      assert ops[n..] == ops[1..][n - 1..];
    } else {
      assert ops[n..] == ops;
    }
  }

  lemma {:induction false} OnlyEarlierIds(ops: seq<WaiterOp>, n: nat)
    requires NumberedWaiters(ops) && n <= |ops|
    ensures var w := RunWaiters(NO_WAITERS, ops[..n]);
            (forall id <- w.open :: id < n) && (forall id <- w.fired :: id < n)
  {
    if n > 0 {
      OnlyEarlierIds(ops, n - 1);
      RunWaitersSplit(NO_WAITERS, ops[..n], n - 1);
      assert ops[..n][..n - 1] == ops[..n - 1];
      assert ops[..n][n - 1..] == [ops[n - 1]];
      assert [ops[n - 1]][1..] == [];
    }
  }

  lemma {:induction false} FirstMatchIsApplied(ops: seq<WaiterOp>, matches: Predicate)
    requires FirstMatch(ops, matches).Some?
    ensures var event := FirstMatch(ops, matches).value; matches(event) && Fire(event) in ops
  {
    if !(ops[0].Fire? && matches(ops[0].event)) {
      FirstMatchIsApplied(ops[1..], matches);
    }
  }

  lemma {:induction false} FiredInHistory(ops: seq<WaiterOp>, event: SequencedEvent)
    requires Fire(event) in ops
    ensures event in Fired(ops)
  {
    if ops[|ops| - 1] != Fire(event) {
      FiredInHistory(ops[..|ops| - 1], event);
    }
  }

  /**
   In every interleaving, a registered waiter has received exactly the first event applied since its
   registration that satisfies its predicate, or nothing if there was none.
   */
  lemma WaiterHoldsFirstMatch(caps: Capacities, steps: seq<Step>, i: nat)
    requires Sensible(caps)
    requires i < |Run(caps, steps).ingress.waiterOps| && Run(caps, steps).ingress.waiterOps[i].Register?
    ensures var g := Run(caps, steps).ingress;
            var matches := g.waiterOps[i].matches;
            match FirstMatch(g.waiterOps[i + 1..], matches)
            case None => i !in Waits(g).fired
            case Some(event) =>
              i in Waits(g).fired && Waits(g).fired[i] == event && matches(event) && event in g.history
  {
    var g := Run(caps, steps).ingress;
    var ops, matches := g.waiterOps, g.waiterOps[i].matches;
    RunNumbersWaiters(caps, steps);
    RunKeepsInv(caps, steps);
    OnlyEarlierIds(ops, i);
    RunWaitersSplit(NO_WAITERS, ops, i);
    var before := RunWaiters(NO_WAITERS, ops[..i]);
    assert ops[i..][1..] == ops[i + 1..];
    var after := StepWaiters(before, ops[i]);
    assert Waits(g) == RunWaiters(after, ops[i + 1..]);
    forall op <- ops[i + 1..] ensures !Registers(op, i) {
      var k :| 0 <= k < |ops[i + 1..]| && ops[i + 1..][k] == op;
      assert ops[i + 1 + k] == op;
    }
    WaiterGetsFirstMatch(after, i, matches, ops[i + 1..]);
    if FirstMatch(ops[i + 1..], matches).Some? {
      FirstMatchIsApplied(ops[i + 1..], matches);
      var event := FirstMatch(ops[i + 1..], matches).value;
      assert Fire(event) in ops;
      FiredInHistory(ops, event);
    }
  }

  // ---------------------------------------------------------------- from the wire to the consumers

  /** The events that arrived while the ingress task was ready for the next one. */
  function Offered(caps: Capacities, steps: seq<Step>): seq<SequencedEvent> {
    if steps == [] then []
    else
      var front, step := steps[..|steps| - 1], steps[|steps| - 1];
      var g := Run(caps, front).ingress;
      Offered(caps, front) + (if step.Take? && g.stage == Idle && !g.closed then [step.event] else [])
  }

  /** The event is the receipt's frame under the receipt's number, whatever the clocks said. */
  ghost predicate IsEventOf(event: SequencedEvent, receipt: T.Receipt) {
    receipt.number <= U64_MAX &&
    event == FromFrame(receipt.number, event.unixReceiptMs, event.monotonicMs, receipt.frame, event.encodedLen)
  }

  /** The events are those of the first receipts, in order: what a first-in first-out channel yields. */
  ghost predicate FedBy(events: seq<SequencedEvent>, received: seq<T.Receipt>) {
    |events| <= |received| && forall i :: 0 <= i < |events| ==> IsEventOf(events[i], received[i])
  }

  lemma ReceiptsIncrease(events: seq<SequencedEvent>, event: SequencedEvent, config: T.Config, wire: seq<T.Step>)
    requires FedBy(events + [event], T.Run(config, wire).link.received)
    ensures FedBy(events, T.Run(config, wire).link.received) && event.sequence > LastSequence(events)
  {
    var all, received := events + [event], T.Run(config, wire).link.received;
    forall i | 0 <= i < |all| ensures all[i].sequence == i + 1 && IsEventOf(all[i], received[i]) {
      assert IsEventOf(all[i], received[i]);
      T.ReceiptsAreConsecutive(config, wire, i);
    }
    forall i | 0 <= i < |events| ensures IsEventOf(events[i], received[i]) {
      assert all[i] == events[i];
    }
    assert all[|events|] == event;
    if events != [] {
      assert all[|events| - 1] == events[|events| - 1];
    }
  }

  lemma OnlyOffersAreTaken(g: Ingress, caps: Capacities, step: Step)
    ensures var offered := step.Take? && g.stage == Idle && !g.closed;
            && (offered && step.event.sequence > LastSequence(g.history) ==>
                  IngressNext(g, caps, step).history == g.history + [step.event])
            && (!offered ==> IngressNext(g, caps, step).history == g.history)
  {
  }

  /** No event the transport hands over is ever refused: the history is exactly what was offered. */
  lemma {:induction false} NoOfferIsRefused(caps: Capacities, steps: seq<Step>, config: T.Config, wire: seq<T.Step>)
    requires FedBy(Offered(caps, steps), T.Run(config, wire).link.received)
    ensures Run(caps, steps).ingress.history == Offered(caps, steps)
  {
    if steps != [] {
      var front, step := steps[..|steps| - 1], steps[|steps| - 1];
      var before := Offered(caps, front);
      if Offered(caps, steps) == before {
        assert before + [] == before;
      } else {
        ReceiptsIncrease(before, step.event, config, wire);
      }
      NoOfferIsRefused(caps, front, config, wire);
      OnlyOffersAreTaken(Run(caps, front).ingress, caps, step);
    }
  }

  /**
   The receipt numbering the transport produces is all the pipeline needs. In every interleaving fed by
   any run of the transport, each event handed over is taken and none is refused, each is a frame that
   was read off the socket, and between events all of them are logged, shown, stored and published.
   */
  lemma {:induction false} ReceivedEventsFlowThrough(
    caps: Capacities, steps: seq<Step>, config: T.Config, wire: seq<T.Step>)
    requires Sensible(caps) && FedBy(Offered(caps, steps), T.Run(config, wire).link.received)
    ensures var g, events := Run(caps, steps).ingress, Offered(caps, steps);
            && g.history == events
            && (forall e <- events :: T.WasRead(T.Run(config, wire).calls.trace, e.frame) && SpeaksForFrame(e))
            && (g.stage == Idle ==> AllProcessed(g, caps.log))
  {
    NoOfferIsRefused(caps, steps, config, wire);
    FedEventsWereRead(Offered(caps, steps), config, wire);
    RunKeepsInv(caps, steps);
    BetweenEvents(Run(caps, steps).ingress, caps.log);
  }

  lemma EventSpeaks(event: SequencedEvent, receipt: T.Receipt)
    requires IsEventOf(event, receipt)
    ensures event.frame == receipt.frame && event.sequence == receipt.number && SpeaksForFrame(event)
  {
    FromFrameSpeaks(receipt.number, event.unixReceiptMs, event.monotonicMs, receipt.frame, event.encodedLen);
  }

  lemma FedEventsWereRead(events: seq<SequencedEvent>, config: T.Config, wire: seq<T.Step>)
    requires FedBy(events, T.Run(config, wire).link.received)
    ensures forall e <- events :: T.WasRead(T.Run(config, wire).calls.trace, e.frame) && SpeaksForFrame(e)
  {
    forall e <- events ensures T.WasRead(T.Run(config, wire).calls.trace, e.frame) && SpeaksForFrame(e) {
      var i :| 0 <= i < |events| && events[i] == e;
      T.ReceiptsAreRead(config, wire, i);
      EventSpeaks(e, T.Run(config, wire).link.received[i]);
    }
  }

  /** Between events every component has been given the whole history. */
  ghost predicate AllProcessed(g: Ingress, capacity: nat) {
    && g.log == LastN(LifecycleOf(g.history), capacity)
    && Fired(g.waiterOps) == g.history && Given(g.storeOps) == g.history
    && g.lifecycleSent == OfPlane(g.history, Lifecycle) && g.deltaSent == OfPlane(g.history, Delta)
  }

  lemma BetweenEvents(g: Ingress, capacity: nat)
    requires IngressInv(g, capacity)
    ensures g.stage == Idle ==> AllProcessed(g, capacity)
  {
  }

  /** `AuthoritativeIngress`: every authoritative consumer before the lossy fan-out. */
  class AuthoritativeIngress {
    const reducer: Reducer
    const store: Storage.EventStore
    const hub: EventHub

    constructor (reducer: Reducer, store: Storage.EventStore, hub: EventHub)
      ensures this.reducer == reducer && this.store == store && this.hub == hub
    {
      this.reducer, this.store, this.hub := reducer, store, hub;
    }

    ghost predicate Valid()
      reads this, reducer, store, hub, hub.lifecycle, hub.delta
    {
      reducer.Valid() && |reducer.lifecycle| <= reducer.lifecycleCapacity && store.Valid() && hub.Valid()
    }

    method Process(event: SequencedEvent)
      requires Valid()
      modifies reducer, store, hub.lifecycle, hub.delta
      ensures Valid()
      ensures reducer.State() == FoldEvent(old(reducer.State()), event)
      ensures reducer.lifecycle == AppendLog(old(reducer.lifecycle), reducer.lifecycleCapacity, event)
      ensures reducer.Waits() == FireWaiters(old(reducer.Waits()), event)
      ensures store.State() == Storage.Record(old(store.State()), store.config, event)
      ensures store.history == old(store.history) + [event]
      ensures hub.lifecycle.sent == old(hub.lifecycle.sent) + (if event.plane == Lifecycle then [event] else [])
      ensures hub.delta.sent == old(hub.delta.sent) + (if event.plane == Delta then [event] else [])
    {
      reducer.Apply(event);
      store.RecordEvent(event);
      hub.Publish(event);
    }
  }
}
