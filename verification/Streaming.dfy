/**
 Fan-out to consumers: the bounded broadcast ring that overwrites its oldest slot, the
 lifecycle stream that recovers from a lag out of the reducer's log, and the delta stream
 that only counts what it missed.
 */
module Streaming {
  import opened Sequences
  import opened Protocol
  import opened Reduction

  // ---------------------------------------------------------------- the ring

  datatype Received = Empty | Closed | Value(event: SequencedEvent) | Lagged(missed: nat)

  /** The position of the oldest slot a ring still holds after `sent` sends. */
  function Oldest(sent: nat, capacity: nat): nat {
    if sent <= capacity then 0 else sent - capacity
  }

  /** One receive of a receiver at `next`: a lag report moves it to the oldest slot held. */
  function Receive(sent: seq<SequencedEvent>, capacity: nat, closed: bool, next: nat): (Received, nat)
    requires next <= |sent|
  {
    var oldest := Oldest(|sent|, capacity);
    if next < oldest then (Lagged(oldest - next), oldest)
    else if next < |sent| then (Value(sent[next]), next + 1)
    else (if closed then Closed else Empty, next)
  }

  /** A broadcast channel. `slots` is all it keeps; `sent` is the whole stream it stands for. */
  class Broadcast {
    const capacity: nat
    var slots: seq<SequencedEvent>
    var tail: nat
    var closed: bool
    ghost var sent: seq<SequencedEvent>

    ghost predicate Valid()
      reads this
    {
      capacity > 0 && tail == |sent| && slots == LastN(sent, capacity)
    }

    constructor (capacity: nat)
      requires capacity > 0
      ensures Valid() && this.capacity == capacity && sent == [] && !closed
    {
      this.capacity := capacity;
      slots, tail, closed, sent := [], 0, false, [];
    }

    method Send(event: SequencedEvent)
      requires Valid()
      modifies this`slots, this`tail, this`sent
      ensures Valid() && sent == old(sent) + [event]
    {
      slots := if |slots| == capacity then slots[1..] + [event] else slots + [event];
      tail := tail + 1;
      sent := sent + [event];
    }

    method Poll(next: nat) returns (received: Received, position: nat)
      requires Valid() && next <= |sent|
      ensures (received, position) == Receive(sent, capacity, closed, next)
    {
      var oldest := tail - |slots|;
      if next < oldest {
        return Lagged(oldest - next), oldest;
      }
      if next < tail {
        return Value(slots[next - oldest]), next + 1;
      }
      received, position := if closed then Closed else Empty, next;
    }
  }

  /** `EventHub`: every event goes to the ring of its plane. */
  class EventHub {
    const lifecycle: Broadcast
    const delta: Broadcast

    ghost predicate Valid()
      reads this, lifecycle, delta
    {
      lifecycle != delta && lifecycle.Valid() && delta.Valid()
    }

    constructor (lifecycleCapacity: nat, deltaCapacity: nat)
      requires lifecycleCapacity > 0 && deltaCapacity > 0
      ensures Valid() && fresh(lifecycle) && fresh(delta)
      ensures lifecycle.sent == [] && delta.sent == []
    {
      lifecycle := new Broadcast(lifecycleCapacity);
      delta := new Broadcast(deltaCapacity);
    }

    method Publish(event: SequencedEvent)
      requires Valid()
      modifies lifecycle, delta
      ensures Valid()
      ensures lifecycle.sent == old(lifecycle.sent) + (if event.plane == Lifecycle then [event] else [])
      ensures delta.sent == old(delta.sent) + (if event.plane == Delta then [event] else [])
    {
      match event.plane
      case Lifecycle => lifecycle.Send(event);
      case Delta => delta.Send(event);
    }
  }

  // ---------------------------------------------------------------- lifecycle consumers

  datatype LifecycleItem =
    | Event(event: SequencedEvent)
    | Replay(events: seq<SequencedEvent>)
    | TooOld(snapshot: Snapshot, oldestAvailable: Option<Sequence>)
    | StreamClosed

  /**
   Where a `recv` in progress stands: it reads the log, then if refused the state, under separate
   locks. `from` is the ring position at which the lag found the consumer.
   */
  datatype Phase = Ready | Lagging(from: nat) | Refused(from: nat, oldest: Option<Sequence>)

  datatype Stretch = Stretch(from: nat, to: nat)

  /**
   A lifecycle consumer: subscribed at ring position `start` asking for what follows `after`, now at
   `next`. `items` is everything it was handed; `skipped` are the stretches of the ring that a lag
   report took it past in a `recv` call that was dropped before its recovery was returned.
   */
  datatype Consumer = Consumer(
    after: Sequence, start: nat, next: nat, cursor: Sequence, phase: Phase,
    items: seq<LifecycleItem>, skipped: seq<Stretch>)

  function NewConsumer(after: Sequence, position: nat): Consumer {
    Consumer(after, position, position, after, Ready, [], [])
  }

  function PollStep(c: Consumer, sent: seq<SequencedEvent>, capacity: nat, closed: bool): Consumer
  {
    if c.phase != Ready || c.next > |sent| then c
    else
      var (received, position) := Receive(sent, capacity, closed, c.next);
      match received
      case Empty => c
      case Closed => c.(items := c.items + [StreamClosed])
      case Value(event) => c.(next := position, cursor := event.sequence, items := c.items + [Event(event)])
      case Lagged(_) => c.(next := position, phase := Lagging(c.next))
  }

  function LogStep(c: Consumer, log: seq<SequencedEvent>): Consumer {
    if !c.phase.Lagging? then c
    else if PredatesLog(log, c.cursor) then c.(phase := Refused(c.phase.from, Some(log[0].sequence)))
    else
      var events := Above(log, c.cursor);
      c.(phase := Ready, items := c.items + [Replay(events)],
         cursor := if events == [] then c.cursor else events[|events| - 1].sequence)
  }

  function SnapshotStep(c: Consumer, snapshot: Snapshot): Consumer {
    if !c.phase.Refused? then c
    else c.(phase := Ready, items := c.items + [TooOld(snapshot, c.phase.oldest)], cursor := snapshot.atSequence)
  }

  /** The `recv` future is dropped: the ring position stays moved, the cursor does not. */
  function DropStep(c: Consumer): Consumer {
    if c.phase == Ready then c
    else c.(phase := Ready, skipped := c.skipped + [Stretch(c.phase.from, c.next)])
  }

  ghost predicate HandedOut(items: seq<LifecycleItem>, event: SequencedEvent) {
    exists i :: 0 <= i < |items| &&
      (items[i] == Event(event) || (items[i].Replay? && event in items[i].events))
  }

  ghost predicate ReportedLost(items: seq<LifecycleItem>, event: SequencedEvent) {
    exists i :: 0 <= i < |items| && items[i].TooOld? && event.sequence <= items[i].snapshot.atSequence
  }

  ghost predicate Covered(c: Consumer, event: SequencedEvent) {
    HandedOut(c.items, event) || ReportedLost(c.items, event)
  }

  lemma CoveredStays(c: Consumer, d: Consumer, event: SequencedEvent)
    requires c.items <= d.items && Covered(c, event)
    ensures Covered(d, event)
  {
    if HandedOut(c.items, event) {
      var i :| 0 <= i < |c.items| && (c.items[i] == Event(event) || (c.items[i].Replay? && event in c.items[i].events));
      assert d.items[i] == c.items[i];
    } else {
      var i :| 0 <= i < |c.items| && c.items[i].TooOld? && event.sequence <= c.items[i].snapshot.atSequence;
      assert d.items[i] == c.items[i];
    }
  }

  /**
   Dropping a `recv` future after its lag report loses events without a word: when the next call
   returns an event, the cursor has passed everything overwritten and nothing new covers it.
   */
  lemma DroppedRecvLosesSilently(
    c: Consumer, sent: seq<SequencedEvent>, capacity: nat, closed: bool, lost: nat)
    requires c.phase == Ready && c.next <= lost < Oldest(|sent|, capacity) && capacity > 0
    requires Increasing(sent) && !Covered(c, sent[lost])
    ensures var d := PollStep(DropStep(PollStep(c, sent, capacity, closed)), sent, capacity, closed);
            && d.skipped == c.skipped + [Stretch(c.next, Oldest(|sent|, capacity))]
            && sent[lost].sequence < d.cursor && lost < d.next && !Covered(d, sent[lost])
  {
    var oldest := Oldest(|sent|, capacity);
    var d := PollStep(DropStep(PollStep(c, sent, capacity, closed)), sent, capacity, closed);
    assert d.items == c.items + [Event(sent[oldest])];
    forall i | 0 <= i < |d.items|
      ensures !(d.items[i] == Event(sent[lost]) || (d.items[i].Replay? && sent[lost] in d.items[i].events))
      ensures !(d.items[i].TooOld? && sent[lost].sequence <= d.items[i].snapshot.atSequence)
    {
      if i < |c.items| {
        assert d.items[i] == c.items[i];
      }
    }
  }

  /** How far one item reaches: the highest number it hands out or reports. */
  function Reach(item: LifecycleItem): nat {
    match item
    case Event(event) => event.sequence
    case Replay(events) => MaxSequence(events)
    case TooOld(snapshot, _) => snapshot.atSequence
    case StreamClosed => 0
  }

  /** How far a consumer has got: its starting point, or the highest number among the items it holds. */
  function Reached(after: Sequence, items: seq<LifecycleItem>): nat {
    if items == [] then after
    else Max(Reached(after, items[..|items| - 1]), Reach(items[|items| - 1]))
  }

  lemma ReachedPush(after: Sequence, items: seq<LifecycleItem>, item: LifecycleItem)
    ensures Reached(after, items + [item]) == Max(Reached(after, items), Reach(item))
  {
    assert (items + [item])[..|items|] == items;
  }

  lemma {:induction false} ReachedCoversItems(after: Sequence, items: seq<LifecycleItem>, i: nat)
    requires i < |items|
    ensures after <= Reached(after, items) && Reach(items[i]) <= Reached(after, items)
  {
    ReachedIsAbove(after, items);
    if i < |items| - 1 {
      ReachedCoversItems(after, items[..|items| - 1], i);
    }
  }

  lemma {:induction false} ReachedIsAbove(after: Sequence, items: seq<LifecycleItem>)
    ensures after <= Reached(after, items)
  {
    if items != [] {
      ReachedIsAbove(after, items[..|items| - 1]);
    }
  }

  /** What a consumer was handed or told about lies within its reach. */
  lemma CoveredIsReached(c: Consumer, event: SequencedEvent)
    requires Covered(c, event)
    ensures event.sequence <= Reached(c.after, c.items)
  {
    var i :| 0 <= i < |c.items| &&
      (c.items[i] == Event(event) || (c.items[i].Replay? && event in c.items[i].events) ||
       (c.items[i].TooOld? && event.sequence <= c.items[i].snapshot.atSequence));
    ReachedCoversItems(c.after, c.items, i);
    if c.items[i].Replay? {
      MaxSequenceBounds(c.items[i].events);
    }
  }

  ghost predicate Skipped(skipped: seq<Stretch>, k: nat) {
    exists s <- skipped :: s.from <= k < s.to
  }

  /** The event at position `k` was handed out, reported, or skipped by a dropped call. */
  ghost predicate Safe(c: Consumer, event: SequencedEvent, k: nat) {
    Covered(c, event) || Skipped(c.skipped, k)
  }

  lemma SafeStays(c: Consumer, d: Consumer, event: SequencedEvent, k: nat)
    requires c.items <= d.items && c.skipped == d.skipped && Safe(c, event, k)
    ensures Safe(d, event, k)
  {
    if Covered(c, event) {
      CoveredStays(c, d, event);
    }
  }

  /**
   With `all` the lifecycle events so far: nothing numbered above `after` and within the consumer's
   reach is missing, and nothing behind the ring position unless a recovery that will cover it is
   under way; only what a dropped call skipped is excused, and that lies behind the ring position.
   */
  ghost predicate NothingMissed(all: seq<SequencedEvent>, c: Consumer) {
    && c.cursor <= Reached(c.after, c.items)
    && (forall s <- c.skipped :: s.to <= c.next)
    && (forall k :: c.start <= k < |all| && c.after < all[k].sequence <= Reached(c.after, c.items) ==>
          Safe(c, all[k], k))
    && (forall k :: c.start <= k < c.next && k < |all| && c.after < all[k].sequence ==>
          Safe(c, all[k], k) || (c.phase != Ready && c.cursor < all[k].sequence))
  }

  /** A lag only ever found the consumer where nothing was missing yet. */
  ghost predicate LagIsNew(all: seq<SequencedEvent>, c: Consumer) {
    c.phase != Ready ==>
      c.phase.from <= c.next &&
      forall k :: c.start <= k < c.phase.from && k < |all| && c.after < all[k].sequence ==> Safe(c, all[k], k)
  }

  lemma NewestIsHanded(items: seq<LifecycleItem>, item: LifecycleItem, event: SequencedEvent)
    requires item == Event(event) || (item.Replay? && event in item.events)
    ensures HandedOut(items + [item], event)
  {
    assert (items + [item])[|items|] == item;
  }

  lemma PollMissesNothing(
    all: seq<SequencedEvent>, sent: seq<SequencedEvent>, capacity: nat, closed: bool, c: Consumer)
    requires sent <= all && Increasing(all) && c.start <= c.next <= |sent| && NothingMissed(all, c)
    ensures NothingMissed(all, PollStep(c, sent, capacity, closed))
  {
    var d := PollStep(c, sent, capacity, closed);
    if c.phase == Ready && d.items != c.items {
      var item := d.items[|c.items|];
      if item.Event? {
        assert all[c.next] == sent[c.next];
        HandingMissesNothing(all, c, d);
      } else {
        ReachedPush(c.after, c.items, item);
        forall k | 0 <= k < |all| && Safe(c, all[k], k) ensures Safe(d, all[k], k) {
          SafeStays(c, d, all[k], k);
        }
      }
    }
  }

  lemma PollLagIsNew(all: seq<SequencedEvent>, c: Consumer, sent: seq<SequencedEvent>, capacity: nat, closed: bool)
    requires NothingMissed(all, c) && LagIsNew(all, c)
    ensures LagIsNew(all, PollStep(c, sent, capacity, closed))
  {
    var d := PollStep(c, sent, capacity, closed);
    if c.phase == Ready && d.phase != Ready {
      forall k | 0 <= k < |all| && Safe(c, all[k], k) ensures Safe(d, all[k], k) {
        SafeStays(c, d, all[k], k);
      }
    }
  }

  lemma LogLagIsNew(all: seq<SequencedEvent>, c: Consumer, log: seq<SequencedEvent>)
    requires LagIsNew(all, c)
    ensures LagIsNew(all, LogStep(c, log))
  {
    var d := LogStep(c, log);
    if d.phase != Ready {
      forall k | 0 <= k < |all| && Safe(c, all[k], k) ensures Safe(d, all[k], k) {
        SafeStays(c, d, all[k], k);
      }
    }
  }

  /** Dropping a call excuses exactly the stretch its lag report took the consumer past. */
  lemma DropMissesNothing(all: seq<SequencedEvent>, c: Consumer)
    requires NothingMissed(all, c) && LagIsNew(all, c)
    ensures NothingMissed(all, DropStep(c))
  {
    if c.phase != Ready {
      var d, stretch := DropStep(c), Stretch(c.phase.from, c.next);
      assert stretch in d.skipped;
      forall k | 0 <= k < |all| && Safe(c, all[k], k) ensures Safe(d, all[k], k) {
        if Covered(c, all[k]) {
          CoveredStays(c, d, all[k]);
        } else {
          var s :| s in c.skipped && s.from <= k < s.to;
          assert s in d.skipped;
        }
      }
    }
  }

  lemma HandingMissesNothing(all: seq<SequencedEvent>, c: Consumer, d: Consumer)
    requires Increasing(all) && c.start <= c.next < |all| && c.phase == Ready && NothingMissed(all, c)
    requires d == c.(next := c.next + 1, cursor := all[c.next].sequence, items := c.items + [Event(all[c.next])])
    ensures NothingMissed(all, d)
  {
    var event := all[c.next];
    ReachedPush(c.after, c.items, Event(event));
    NewestIsHanded(c.items, Event(event), event);
    forall k | c.start <= k < |all| && c.after < all[k].sequence &&
               (k < d.next || all[k].sequence <= Reached(d.after, d.items))
      ensures Safe(d, all[k], k)
    {
      if k != c.next {
        SafeStays(c, d, all[k], k);
      }
    }
  }

  /** Reading the log covers everything logged above the cursor, or leaves the refusal to the snapshot. */
  lemma LogMissesNothing(
    all: seq<SequencedEvent>, logged: seq<SequencedEvent>, capacity: nat, c: Consumer)
    requires logged <= all && Increasing(all) && capacity > 0 && c.next <= |logged| && NothingMissed(all, c)
    ensures NothingMissed(all, LogStep(c, LastN(logged, capacity)))
  {
    var log := LastN(logged, capacity);
    var d := LogStep(c, log);
    if c.phase.Lagging? && !PredatesLog(log, c.cursor) {
      var events := Above(logged, c.cursor);
      ReplayIsWhole(all, logged, capacity, c.cursor);
      AboveMembers(logged, c.cursor);
      MaxSequenceBounds(events);
      ReachedPush(c.after, c.items, Replay(events));
      if events != [] {
        assert events[|events| - 1] in events;
      }
      forall k | c.start <= k < |all| && c.after < all[k].sequence &&
                 (k < d.next || all[k].sequence <= Reached(d.after, d.items))
        ensures Safe(d, all[k], k)
      {
        if all[k].sequence <= Reached(c.after, c.items) {
          SafeStays(c, d, all[k], k);
        } else {
          LoggedUpTo(all, logged, events, c.cursor, k);
          NewestIsHanded(c.items, Replay(events), all[k]);
        }
      }
    }
  }

  lemma ReplayIsWhole(all: seq<SequencedEvent>, logged: seq<SequencedEvent>, capacity: nat, cursor: Sequence)
    requires logged <= all && Increasing(all) && capacity > 0
    requires !PredatesLog(LastN(logged, capacity), cursor)
    ensures Above(LastN(logged, capacity), cursor) == Above(logged, cursor)
  {
    forall i, j | 0 <= i < j < |logged| ensures logged[i].sequence < logged[j].sequence {
      assert all[i] == logged[i] && all[j] == logged[j];
    }
    ReplayIsExact(logged, capacity, cursor);
  }

  lemma LoggedUpTo(
    all: seq<SequencedEvent>, logged: seq<SequencedEvent>, events: seq<SequencedEvent>, cursor: Sequence, k: nat)
    requires logged <= all && Increasing(all) && k < |all| && cursor < all[k].sequence
    requires forall e :: e in events <==> e in logged && e.sequence > cursor
    requires k < |logged| || all[k].sequence <= MaxSequence(events)
    ensures all[k] in events
  {
    MaxSequenceBounds(events);
    if events != [] {
      var e :| e in events && e.sequence == MaxSequence(events);
      var i :| 0 <= i < |logged| && logged[i] == e;
      assert all[i] == logged[i];
    }
    assert k < |logged|;
    assert logged[k] == all[k];
  }

  lemma SnapshotMissesNothing(all: seq<SequencedEvent>, snapshot: Snapshot, c: Consumer)
    requires forall e <- all :: e.sequence <= snapshot.atSequence
    requires NothingMissed(all, c)
    ensures NothingMissed(all, SnapshotStep(c, snapshot))
  {
    if c.phase.Refused? {
      var d := SnapshotStep(c, snapshot);
      ReachedPush(c.after, c.items, TooOld(snapshot, c.phase.oldest));
      assert d.items[|c.items|] == TooOld(snapshot, c.phase.oldest);
      forall k | 0 <= k < |all| ensures Covered(d, all[k]) {
        assert all[k] in all;
      }
    }
  }

  /**
   Exactly when dropping a `recv` future after its lag report does no harm: the ring laps the
   consumer again before its next call, or the newest event it had overwritten lies within what the
   consumer's items already reach. `later` is the stream at the next call; no harm means that nothing
   is missed even if the skipped stretch is not excused.
   */
  lemma DroppedRecvIsHarmlessIff(
    c: Consumer, sent: seq<SequencedEvent>, later: seq<SequencedEvent>, capacity: nat, closed: bool)
    requires sent <= later && Increasing(later) && capacity > 0
    requires c.phase == Ready && c.start <= c.next < Oldest(|sent|, capacity) && NothingMissed(later, c)
    ensures var oldest := Oldest(|sent|, capacity);
            var d := PollStep(DropStep(PollStep(c, sent, capacity, closed)), later, capacity, closed);
            NothingMissed(later, d.(skipped := c.skipped)) <==>
            Oldest(|later|, capacity) > oldest || sent[oldest - 1].sequence <= Reached(c.after, c.items)
  {
    var oldest := Oldest(|sent|, capacity);
    var dropped := DropStep(PollStep(c, sent, capacity, closed));
    assert dropped == c.(next := oldest, skipped := c.skipped + [Stretch(c.next, oldest)]);
    var d := PollStep(dropped, later, capacity, closed).(skipped := c.skipped);
    if Oldest(|later|, capacity) > oldest {
      LaggingMissesNothing(later, c, d);
    } else {
      DroppedThenHanded(c, d, later, oldest);
    }
  }

  lemma LaggingMissesNothing(all: seq<SequencedEvent>, c: Consumer, d: Consumer)
    requires NothingMissed(all, c) && d == c.(next := d.next, phase := d.phase) && d.phase != Ready && c.next <= d.next
    ensures NothingMissed(all, d)
  {
    forall k | 0 <= k < |all| ensures Safe(d, all[k], k) <==> Safe(c, all[k], k) {
    }
  }

  lemma DroppedThenHanded(c: Consumer, d: Consumer, later: seq<SequencedEvent>, oldest: nat)
    requires Increasing(later) && oldest < |later| && NothingMissed(later, c)
    requires c.phase == Ready && c.start <= c.next < oldest
    requires d == c.(next := oldest + 1, cursor := later[oldest].sequence,
                     items := c.items + [Event(later[oldest])])
    ensures NothingMissed(later, d) <==> later[oldest - 1].sequence <= Reached(c.after, c.items)
  {
    var event, newest := later[oldest], later[oldest - 1];
    ReachedPush(c.after, c.items, Event(event));
    ReachedIsAbove(c.after, c.items);
    NewestIsHanded(c.items, Event(event), event);
    forall k | 0 <= k < oldest ensures Safe(d, later[k], k) <==> Safe(c, later[k], k) {
      NewItemCoversItself(c, d, event, later[k]);
    }
    if newest.sequence > Reached(c.after, c.items) {
      if Covered(c, newest) {
        CoveredIsReached(c, newest);
      }
      assert !Safe(d, newest, oldest - 1);
    } else {
      assert forall k :: c.start <= k <= oldest && c.after < later[k].sequence ==> Safe(d, later[k], k);
    }
  }

  lemma NewItemCoversItself(c: Consumer, d: Consumer, handed: SequencedEvent, event: SequencedEvent)
    requires d.items == c.items + [Event(handed)] && handed != event
    ensures Covered(d, event) <==> Covered(c, event)
  {
    if Covered(c, event) {
      CoveredStays(c, d, event);
    }
    forall i | 0 <= i < |c.items| ensures d.items[i] == c.items[i] {
    }
  }

  // ---------------------------------------------------------------- what a call returns

  /** Exactly what one `recv` that nothing interferes with returns, if it does not go on waiting. */
  lemma RecvReturns(
    c: Consumer, sent: seq<SequencedEvent>, capacity: nat, closed: bool, log: seq<SequencedEvent>, snapshot: Snapshot)
    requires c.phase == Ready && c.next <= |sent|
    ensures var d := SnapshotStep(LogStep(PollStep(c, sent, capacity, closed), log), snapshot);
            var overwritten := if |sent| <= capacity then 0 else |sent| - capacity;
            && d.phase == Ready
            && (c.next < overwritten && !(log != [] && c.cursor + 1 < log[0].sequence) ==>
                  d.items == c.items + [Replay(Above(log, c.cursor))] && d.next == overwritten)
            && (c.next < overwritten && log != [] && c.cursor + 1 < log[0].sequence ==>
                  && d.items == c.items + [TooOld(snapshot, Some(log[0].sequence))]
                  && d.next == overwritten && d.cursor == snapshot.atSequence)
            && (overwritten <= c.next < |sent| ==>
                  d.items == c.items + [Event(sent[c.next])] && d.next == c.next + 1)
            && (c.next == |sent| && closed ==> d.items == c.items + [StreamClosed] && d.next == c.next)
            && (c.next == |sent| && !closed ==> d == c)
  {
  }

  function Polls(c: Consumer, sent: seq<SequencedEvent>, capacity: nat, closed: bool, n: nat): Consumer {
    if n == 0 then c else PollStep(Polls(c, sent, capacity, closed, n - 1), sent, capacity, closed)
  }

  function Handed(events: seq<SequencedEvent>): seq<LifecycleItem> {
    seq(|events|, i requires 0 <= i < |events| => Event(events[i]))
  }

  /** A consumer that keeps up is handed the stream itself, each event once and in order. */
  lemma {:induction false} KeepingUpDeliversAll(
    c: Consumer, sent: seq<SequencedEvent>, capacity: nat, closed: bool, n: nat)
    requires c.phase == Ready && Oldest(|sent|, capacity) <= c.next && c.next + n <= |sent|
    ensures var d := Polls(c, sent, capacity, closed, n);
            d.phase == Ready && d.next == c.next + n && d.items == c.items + Handed(sent[c.next..c.next + n])
  {
    if n > 0 {
      KeepingUpDeliversAll(c, sent, capacity, closed, n - 1);
      var stretch := sent[c.next..c.next + n];
      assert stretch == sent[c.next..c.next + n - 1] + [sent[c.next + n - 1]];
      assert Handed(stretch) == Handed(sent[c.next..c.next + n - 1]) + [Event(sent[c.next + n - 1])];
    }
  }

  // ---------------------------------------------------------------- what a replay contains

  /** What an item does to the cursor. */
  function NextCursor(before: Sequence, item: LifecycleItem): Sequence {
    match item
    case Event(event) => event.sequence
    case Replay(events) => if events == [] then before else events[|events| - 1].sequence
    case TooOld(snapshot, _) => snapshot.atSequence
    case StreamClosed => before
  }

  /** The cursor a consumer holds after these items. */
  function CursorAfter(after: Sequence, items: seq<LifecycleItem>): Sequence {
    if items == [] then after else NextCursor(CursorAfter(after, items[..|items| - 1]), items[|items| - 1])
  }

  lemma CursorPush(after: Sequence, items: seq<LifecycleItem>, item: LifecycleItem)
    ensures CursorAfter(after, items + [item]) == NextCursor(CursorAfter(after, items), item)
  {
    assert (items + [item])[..|items|] == items;
  }

  /** A refusal names an event of the stream, and not the one right after the cursor. */
  ghost predicate NamesLater(all: seq<SequencedEvent>, oldest: Option<Sequence>, cursor: Sequence) {
    && oldest.Some? && cursor + 1 < oldest.value
    && exists k :: 0 <= k < |all| && all[k].sequence == oldest.value
  }

  /**
   A replay is every event of a prefix of the stream above the cursor it was asked for; a gap report
   names the oldest event that was available instead.
   */
  ghost predicate HonestItem(all: seq<SequencedEvent>, item: LifecycleItem, cursor: Sequence) {
    && (item.Replay? ==> exists n :: 0 <= n <= |all| && item.events == Above(all[..n], cursor))
    && (item.TooOld? ==> NamesLater(all, item.oldestAvailable, cursor))
  }

  /** The cursor is what the items make it, each recovery among them was honest, and so is one under way. */
  ghost predicate ItemsAreHonest(all: seq<SequencedEvent>, c: Consumer) {
    && c.cursor == CursorAfter(c.after, c.items)
    && (c.phase.Refused? ==> NamesLater(all, c.phase.oldest, c.cursor))
    && forall j :: 0 <= j < |c.items| ==> HonestItem(all, c.items[j], CursorAfter(c.after, c.items[..j]))
  }

  lemma SameItemsKeepWhole(all: seq<SequencedEvent>, c: Consumer, d: Consumer)
    requires ItemsAreHonest(all, c) && d.after == c.after && d.items == c.items && d.cursor == c.cursor
    requires d.phase.Refused? ==> NamesLater(all, d.phase.oldest, d.cursor)
    ensures ItemsAreHonest(all, d)
  {
  }

  lemma ItemKeepsWhole(all: seq<SequencedEvent>, c: Consumer, d: Consumer, item: LifecycleItem)
    requires ItemsAreHonest(all, c) && d.after == c.after && d.items == c.items + [item]
    requires d.cursor == NextCursor(c.cursor, item) && HonestItem(all, item, c.cursor) && !d.phase.Refused?
    ensures ItemsAreHonest(all, d)
  {
    CursorPush(c.after, c.items, item);
    forall j | 0 <= j < |d.items| ensures HonestItem(all, d.items[j], CursorAfter(d.after, d.items[..j])) {
      if j < |c.items| {
        assert d.items[..j] == c.items[..j];
      } else {
        assert d.items[..j] == c.items;
      }
    }
  }

  /** An item that is no recovery needs no proof of its own. */
  lemma PlainItemKeepsWhole(all: seq<SequencedEvent>, c: Consumer, d: Consumer, item: LifecycleItem)
    requires ItemsAreHonest(all, c) && d.after == c.after && d.items == c.items + [item]
    requires d.cursor == NextCursor(c.cursor, item) && !item.Replay? && !item.TooOld? && !d.phase.Refused?
    ensures ItemsAreHonest(all, d)
  {
    ItemKeepsWhole(all, c, d, item);
  }

  lemma PollKeepsWhole(all: seq<SequencedEvent>, c: Consumer, sent: seq<SequencedEvent>, capacity: nat, closed: bool)
    requires ItemsAreHonest(all, c)
    ensures ItemsAreHonest(all, PollStep(c, sent, capacity, closed))
  {
    var d := PollStep(c, sent, capacity, closed);
    if c.phase == Ready && c.next <= |sent| {
      match Receive(sent, capacity, closed, c.next).0
      case Value(event) => PlainItemKeepsWhole(all, c, d, Event(event));
      case Closed => PlainItemKeepsWhole(all, c, d, StreamClosed);
      case _ => SameItemsKeepWhole(all, c, d);
    }
  }

  lemma LogKeepsWhole(all: seq<SequencedEvent>, logged: seq<SequencedEvent>, capacity: nat, c: Consumer)
    requires logged <= all && Increasing(all) && capacity > 0 && ItemsAreHonest(all, c)
    ensures ItemsAreHonest(all, LogStep(c, LastN(logged, capacity)))
  {
    var log := LastN(logged, capacity);
    var d := LogStep(c, log);
    if !c.phase.Lagging? || PredatesLog(log, c.cursor) {
      if c.phase.Lagging? {
        OldestIsOfStream(all, logged, capacity);
      }
      SameItemsKeepWhole(all, c, d);
    } else {
      LogReplayIsWhole(all, logged, capacity, c.cursor);
      ItemKeepsWhole(all, c, d, Replay(Above(log, c.cursor)));
    }
  }

  lemma OldestIsOfStream(all: seq<SequencedEvent>, logged: seq<SequencedEvent>, capacity: nat)
    requires logged <= all && capacity > 0 && LastN(logged, capacity) != []
    ensures exists k :: 0 <= k < |all| && all[k].sequence == LastN(logged, capacity)[0].sequence
  {
    var k := |logged| - |LastN(logged, capacity)|;
    assert all[k] == logged[k] == LastN(logged, capacity)[0];
  }

  lemma LogReplayIsWhole(all: seq<SequencedEvent>, logged: seq<SequencedEvent>, capacity: nat, cursor: Sequence)
    requires logged <= all && Increasing(all) && capacity > 0 && !PredatesLog(LastN(logged, capacity), cursor)
    ensures HonestItem(all, Replay(Above(LastN(logged, capacity), cursor)), cursor)
  {
    ReplayIsWhole(all, logged, capacity, cursor);
    assert logged == all[..|logged|];
  }

  lemma SnapshotKeepsWhole(all: seq<SequencedEvent>, snapshot: Snapshot, c: Consumer)
    requires ItemsAreHonest(all, c)
    ensures ItemsAreHonest(all, SnapshotStep(c, snapshot))
  {
    if c.phase.Refused? {
      ItemKeepsWhole(all, c, SnapshotStep(c, snapshot), TooOld(snapshot, c.phase.oldest));
    }
  }

  class LifecycleStream {
    const ring: Broadcast
    const reducer: Reducer
    var next: nat
    var cursor: Sequence
    ghost var after: Sequence
    ghost var start: nat
    ghost var items: seq<LifecycleItem>

    ghost predicate Valid()
      reads this, ring, reducer
    {
      ring.Valid() && reducer.Valid() && next <= |ring.sent|
    }

    ghost function State(): Consumer
      reads this
    {
      Consumer(after, start, next, cursor, Ready, items, [])
    }

    constructor (ring: Broadcast, reducer: Reducer, after: Sequence)
      requires ring.Valid() && reducer.Valid()
      ensures Valid() && this.ring == ring && this.reducer == reducer
      ensures State() == NewConsumer(after, |ring.sent|)
    {
      this.ring, this.reducer := ring, reducer;
      next, cursor := ring.tail, after;
      this.after, start, items := after, ring.tail, [];
    }

    /** One `recv` with no interference between its steps; `None` means it is still waiting. */
    method Recv() returns (item: Option<LifecycleItem>)
      requires Valid()
      modifies this`next, this`cursor, this`items
      ensures Valid()
      ensures State() == SnapshotStep(LogStep(PollStep(old(State()), ring.sent, ring.capacity, ring.closed),
                                              reducer.lifecycle), reducer.State().snapshot)
      ensures items == old(items) + (if item.Some? then [item.value] else [])
    {
      var received, position := ring.Poll(next);
      next := position;
      match received {
        case Empty => return None;
        case Value(event) =>
          cursor := event.sequence;
          item := Some(Event(event));
        case Lagged(_) =>
          var answer := reducer.EventsSince(cursor);
          match answer {
            case Events(events) =>
              if events != [] {
                cursor := events[|events| - 1].sequence;
              }
              item := Some(Replay(events));
            case GapTooOld(_, oldest, snapshot) =>
              cursor := snapshot.atSequence;
              item := Some(TooOld(snapshot, oldest));
          }
        case Closed => item := Some(StreamClosed);
      }
      items := items + [item.value];
    }
  }

  // ---------------------------------------------------------------- delta consumers

  /** A delta consumer; `taken` lists the ring positions of the events it was handed. */
  datatype DeltaConsumer = DeltaConsumer(start: nat, next: nat, dropped: nat, taken: seq<nat>)

  /** One turn of the delta loop. */
  function DeltaStep(c: DeltaConsumer, sent: seq<SequencedEvent>, capacity: nat, closed: bool): DeltaConsumer
  {
    if c.next > |sent| then c
    else
      var (received, position) := Receive(sent, capacity, closed, c.next);
      match received
      case Value(_) => c.(next := position, taken := c.taken + [c.next])
      case Lagged(missed) => c.(next := position, dropped := c.dropped + missed)
      case _ => c
  }

  /**
   Delta conservation: what was taken, what was counted as dropped and what is still ahead add
   up to what was published since the subscription; events are taken in order and never twice,
   and an event that was not taken had been overwritten.
   */
  ghost predicate DeltaConserved(c: DeltaConsumer, sent: nat, capacity: nat) {
    && c.start <= c.next <= sent
    && |c.taken| + c.dropped + (sent - c.next) == sent - c.start
    && (forall i, j :: 0 <= i < j < |c.taken| ==> c.taken[i] < c.taken[j])
    && (forall p <- c.taken :: c.start <= p < c.next)
    && (forall p :: c.start <= p < c.next ==> p in c.taken || p < Oldest(sent, capacity))
  }

  lemma DeltaStepConserves(c: DeltaConsumer, sent: seq<SequencedEvent>, capacity: nat, closed: bool)
    requires DeltaConserved(c, |sent|, capacity)
    ensures DeltaConserved(DeltaStep(c, sent, capacity, closed), |sent|, capacity)
  {
    var d := DeltaStep(c, sent, capacity, closed);
    forall i | 0 <= i < |c.taken| ensures c.taken[i] < c.next {
      assert c.taken[i] in c.taken;
    }
    if Receive(sent, capacity, closed, c.next).0.Value? {
      assert d.taken[|c.taken|] == c.next;
      forall p | c.start <= p < d.next ensures p in d.taken || p < Oldest(|sent|, capacity) {
        if p != c.next {
          assert p in c.taken ==> p in d.taken;
        }
      }
    }
  }

  lemma PublishConserves(c: DeltaConsumer, sent: nat, capacity: nat)
    requires DeltaConserved(c, sent, capacity)
    ensures DeltaConserved(c, sent + 1, capacity)
  {
  }

  class DeltaStream {
    const ring: Broadcast
    var next: nat
    var dropped: nat
    ghost var start: nat
    ghost var taken: seq<nat>

    ghost function State(): DeltaConsumer
      reads this
    {
      DeltaConsumer(start, next, dropped, taken)
    }

    ghost predicate Valid()
      reads this, ring
    {
      ring.Valid() && DeltaConserved(State(), |ring.sent|, ring.capacity)
    }

    constructor (ring: Broadcast)
      requires ring.Valid()
      ensures Valid() && this.ring == ring && State() == DeltaConsumer(|ring.sent|, |ring.sent|, 0, [])
    {
      this.ring := ring;
      next, dropped := ring.tail, 0;
      start, taken := ring.tail, [];
    }

    /** Loops past lag reports; `Empty` means the call is still waiting. */
    method Recv() returns (received: Received)
      requires Valid()
      modifies this`next, this`dropped, this`taken
      ensures Valid() && !received.Lagged?
      ensures received.Value? ==>
                var position := if old(next) < Oldest(|ring.sent|, ring.capacity)
                                then Oldest(|ring.sent|, ring.capacity) else old(next);
                && position < |ring.sent| && received.event == ring.sent[position]
                && taken == old(taken) + [position] && next == position + 1
                && dropped == old(dropped) + (position - old(next))
      ensures !received.Value? ==> received == if ring.closed then Closed else Empty
      ensures !received.Value? ==> next == |ring.sent| && State() == old(State())
    {
      while true
        invariant Valid() && taken == old(taken) && start == old(start)
        invariant dropped == old(dropped) + (next - old(next))
        invariant next == old(next) || old(next) < next == Oldest(|ring.sent|, ring.capacity)
        decreases |ring.sent| - next
      {
        received := PollOnce();
        if !received.Lagged? {
          return;
        }
      }
    }

    /** One turn of the loop. */
    method PollOnce() returns (received: Received)
      requires Valid()
      modifies this`next, this`dropped, this`taken
      ensures Valid() && State() == DeltaStep(old(State()), ring.sent, ring.capacity, ring.closed)
      ensures (received, next) == Receive(ring.sent, ring.capacity, ring.closed, old(next))
    {
      DeltaStepConserves(State(), ring.sent, ring.capacity, ring.closed);
      var position;
      received, position := ring.Poll(next);
      match received {
        case Value(_) => taken := taken + [next];
        case Lagged(missed) => dropped := dropped + missed;
        case _ =>
      }
      next := position;
    }
  }
}
