/**
 The bounded event store: one queue with double-entry byte accounting, an age window, a
 per-thread and a global byte cap, delta-first eviction, and a gap record for every key
 that lost events.
 */
module Storage {
  import opened Sequences
  import opened Protocol

  datatype Config = Config(
    retentionMs: nat, perThreadBytes: nat, globalBytes: nat, emittedAtToleranceMs: U64)

  datatype RetentionGap = RetentionGap(
    beforeSequence: Option<Sequence>, summarizedDeltaEvents: nat, evictedLifecycleEvents: nat)

  const NO_GAP := RetentionGap(None, 0, 0)

  type Gaps = map<Option<string>, RetentionGap>

  datatype Inner = Inner(
    events: seq<SequencedEvent>, bytes: nat, threadBytes: map<string, nat>, gaps: Gaps)

  const EMPTY := Inner([], 0, map[], map[])

  // ---------------------------------------------------------------- sums

  function Total(events: seq<SequencedEvent>): nat {
    if events == [] then 0 else events[0].encodedLen + Total(events[1..])
  }

  lemma {:induction false} TotalConcat(a: seq<SequencedEvent>, b: seq<SequencedEvent>)
    ensures Total(a + b) == Total(a) + Total(b)
  {
    if a == [] {
      assert a + b == b;
    } else {
      TotalConcat(a[1..], b);
      assert (a + b)[1..] == a[1..] + b;
    }
  }

  lemma TotalPush(s: seq<SequencedEvent>, x: SequencedEvent)
    ensures Total(s + [x]) == Total(s) + x.encodedLen
  {
    TotalConcat(s, [x]);
    assert [x][1..] == [];
  }

  lemma TotalOfThree(a: seq<SequencedEvent>, x: SequencedEvent, b: seq<SequencedEvent>)
    ensures Total(a + [x] + b) == Total(a + b) + x.encodedLen
  {
    TotalConcat(a, b);
    TotalPush(a, x);
    TotalConcat(a + [x], b);
  }

  lemma TotalWithout(s: seq<SequencedEvent>, i: nat)
    requires i < |s|
    ensures Total(s) == Total(Without(s, i)) + s[i].encodedLen
  {
    TotalOfThree(s[..i], s[i], s[i + 1..]);
    assert s == s[..i] + [s[i]] + s[i + 1..];
  }

  function OnThread(id: string): SequencedEvent -> bool {
    (e: SequencedEvent) => e.threadId == Some(id)
  }

  function OnKey(key: Option<string>, plane: Plane): SequencedEvent -> bool {
    (e: SequencedEvent) => e.threadId == key && e.plane == plane
  }

  function ThreadTotal(events: seq<SequencedEvent>, id: string): nat {
    Total(Filter(events, OnThread(id)))
  }

  lemma ThreadTotalPush(s: seq<SequencedEvent>, x: SequencedEvent, id: string)
    ensures ThreadTotal(s + [x], id) == ThreadTotal(s, id) + (if x.threadId == Some(id) then x.encodedLen else 0)
  {
    FilterPush(s, x, OnThread(id));
    if x.threadId == Some(id) {
      TotalPush(Filter(s, OnThread(id)), x);
    } else {
      assert Filter(s + [x], OnThread(id)) == Filter(s, OnThread(id));
    }
  }

  lemma ThreadTotalWithout(s: seq<SequencedEvent>, i: nat, id: string)
    requires i < |s|
    ensures ThreadTotal(s, id) ==
            ThreadTotal(Without(s, i), id) + (if s[i].threadId == Some(id) then s[i].encodedLen else 0)
  {
    var p := OnThread(id);
    FilterWithout(s, i, p);
    if s[i].threadId == Some(id) {
      TotalConcat(Filter(s[..i], p), Filter(s[i + 1..], p));
      TotalPush(Filter(s[..i], p), s[i]);
      TotalConcat(Filter(s[..i], p) + [s[i]], Filter(s[i + 1..], p));
    }
  }

  // ---------------------------------------------------------------- operations

  function ThreadBytes(inner: Inner, id: string): nat {
    if id in inner.threadBytes then inner.threadBytes[id] else 0
  }

  function GapOf(gaps: Gaps, key: Option<string>): RetentionGap {
    if key in gaps then gaps[key] else NO_GAP
  }

  function Widen(gap: RetentionGap, event: SequencedEvent): RetentionGap {
    RetentionGap(
      Some(match gap.beforeSequence
           case None => event.sequence
           case Some(s) => if s < event.sequence then event.sequence else s),
      gap.summarizedDeltaEvents + (if event.plane == Delta then 1 else 0),
      gap.evictedLifecycleEvents + (if event.plane == Delta then 0 else 1))
  }

  function RemoveAt(inner: Inner, position: nat): Inner
    requires position < |inner.events|
  {
    var event := inner.events[position];
    Inner(
      Without(inner.events, position),
      SaturatingSub(inner.bytes, event.encodedLen),
      match event.threadId
      case None => inner.threadBytes
      case Some(id) => inner.threadBytes[id := SaturatingSub(ThreadBytes(inner, id), event.encodedLen)],
      inner.gaps[event.threadId := Widen(GapOf(inner.gaps, event.threadId), event)])
  }

  function Push(inner: Inner, event: SequencedEvent): Inner {
    Inner(
      inner.events + [event],
      inner.bytes + event.encodedLen,
      match event.threadId
      case None => inner.threadBytes
      case Some(id) => inner.threadBytes[id := ThreadBytes(inner, id) + event.encodedLen],
      inner.gaps)
  }

  function AgeOut(inner: Inner, cutoff: nat): Inner
    decreases |inner.events|
  {
    if inner.events != [] && inner.events[0].monotonicMs < cutoff
    then AgeOut(RemoveAt(inner, 0), cutoff)
    else inner
  }

  /** The first delta of a thread, or of any thread when `over` is `None`. */
  function DeltaPosition(events: seq<SequencedEvent>, over: Option<string>): Option<nat> {
    if events == [] then None
    else if events[0].plane == Delta && (over.None? || events[0].threadId == over) then Some(0)
    else match DeltaPosition(events[1..], over) case None => None case Some(i) => Some(i + 1)
  }

  function EvictPosition(events: seq<SequencedEvent>, over: Option<string>): nat {
    match DeltaPosition(events, over) case None => 0 case Some(i) => i
  }

  predicate IsOver(inner: Inner, config: Config, id: string) {
    ThreadBytes(inner, id) > config.perThreadBytes
  }

  /** The over-cap thread, given that only the key just recorded can be over its cap. */
  function OverThread(inner: Inner, config: Config, key: Option<string>): Option<string> {
    if key.Some? && IsOver(inner, config, key.value) then key else None
  }

  predicate OverCap(inner: Inner, config: Config, key: Option<string>) {
    inner.bytes > config.globalBytes || OverThread(inner, config, key).Some?
  }

  ghost predicate Accounted(inner: Inner) {
    && inner.bytes == Total(inner.events)
    && forall id :: ThreadBytes(inner, id) == ThreadTotal(inner.events, id)
  }

  ghost predicate WithinCaps(inner: Inner, config: Config) {
    && inner.bytes <= config.globalBytes
    && forall id :: !IsOver(inner, config, id)
  }

  ghost predicate OnlyOver(inner: Inner, config: Config, key: Option<string>) {
    forall id :: IsOver(inner, config, id) ==> key == Some(id)
  }

  ghost function EvictOver(inner: Inner, config: Config, key: Option<string>): Inner
    requires Accounted(inner)
    decreases |inner.events|
  {
    if OverCap(inner, config, key) then
      EvictionEnabled(inner, config, key);
      EvictOver(RemoveAt(inner, EvictPosition(inner.events, OverThread(inner, config, key))), config, key)
    else inner
  }

  ghost function Record(inner: Inner, config: Config, event: SequencedEvent): Inner
    requires Accounted(inner)
  {
    PushKeepsAccounts(inner, event);
    var aged := AgeOut(Push(inner, event), SaturatingSub(event.monotonicMs, config.retentionMs));
    AgeOutKeepsAccounts(Push(inner, event), SaturatingSub(event.monotonicMs, config.retentionMs));
    EvictOver(aged, config, event.threadId)
  }

  predicate IsIdleDelta(event: SequencedEvent, idle: seq<string>) {
    event.plane == Delta && event.threadId.Some? && event.threadId.value in idle
  }

  /** The idle sweep: walks from `position` down to the front. */
  function EvictIdle(inner: Inner, idle: seq<string>, position: nat): Inner
    requires position <= |inner.events|
    decreases position
  {
    if position == 0 then inner
    else if IsIdleDelta(inner.events[position - 1], idle)
    then EvictIdle(RemoveAt(inner, position - 1), idle, position - 1)
    else EvictIdle(inner, idle, position - 1)
  }

  predicate IsGenuineStart(event: SequencedEvent, threadId: string, turnId: string) {
    && !event.reconstructed && event.Method() == Some("turn/started")
    && event.threadId == Some(threadId) && event.turnId == Some(turnId)
  }

  // ---------------------------------------------------------------- accounting

  lemma PushKeepsAccounts(inner: Inner, event: SequencedEvent)
    requires Accounted(inner)
    ensures Accounted(Push(inner, event))
  {
    TotalPush(inner.events, event);
    forall id ensures ThreadBytes(Push(inner, event), id) == ThreadTotal(Push(inner, event).events, id) {
      ThreadTotalPush(inner.events, event, id);
    }
  }

  /** Double entry: no subtraction in `remove_at` ever saturates, and both ledgers stay exact. */
  lemma RemoveIsExact(inner: Inner, position: nat)
    requires Accounted(inner) && position < |inner.events|
    ensures var event, after := inner.events[position], RemoveAt(inner, position);
            && Accounted(after)
            && inner.bytes == after.bytes + event.encodedLen
            && forall id :: ThreadBytes(inner, id) ==
                            ThreadBytes(after, id) + (if event.threadId == Some(id) then event.encodedLen else 0)
  {
    var after := RemoveAt(inner, position);
    TotalWithout(inner.events, position);
    forall id
      ensures ThreadBytes(after, id) == ThreadTotal(after.events, id)
      ensures ThreadBytes(inner, id) == ThreadBytes(after, id) +
              (if inner.events[position].threadId == Some(id) then inner.events[position].encodedLen else 0)
    {
      ThreadTotalWithout(inner.events, position, id);
    }
  }

  lemma {:induction false} AgeOutKeepsAccounts(inner: Inner, cutoff: nat)
    requires Accounted(inner)
    ensures Accounted(AgeOut(inner, cutoff))
    ensures AgeOut(inner, cutoff).bytes <= inner.bytes
    ensures forall id :: ThreadBytes(AgeOut(inner, cutoff), id) <= ThreadBytes(inner, id)
    decreases |inner.events|
  {
    if inner.events != [] && inner.events[0].monotonicMs < cutoff {
      RemoveIsExact(inner, 0);
      AgeOutKeepsAccounts(RemoveAt(inner, 0), cutoff);
    }
  }

  lemma {:induction false} DeltaPositionIsFirst(events: seq<SequencedEvent>, over: Option<string>)
    ensures match DeltaPosition(events, over)
            case None => forall e <- events :: e.plane == Delta ==> over.Some? && e.threadId != over
            case Some(i) =>
              && i < |events| && events[i].plane == Delta && (over.None? || events[i].threadId == over)
              && forall j :: 0 <= j < i && events[j].plane == Delta ==> over.Some? && events[j].threadId != over
  {
    if events != [] {
      DeltaPositionIsFirst(events[1..], over);
      assert events == [events[0]] + events[1..];
    }
  }

  /** The eviction loop is never over a cap with nothing left to evict, so it terminates. */
  lemma EvictionEnabled(inner: Inner, config: Config, key: Option<string>)
    requires Accounted(inner) && OverCap(inner, config, key)
    ensures var position := EvictPosition(inner.events, OverThread(inner, config, key));
            position < |inner.events| && Accounted(RemoveAt(inner, position))
  {
    var over := OverThread(inner, config, key);
    DeltaPositionIsFirst(inner.events, over);
    if over.Some? {
      assert ThreadBytes(inner, over.value) == ThreadTotal(inner.events, over.value);
    }
    RemoveIsExact(inner, EvictPosition(inner.events, over));
  }

  lemma {:induction false} EvictOverReachesCaps(inner: Inner, config: Config, key: Option<string>)
    requires Accounted(inner) && OnlyOver(inner, config, key)
    ensures Accounted(EvictOver(inner, config, key)) && WithinCaps(EvictOver(inner, config, key), config)
    decreases |inner.events|
  {
    if OverCap(inner, config, key) {
      EvictionEnabled(inner, config, key);
      var position := EvictPosition(inner.events, OverThread(inner, config, key));
      RemoveIsExact(inner, position);
      EvictOverReachesCaps(RemoveAt(inner, position), config, key);
    }
  }

  lemma OnlyRecordedKeyIsOver(inner: Inner, config: Config, event: SequencedEvent, cutoff: nat)
    requires Accounted(inner) && WithinCaps(inner, config)
    ensures OnlyOver(AgeOut(Push(inner, event), cutoff), config, event.threadId)
  {
    PushKeepsAccounts(inner, event);
    AgeOutKeepsAccounts(Push(inner, event), cutoff);
    forall id | IsOver(AgeOut(Push(inner, event), cutoff), config, id) ensures event.threadId == Some(id) {
      assert !IsOver(inner, config, id);
    }
  }

  /** After every `record` both ledgers are exact and both caps hold. */
  lemma RecordKeepsLedgersAndCaps(inner: Inner, config: Config, event: SequencedEvent)
    requires Accounted(inner) && WithinCaps(inner, config)
    ensures Accounted(Record(inner, config, event)) && WithinCaps(Record(inner, config, event), config)
    ensures var events := Record(inner, config, event).events;
            Total(events) <= config.globalBytes && forall id :: ThreadTotal(events, id) <= config.perThreadBytes
  {
    var cutoff := SaturatingSub(event.monotonicMs, config.retentionMs);
    PushKeepsAccounts(inner, event);
    AgeOutKeepsAccounts(Push(inner, event), cutoff);
    OnlyRecordedKeyIsOver(inner, config, event, cutoff);
    EvictOverReachesCaps(AgeOut(Push(inner, event), cutoff), config, event.threadId);
    CapsHold(Record(inner, config, event), config);
  }

  lemma CapsHold(inner: Inner, config: Config)
    requires Accounted(inner) && WithinCaps(inner, config)
    ensures Total(inner.events) <= config.globalBytes
    ensures forall id :: ThreadTotal(inner.events, id) <= config.perThreadBytes
  {
    forall id ensures ThreadTotal(inner.events, id) <= config.perThreadBytes {
      assert ThreadBytes(inner, id) == ThreadTotal(inner.events, id) && !IsOver(inner, config, id);
    }
  }

  // ---------------------------------------------------------------- delta-first eviction

  ghost predicate NoDelta(events: seq<SequencedEvent>, over: Option<string>) {
    forall e <- events :: e.plane == Delta ==> over.Some? && e.threadId != over
  }

  /** One turn of the cap loop: the state it finds, and the position it evicts. */
  datatype Turn = Turn(before: Inner, position: nat)

  /** The turns lead from one state to another, each starting where the one before it ended. */
  ghost predicate Chain(inner: Inner, turns: seq<Turn>, out: Inner)
    decreases |turns|
  {
    if turns == [] then inner == out
    else
      && turns[0].before == inner && turns[0].position < |inner.events|
      && Chain(RemoveAt(inner, turns[0].position), turns[1..], out)
  }

  predicate IsDeltaOf(event: SequencedEvent, over: Option<string>) {
    event.plane == Delta && (over.None? || event.threadId == over)
  }

  /** The recorded thread, if what it retains is larger than the cap of a thread. */
  ghost function OverKey(events: seq<SequencedEvent>, config: Config, key: Option<string>): Option<string> {
    if key.Some? && ThreadTotal(events, key.value) > config.perThreadBytes then key else None
  }

  /** Whether what is retained is larger than the global cap, or the recorded thread than its own. */
  ghost predicate Exceeds(events: seq<SequencedEvent>, config: Config, key: Option<string>) {
    Total(events) > config.globalBytes || OverKey(events, config, key).Some?
  }

  lemma OverIsExceeded(inner: Inner, config: Config, key: Option<string>)
    requires Accounted(inner)
    ensures OverThread(inner, config, key) == OverKey(inner.events, config, key)
    ensures OverCap(inner, config, key) <==> Exceeds(inner.events, config, key)
  {
  }

  /**
   The eviction policy. A turn is needed: it finds some cap exceeded. It is delta-first: it takes the
   oldest delta of the thread that is over its own cap (of any thread if only the global cap is
   exceeded), and only when there is none does it take the oldest event of all.
   */
  ghost predicate FollowsPolicy(turn: Turn, config: Config, key: Option<string>) {
    var events, over := turn.before.events, OverKey(turn.before.events, config, key);
    && Exceeds(turn.before.events, config, key) && turn.position < |events|
    && if NoDelta(events, over) then turn.position == 0
       else IsDeltaOf(events[turn.position], over) &&
            forall j :: 0 <= j < turn.position ==> !IsDeltaOf(events[j], over)
  }

  /** A turn costs a lifecycle event only when no delta could have been taken instead. */
  ghost predicate LifecycleLast(turn: Turn, config: Config, key: Option<string>)
    requires turn.position < |turn.before.events|
  {
    turn.before.events[turn.position].plane == Lifecycle ==>
      NoDelta(turn.before.events, OverKey(turn.before.events, config, key))
  }

  lemma EvictionFollowsPolicy(inner: Inner, config: Config, key: Option<string>)
    requires Accounted(inner) && OverCap(inner, config, key)
    ensures FollowsPolicy(Turn(inner, EvictPosition(inner.events, OverThread(inner, config, key))), config, key)
  {
    EvictionEnabled(inner, config, key);
    OverIsExceeded(inner, config, key);
    DeltaPositionIsFirst(inner.events, OverThread(inner, config, key));
  }

  /**
   No eviction is gratuitous and lifecycle events go last: the cap loop reaches its result by turns
   that each start from a state over some cap, and that evict a lifecycle event only when the over-cap
   thread (or the whole store, when only the global cap is exceeded) holds no delta.
   */
  lemma {:induction false} EvictionTurns(inner: Inner, config: Config, key: Option<string>) returns (turns: seq<Turn>)
    requires Accounted(inner)
    ensures Chain(inner, turns, EvictOver(inner, config, key))
    ensures !Exceeds(EvictOver(inner, config, key).events, config, key)
    ensures forall turn <- turns :: FollowsPolicy(turn, config, key) && LifecycleLast(turn, config, key)
    decreases |inner.events|
  {
    turns := [];
    OverIsExceeded(inner, config, key);
    if OverCap(inner, config, key) {
      EvictionFollowsPolicy(inner, config, key);
      EvictionEnabled(inner, config, key);
      var turn := Turn(inner, EvictPosition(inner.events, OverThread(inner, config, key)));
      var rest := EvictionTurns(RemoveAt(inner, turn.position), config, key);
      turns := [turn] + rest;
      assert turns[1..] == rest;
    }
  }

  /** The policy leaves no choice: any loop that follows it until no cap is exceeded has this result. */
  lemma {:induction false} PolicyDecidesEviction(
    inner: Inner, turns: seq<Turn>, out: Inner, config: Config, key: Option<string>)
    requires Accounted(inner) && Chain(inner, turns, out) && !Exceeds(out.events, config, key)
    requires forall turn <- turns :: FollowsPolicy(turn, config, key)
    ensures out == EvictOver(inner, config, key)
    decreases |turns|
  {
    OverIsExceeded(inner, config, key);
    if turns != [] {
      var turn, p := turns[0], EvictPosition(inner.events, OverThread(inner, config, key));
      assert turn in turns && OverCap(inner, config, key);
      EvictionEnabled(inner, config, key);
      OnePolicyPosition(inner, turn.position, config, key);
      assert forall t <- turns[1..] :: t in turns;
      PolicyDecidesEviction(RemoveAt(inner, p), turns[1..], out, config, key);
    }
  }

  lemma OnePolicyPosition(inner: Inner, position: nat, config: Config, key: Option<string>)
    requires Accounted(inner) && FollowsPolicy(Turn(inner, position), config, key)
    ensures position == EvictPosition(inner.events, OverThread(inner, config, key))
  {
    var events, over := inner.events, OverThread(inner, config, key);
    var p := EvictPosition(events, over);
    OverIsExceeded(inner, config, key);
    EvictionFollowsPolicy(inner, config, key);
    assert !NoDelta(events, over) ==> IsDeltaOf(events[position], over) && IsDeltaOf(events[p], over);
  }

  /**
   A thread over its own cap costs another key an event exactly when it has no delta left to give
   and the oldest event of the store is not its own.
   */
  lemma BystanderEvictedIff(inner: Inner, config: Config, key: Option<string>)
    requires Accounted(inner) && OverThread(inner, config, key).Some?
    ensures var position := EvictPosition(inner.events, key);
            && position < |inner.events|
            && (inner.events[position].threadId != key <==>
                  NoDelta(inner.events, key) && inner.events[0].threadId != key)
  {
    EvictionEnabled(inner, config, key);
    DeltaPositionIsFirst(inner.events, key);
  }

  // ---------------------------------------------------------------- age window

  /** Along these events no clock reading lies more than `skew` below an earlier one. */
  ghost predicate Skewed(events: seq<SequencedEvent>, skew: nat) {
    forall i, j :: 0 <= i < j < |events| ==> events[i].monotonicMs <= events[j].monotonicMs + skew
  }

  ghost predicate NotOlder(events: seq<SequencedEvent>, cutoff: nat, skew: nat) {
    forall e <- events :: cutoff <= e.monotonicMs + skew
  }

  function NewestClock(events: seq<SequencedEvent>): nat {
    if events == [] then 0 else Max(NewestClock(events[..|events| - 1]), events[|events| - 1].monotonicMs)
  }

  /** The largest amount by which the clock readings of a history run backwards; 0 if they never do. */
  function SkewOf(events: seq<SequencedEvent>): nat {
    if events == [] then 0
    else
      var front := events[..|events| - 1];
      Max(SkewOf(front), SaturatingSub(NewestClock(front), events[|events| - 1].monotonicMs))
  }

  lemma {:induction false} NewestClockBounds(events: seq<SequencedEvent>)
    ensures forall i :: 0 <= i < |events| ==> events[i].monotonicMs <= NewestClock(events)
  {
    if events != [] {
      NewestClockBounds(events[..|events| - 1]);
    }
  }

  lemma {:induction false} SkewOfBounds(events: seq<SequencedEvent>)
    ensures Skewed(events, SkewOf(events))
  {
    if events != [] {
      var front := events[..|events| - 1];
      SkewOfBounds(front);
      NewestClockBounds(front);
      forall i, j | 0 <= i < j < |events| ensures events[i].monotonicMs <= events[j].monotonicMs + SkewOf(events) {
        if j < |events| - 1 {
          assert front[i].monotonicMs <= front[j].monotonicMs + SkewOf(front);
        } else {
          assert front[i].monotonicMs <= NewestClock(front);
        }
      }
    }
  }

  /** Clocks that never run backwards have no skew. */
  lemma {:induction false} SortedHasNoSkew(events: seq<SequencedEvent>)
    requires Skewed(events, 0)
    ensures SkewOf(events) == 0
    ensures events != [] ==> NewestClock(events) == events[|events| - 1].monotonicMs
  {
    if events != [] {
      SortedHasNoSkew(events[..|events| - 1]);
    }
  }

  lemma {:induction false} AgeOutKeepsWindow(inner: Inner, cutoff: nat, skew: nat)
    requires Skewed(inner.events, skew)
    ensures var events := AgeOut(inner, cutoff).events;
            Skewed(events, skew) && NotOlder(events, cutoff, skew) && forall e <- events :: e in inner.events
    decreases |inner.events|
  {
    if inner.events != [] && inner.events[0].monotonicMs < cutoff {
      AgeOutKeepsWindow(RemoveAt(inner, 0), cutoff, skew);
    }
  }

  /** What is left of some events: some of them, no more skewed. */
  ghost predicate IsPart(events: seq<SequencedEvent>, all: seq<SequencedEvent>, skew: nat) {
    Skewed(events, skew) && forall e <- events :: e in all
  }

  lemma PartStays(all: seq<SequencedEvent>, skew: nat, inv: Inner -> bool)
    requires forall i :: inv(i) <==> IsPart(i.events, all, skew)
    ensures KeptByRemoval(inv)
  {
  }

  /** What is retained lies within `retention` of the newest event, and as far again as clocks ran backwards. */
  lemma RecordKeepsWindow(inner: Inner, config: Config, event: SequencedEvent, skew: nat)
    requires Accounted(inner) && Skewed(inner.events + [event], skew)
    ensures var events := Record(inner, config, event).events;
            && Skewed(events, skew) && (forall e <- events :: e in inner.events + [event])
            && NotOlder(events, SaturatingSub(event.monotonicMs, config.retentionMs), skew)
  {
    var cutoff := SaturatingSub(event.monotonicMs, config.retentionMs);
    PushKeepsAccounts(inner, event);
    AgeOutKeepsAccounts(Push(inner, event), cutoff);
    var aged := AgeOut(Push(inner, event), cutoff);
    AgeOutKeepsWindow(Push(inner, event), cutoff, skew);
    var inv := (i: Inner) => IsPart(i.events, aged.events, skew);
    PartStays(aged.events, skew, inv);
    EvictOverKeeps(inv, aged, config, event.threadId);
  }

  /** Every event older than the cutoff comes before every event that is not. */
  ghost predicate OldFirst(events: seq<SequencedEvent>, cutoff: nat) {
    forall i, j :: 0 <= i < j < |events| && events[j].monotonicMs < cutoff ==> events[i].monotonicMs < cutoff
  }

  lemma OldFirstTail(events: seq<SequencedEvent>, cutoff: nat)
    requires events != [] && events[0].monotonicMs < cutoff
    ensures OldFirst(events[1..], cutoff) <==> OldFirst(events, cutoff)
  {
    var rest := events[1..];
    if OldFirst(rest, cutoff) {
      forall i, j | 0 <= i < j < |events| && events[j].monotonicMs < cutoff ensures events[i].monotonicMs < cutoff {
        if i > 0 {
          assert rest[j - 1].monotonicMs < cutoff;
          assert rest[i - 1].monotonicMs < cutoff;
        }
      }
    }
    if OldFirst(events, cutoff) {
      forall i, j | 0 <= i < j < |rest| && rest[j].monotonicMs < cutoff ensures rest[i].monotonicMs < cutoff {
        assert events[j + 1].monotonicMs < cutoff;
        assert events[i + 1].monotonicMs < cutoff;
      }
    }
  }

  lemma YoungFrontIff(events: seq<SequencedEvent>, cutoff: nat)
    requires events != [] ==> cutoff <= events[0].monotonicMs
    ensures NotOlder(events, cutoff, 0) <==> OldFirst(events, cutoff)
  {
    if OldFirst(events, cutoff) {
      forall e <- events ensures cutoff <= e.monotonicMs {
        var j :| 0 <= j < |events| && events[j] == e;
      }
    }
    if NotOlder(events, cutoff, 0) {
      forall j | 0 <= j < |events| ensures cutoff <= events[j].monotonicMs {
        assert events[j] in events;
      }
    }
  }

  /** Exactly when ageing leaves nothing outside the window: no event that is too old stands behind one that is not. */
  lemma {:induction false} AgeOutIsExactIff(inner: Inner, cutoff: nat)
    ensures NotOlder(AgeOut(inner, cutoff).events, cutoff, 0) <==> OldFirst(inner.events, cutoff)
    decreases |inner.events|
  {
    if inner.events != [] && inner.events[0].monotonicMs < cutoff {
      var rest := RemoveAt(inner, 0);
      AgeOutIsExactIff(rest, cutoff);
      OldFirstTail(inner.events, cutoff);
      assert rest.events == inner.events[1..];
      assert AgeOut(inner, cutoff) == AgeOut(rest, cutoff);
    } else {
      YoungFrontIff(inner.events, cutoff);
    }
  }

  /**
   The window after a `record`. It is exact whenever the events too old for it stand first in the queue,
   and, unless the cap loop happened to evict the others, only then.
   */
  lemma RecordIsInWindowIff(inner: Inner, config: Config, event: SequencedEvent)
    requires Accounted(inner)
    ensures var cutoff := SaturatingSub(event.monotonicMs, config.retentionMs);
            var kept := NotOlder(Record(inner, config, event).events, cutoff, 0);
            && (OldFirst(inner.events + [event], cutoff) ==> kept)
            && (!OverCap(AgeOut(Push(inner, event), cutoff), config, event.threadId) ==>
                  (kept <==> OldFirst(inner.events + [event], cutoff)))
  {
    var cutoff := SaturatingSub(event.monotonicMs, config.retentionMs);
    PushKeepsAccounts(inner, event);
    AgeOutKeepsAccounts(Push(inner, event), cutoff);
    AgeOutIsExactIff(Push(inner, event), cutoff);
    var aged := AgeOut(Push(inner, event), cutoff);
    SkewOfBounds(aged.events);
    var inv := (i: Inner) => IsPart(i.events, aged.events, SkewOf(aged.events));
    PartStays(aged.events, SkewOf(aged.events), inv);
    EvictOverKeeps(inv, aged, config, event.threadId);
  }

  /** An event that fits both caps, with the oldest retained one still young enough, is simply appended. */
  lemma RecordFits(inner: Inner, config: Config, event: SequencedEvent)
    requires Accounted(inner) && inner.bytes + event.encodedLen <= config.globalBytes
    requires event.threadId.Some? ==>
               ThreadBytes(inner, event.threadId.value) + event.encodedLen <= config.perThreadBytes
    requires inner.events != [] ==>
               SaturatingSub(event.monotonicMs, config.retentionMs) <= inner.events[0].monotonicMs
    ensures Record(inner, config, event) == Push(inner, event) && Accounted(Push(inner, event))
  {
    PushKeepsAccounts(inner, event);
    var pushed := Push(inner, event);
    assert pushed.events[0] == if inner.events == [] then event else inner.events[0];
    assert AgeOut(pushed, SaturatingSub(event.monotonicMs, config.retentionMs)) == pushed;
    assert !OverCap(pushed, config, event.threadId);
  }

  // ---------------------------------------------------------------- queries

  datatype Query =
    | BySequence(thread: Option<string>, after: Sequence, through: Option<Sequence>)
    | ByTime(thread: Option<string>, startUnixMs: U64, endUnixMs: U64, toleranceMs: U64)
  {
    predicate Matches(event: SequencedEvent) {
      && (thread.None? || event.threadId == thread)
      && match this
         case BySequence(_, after, through) =>
           event.sequence > after && (through.None? || event.sequence <= through.value)
         case ByTime(_, start, end, tolerance) =>
           var stamp := if event.emittedAtMs.Some? then event.emittedAtMs.value else event.unixReceiptMs;
           SaturatingAdd(stamp, tolerance) >= start && stamp <= SaturatingAdd(end, tolerance)
    }
  }

  /** Of this thread, or of any when the query names none. */
  predicate OfThread(e: SequencedEvent, thread: Option<string>) {
    thread.None? || e.threadId == thread
  }

  /** Numbered above `after`, and not above `through` when there is one. */
  predicate InSequenceRange(e: SequencedEvent, thread: Option<string>, after: Sequence, through: Option<Sequence>) {
    OfThread(e, thread) && e.sequence > after && (through.Some? ==> e.sequence <= through.value)
  }

  /** Emitted, or else received, between `start` and `end`, give or take the tolerance. */
  predicate InTimeRange(e: SequencedEvent, thread: Option<string>, start: U64, end: U64, tolerance: U64) {
    && OfThread(e, thread)
    && (e.emittedAtMs.Some? ==> start <= e.emittedAtMs.value + tolerance && e.emittedAtMs.value <= end + tolerance)
    && (e.emittedAtMs.None? ==> start <= e.unixReceiptMs + tolerance && e.unixReceiptMs <= end + tolerance)
  }

  /** What a query asks for, in plain terms: saturation never changes an answer. */
  ghost predicate Selects(query: Query, e: SequencedEvent) {
    match query
    case BySequence(thread, after, through) => InSequenceRange(e, thread, after, through)
    case ByTime(thread, start, end, tolerance) => InTimeRange(e, thread, start, end, tolerance)
  }

  lemma MatchesIff(query: Query, e: SequencedEvent)
    ensures query.Matches(e) <==> Selects(query, e)
  {
  }

  /** The events a query selects, above an optional floor. */
  function Wanted(query: Query, floor: Option<Sequence>): SequencedEvent -> bool {
    (e: SequencedEvent) => query.Matches(e) && (floor.None? || e.sequence > floor.value)
  }

  /** A query over a queue gives exactly the events it asks for. */
  lemma SelectedIff(events: seq<SequencedEvent>, query: Query)
    ensures forall e :: e in Filter(events, Wanted(query, None)) <==> e in events && Selects(query, e)
  {
    FilterMembers(events, Wanted(query, None));
    forall e ensures Wanted(query, None)(e) <==> Selects(query, e) {
      MatchesIff(query, e);
    }
  }

  function Evicted(inner: Inner, key: Option<string>, plane: Plane): nat {
    var gap := GapOf(inner.gaps, key);
    if plane == Delta then gap.summarizedDeltaEvents else gap.evictedLifecycleEvents
  }

  /** The floor lies at or above every loss reported for the threads a query covers. */
  ghost predicate Covers(gaps: Gaps, query: Query, floor: Option<Sequence>) {
    forall key <- gaps :: (query.thread.None? || key == query.thread) ==>
      floor.Some? && gaps[key].beforeSequence.Some? && gaps[key].beforeSequence.value <= floor.value
  }

  /** Per key and plane, the retained events are the recorded ones less the first `Evicted` of them. */
  ghost predicate Conserved(history: seq<SequencedEvent>, inner: Inner, key: Option<string>, plane: Plane) {
    var all := Filter(history, OnKey(key, plane));
    Evicted(inner, key, plane) <= |all| &&
    Filter(inner.events, OnKey(key, plane)) == all[Evicted(inner, key, plane)..]
  }

  ghost predicate Complete(history: seq<SequencedEvent>, inner: Inner, query: Query, floor: Option<Sequence>) {
    Covers(inner.gaps, query, floor) ==>
      Filter(inner.events, Wanted(query, floor)) == Filter(history, Wanted(query, floor))
  }

  ghost predicate GapsReal(inner: Inner) {
    forall key <- inner.gaps ::
      inner.gaps[key].beforeSequence.Some? &&
      Evicted(inner, key, Delta) + Evicted(inner, key, Lifecycle) > 0
  }

  /** How the store relates to everything ever recorded in it. */
  ghost predicate Faithful(history: seq<SequencedEvent>, inner: Inner) {
    && (forall key, plane :: Conserved(history, inner, key, plane))
    && (forall query, floor :: Complete(history, inner, query, floor))
    && GapsReal(inner)
  }

  lemma PushIsFaithful(history: seq<SequencedEvent>, inner: Inner, event: SequencedEvent)
    requires Faithful(history, inner)
    ensures Faithful(history + [event], Push(inner, event))
  {
    var after := Push(inner, event);
    forall key, plane ensures Conserved(history + [event], after, key, plane) {
      assert Conserved(history, inner, key, plane);
      FilterPush(history, event, OnKey(key, plane));
      FilterPush(inner.events, event, OnKey(key, plane));
    }
    forall query, floor ensures Complete(history + [event], after, query, floor) {
      assert Complete(history, inner, query, floor);
      FilterPush(history, event, Wanted(query, floor));
      FilterPush(inner.events, event, Wanted(query, floor));
    }
    assert GapsReal(after) by {
      forall key <- after.gaps ensures Evicted(after, key, Delta) + Evicted(after, key, Lifecycle) > 0 {
        assert Evicted(after, key, Delta) == Evicted(inner, key, Delta);
      }
    }
  }

  /** Removing an event keeps every query complete above the floor its widened gap reports. */
  lemma RemoveIsComplete(
    history: seq<SequencedEvent>, inner: Inner, position: nat, query: Query, floor: Option<Sequence>)
    requires position < |inner.events| && GapsReal(inner) && Complete(history, inner, query, floor)
    ensures Complete(history, RemoveAt(inner, position), query, floor)
  {
    var event, after := inner.events[position], RemoveAt(inner, position);
    if Covers(after.gaps, query, floor) {
      assert Covers(inner.gaps, query, floor) by {
        forall key <- inner.gaps | query.thread.None? || key == query.thread
          ensures floor.Some? && inner.gaps[key].beforeSequence.value <= floor.value
        {
          assert key in after.gaps;
        }
      }
      assert event.threadId in after.gaps;
      FilterWithout(inner.events, position, Wanted(query, floor));
    }
  }

  lemma RemoveKeepsGapsReal(inner: Inner, position: nat)
    requires position < |inner.events| && GapsReal(inner)
    ensures GapsReal(RemoveAt(inner, position))
  {
    var after := RemoveAt(inner, position);
    forall key <- after.gaps
      ensures after.gaps[key].beforeSequence.Some? && Evicted(after, key, Delta) + Evicted(after, key, Lifecycle) > 0
    {
      if key != inner.events[position].threadId {
        assert key in inner.gaps && Evicted(after, key, Delta) == Evicted(inner, key, Delta);
      }
    }
  }

  /** Oldest of its key and plane. */
  ghost predicate IsOldest(events: seq<SequencedEvent>, position: nat)
    requires position < |events|
  {
    forall i :: 0 <= i < position ==>
      !(events[i].threadId == events[position].threadId && events[i].plane == events[position].plane)
  }

  lemma RemoveIsCounted(inner: Inner, position: nat, key: Option<string>, plane: Plane)
    requires position < |inner.events|
    ensures Evicted(RemoveAt(inner, position), key, plane) ==
            Evicted(inner, key, plane) + (if OnKey(key, plane)(inner.events[position]) then 1 else 0)
  {
  }

  /** The oldest event of a kind is the first one its filter keeps. */
  lemma OldestIsFirst<T>(s: seq<T>, i: nat, p: T -> bool)
    requires i < |s| && p(s[i]) && forall x <- s[..i] :: !p(x)
    ensures Filter(s, p) != [] && Filter(Without(s, i), p) == Filter(s, p)[1..]
  {
    FilterWithout(s, i, p);
    FilterNone(s[..i], p);
  }

  lemma TailOfSuffix<T>(part: seq<T>, all: seq<T>, n: nat)
    requires n <= |all| && part == all[n..] && part != []
    ensures n < |all| && part[1..] == all[n + 1..]
  {
  }

  lemma RemoveOldestConserves(
    history: seq<SequencedEvent>, inner: Inner, position: nat, key: Option<string>, plane: Plane)
    requires position < |inner.events| && IsOldest(inner.events, position)
    requires Conserved(history, inner, key, plane)
    ensures Conserved(history, RemoveAt(inner, position), key, plane)
  {
    var p := OnKey(key, plane);
    var all, n := Filter(history, p), Evicted(inner, key, plane);
    RemoveIsCounted(inner, position, key, plane);
    if p(inner.events[position]) {
      OldestIsFirst(inner.events, position, p);
      TailOfSuffix(Filter(inner.events, p), all, n);
    } else {
      FilterWithout(inner.events, position, p);
    }
  }

  lemma RemoveOldestIsFaithful(history: seq<SequencedEvent>, inner: Inner, position: nat)
    requires Faithful(history, inner) && position < |inner.events| && IsOldest(inner.events, position)
    ensures Faithful(history, RemoveAt(inner, position))
  {
    var after := RemoveAt(inner, position);
    forall key, plane ensures Conserved(history, after, key, plane) {
      assert Conserved(history, inner, key, plane);
      RemoveOldestConserves(history, inner, position, key, plane);
    }
    forall query, floor ensures Complete(history, after, query, floor) {
      assert Complete(history, inner, query, floor);
      RemoveIsComplete(history, inner, position, query, floor);
    }
    RemoveKeepsGapsReal(inner, position);
  }

  lemma {:induction false} AgeOutIsFaithful(history: seq<SequencedEvent>, inner: Inner, cutoff: nat)
    requires Faithful(history, inner)
    ensures Faithful(history, AgeOut(inner, cutoff))
    decreases |inner.events|
  {
    if inner.events != [] && inner.events[0].monotonicMs < cutoff {
      RemoveOldestIsFaithful(history, inner, 0);
      AgeOutIsFaithful(history, RemoveAt(inner, 0), cutoff);
    }
  }

  lemma {:induction false} EvictOverIsFaithful(
    history: seq<SequencedEvent>, inner: Inner, config: Config, key: Option<string>)
    requires Accounted(inner) && Faithful(history, inner)
    ensures Faithful(history, EvictOver(inner, config, key))
    decreases |inner.events|
  {
    if OverCap(inner, config, key) {
      EvictionEnabled(inner, config, key);
      var over := OverThread(inner, config, key);
      DeltaPositionIsFirst(inner.events, over);
      RemoveOldestIsFaithful(history, inner, EvictPosition(inner.events, over));
      EvictOverIsFaithful(history, RemoveAt(inner, EvictPosition(inner.events, over)), config, key);
    }
  }

  /**
   Conservation and honest gaps for `record`: per key and plane the store holds the newest
   recorded events and the gap counts the rest, and queries are complete above the reported gap.
   */
  lemma RecordIsFaithful(history: seq<SequencedEvent>, inner: Inner, config: Config, event: SequencedEvent)
    requires Accounted(inner) && Faithful(history, inner)
    ensures Faithful(history + [event], Record(inner, config, event))
  {
    var cutoff := SaturatingSub(event.monotonicMs, config.retentionMs);
    PushKeepsAccounts(inner, event);
    AgeOutKeepsAccounts(Push(inner, event), cutoff);
    PushIsFaithful(history, inner, event);
    AgeOutIsFaithful(history + [event], Push(inner, event), cutoff);
    EvictOverIsFaithful(history + [event], AgeOut(Push(inner, event), cutoff), config, event.threadId);
  }

  // ---------------------------------------------------------------- idle sweep

  function NotIdleDelta(idle: seq<string>): SequencedEvent -> bool {
    (e: SequencedEvent) => !IsIdleDelta(e, idle)
  }

  /** The sweep removes exactly the deltas of idle threads and keeps the rest in order. */
  lemma {:induction false} SweepRemovesIdleDeltas(inner: Inner, idle: seq<string>, position: nat)
    requires position <= |inner.events|
    ensures EvictIdle(inner, idle, position).events ==
            Filter(inner.events[..position], NotIdleDelta(idle)) + inner.events[position..]
    decreases position
  {
    if position > 0 {
      var k := position - 1;
      FilterPush(inner.events[..k], inner.events[k], NotIdleDelta(idle));
      assert inner.events[..position] == inner.events[..k] + [inner.events[k]];
      if IsIdleDelta(inner.events[k], idle) {
        var next := RemoveAt(inner, k);
        SweepRemovesIdleDeltas(next, idle, k);
        assert next.events[..k] == inner.events[..k] && next.events[k..] == inner.events[position..];
        assert Filter(inner.events[..position], NotIdleDelta(idle)) == Filter(inner.events[..k], NotIdleDelta(idle));
      } else {
        SweepRemovesIdleDeltas(inner, idle, k);
        assert inner.events[k..] == [inner.events[k]] + inner.events[position..];
      }
    }
  }

  /** In plain terms: what leaves is the deltas of the named threads. */
  lemma SweepMembers(inner: Inner, idle: seq<string>, e: SequencedEvent)
    ensures e in EvictIdle(inner, idle, |inner.events|).events <==>
            e in inner.events && !(e.plane == Delta && exists id <- idle :: e.threadId == Some(id))
  {
    SweepRemovesIdleDeltas(inner, idle, |inner.events|);
    assert inner.events[..|inner.events|] == inner.events;
    FilterMembers(inner.events, NotIdleDelta(idle));
  }

  lemma {:induction false} SweepKeepsLedgers(inner: Inner, idle: seq<string>, position: nat)
    requires position <= |inner.events| && Accounted(inner)
    ensures var after := EvictIdle(inner, idle, position);
            && Accounted(after) && after.bytes <= inner.bytes
            && (forall id :: ThreadBytes(after, id) <= ThreadBytes(inner, id))
    decreases position
  {
    if position > 0 {
      if IsIdleDelta(inner.events[position - 1], idle) {
        RemoveIsExact(inner, position - 1);
        SweepKeepsLedgers(RemoveAt(inner, position - 1), idle, position - 1);
      } else {
        SweepKeepsLedgers(inner, idle, position - 1);
      }
    }
  }

  lemma {:induction false} SweepStaysComplete(
    history: seq<SequencedEvent>, inner: Inner, idle: seq<string>, position: nat, query: Query, floor: Option<Sequence>)
    requires position <= |inner.events| && GapsReal(inner) && Complete(history, inner, query, floor)
    ensures GapsReal(EvictIdle(inner, idle, position))
    ensures Complete(history, EvictIdle(inner, idle, position), query, floor)
    decreases position
  {
    if position > 0 {
      var k := position - 1;
      if IsIdleDelta(inner.events[k], idle) {
        RemoveKeepsGapsReal(inner, k);
        RemoveIsComplete(history, inner, k, query, floor);
        SweepStaysComplete(history, RemoveAt(inner, k), idle, k, query, floor);
      } else {
        SweepStaysComplete(history, inner, idle, k, query, floor);
      }
    }
  }

  /** What left the queue of a key and plane was counted in its gap. */
  lemma {:induction false} SweepCountsLosses(
    inner: Inner, idle: seq<string>, position: nat, key: Option<string>, plane: Plane)
    requires position <= |inner.events|
    ensures var after := EvictIdle(inner, idle, position);
            |Filter(inner.events, OnKey(key, plane))| + Evicted(inner, key, plane) ==
            |Filter(after.events, OnKey(key, plane))| + Evicted(after, key, plane)
    decreases position
  {
    if position > 0 {
      var k := position - 1;
      if IsIdleDelta(inner.events[k], idle) {
        FilterWithout(inner.events, k, OnKey(key, plane));
        SweepCountsLosses(RemoveAt(inner, k), idle, k, key, plane);
      } else {
        SweepCountsLosses(inner, idle, k, key, plane);
      }
    }
  }

  lemma FilterFilter(s: seq<SequencedEvent>, idle: seq<string>, key: Option<string>, plane: Plane)
    ensures Filter(Filter(s, NotIdleDelta(idle)), OnKey(key, plane)) ==
            if plane == Delta && key.Some? && key.value in idle then [] else Filter(s, OnKey(key, plane))
  {
    if plane == Delta && key.Some? && key.value in idle {
      FilterExcluded(s, NotIdleDelta(idle), OnKey(key, plane));
    } else {
      FilterImplied(s, NotIdleDelta(idle), OnKey(key, plane));
    }
  }

  lemma SweepIsFaithful(history: seq<SequencedEvent>, inner: Inner, idle: seq<string>)
    requires Accounted(inner) && Faithful(history, inner)
    ensures Faithful(history, EvictIdle(inner, idle, |inner.events|))
  {
    var after := EvictIdle(inner, idle, |inner.events|);
    SweepRemovesIdleDeltas(inner, idle, |inner.events|);
    assert inner.events[..|inner.events|] == inner.events;
    assert after.events == Filter(inner.events, NotIdleDelta(idle));
    forall key, plane ensures Conserved(history, after, key, plane) {
      assert Conserved(history, inner, key, plane);
      SweepCountsLosses(inner, idle, |inner.events|, key, plane);
      FilterFilter(inner.events, idle, key, plane);
    }
    assert Complete(history, inner, BySequence(None, 0, None), None);
    SweepStaysComplete(history, inner, idle, |inner.events|, BySequence(None, 0, None), None);
    forall query, floor ensures Complete(history, after, query, floor) {
      assert Complete(history, inner, query, floor);
      SweepStaysComplete(history, inner, idle, |inner.events|, query, floor);
    }
  }

  /** The whole sweep keeps ledgers, caps, conservation and gaps, and leaves what is not an idle delta. */
  lemma SweepKeepsStore(history: seq<SequencedEvent>, inner: Inner, config: Config, idle: seq<string>)
    requires Accounted(inner) && WithinCaps(inner, config) && Faithful(history, inner)
    ensures var after := EvictIdle(inner, idle, |inner.events|);
            && Accounted(after) && WithinCaps(after, config) && Faithful(history, after)
            && after.events == Filter(inner.events, NotIdleDelta(idle))
  {
    var after := EvictIdle(inner, idle, |inner.events|);
    SweepIsFaithful(history, inner, idle);
    SweepRemovesIdleDeltas(inner, idle, |inner.events|);
    SweepKeepsLedgers(inner, idle, |inner.events|);
    assert inner.events[..|inner.events|] == inner.events;
    forall id ensures !IsOver(after, config, id) {
      assert !IsOver(inner, config, id);
    }
  }

  // ---------------------------------------------------------------- the store object

  datatype QueryResult = QueryResult(events: seq<SequencedEvent>, gap: Option<RetentionGap>)

  class EventStore {
    const config: Config
    var events: seq<SequencedEvent>
    var bytes: nat
    var threadBytes: map<string, nat>
    var gaps: Gaps
    ghost var history: seq<SequencedEvent>

    ghost function State(): Inner
      reads this
    {
      Inner(events, bytes, threadBytes, gaps)
    }

    ghost predicate Valid()
      reads this
    {
      Accounted(State()) && WithinCaps(State(), config) && Faithful(history, State())
    }

    constructor (config: Config)
      ensures Valid() && this.config == config && State() == EMPTY && history == []
    {
      this.config := config;
      events, bytes, threadBytes, gaps, history := [], 0, map[], map[], [];
    }

    method RemoveEvent(position: nat)
      requires position < |events|
      modifies this`events, this`bytes, this`threadBytes, this`gaps
      ensures State() == RemoveAt(old(State()), position)
    {
      var event := events[position];
      events := events[..position] + events[position + 1..];
      var size := event.encodedLen;
      bytes := SaturatingSub(bytes, size);
      if event.threadId.Some? {
        var id := event.threadId.value;
        var held := if id in threadBytes then threadBytes[id] else 0;
        threadBytes := threadBytes[id := SaturatingSub(held, size)];
      }
      var gap := if event.threadId in gaps then gaps[event.threadId] else NO_GAP;
      gap := gap.(beforeSequence := Some(
        if gap.beforeSequence.Some? && gap.beforeSequence.value > event.sequence
        then gap.beforeSequence.value else event.sequence));
      if event.plane == Delta {
        gap := gap.(summarizedDeltaEvents := gap.summarizedDeltaEvents + 1);
      } else {
        gap := gap.(evictedLifecycleEvents := gap.evictedLifecycleEvents + 1);
      }
      gaps := gaps[event.threadId := gap];
    }

    method PruneAged(cutoff: nat)
      modifies this`events, this`bytes, this`threadBytes, this`gaps
      ensures State() == AgeOut(old(State()), cutoff)
    {
      while events != [] && events[0].monotonicMs < cutoff
        invariant AgeOut(State(), cutoff) == AgeOut(old(State()), cutoff)
        decreases |events|
      {
        RemoveEvent(0);
      }
    }

    /** `HashMap::iter().find`: any thread over its cap, in whatever order the map yields them. */
    method FindOver() returns (over: Option<string>)
      ensures over.Some? ==> IsOver(State(), config, over.value)
      ensures over.None? ==> forall id :: !IsOver(State(), config, id)
    {
      var overs := set id | id in threadBytes && threadBytes[id] > config.perThreadBytes;
      if overs == {} {
        over := None;
        forall id ensures !IsOver(State(), config, id) {
          assert id !in overs;
        }
      } else {
        var id :| id in overs;
        over := Some(id);
      }
    }

    method FindDelta(over: Option<string>) returns (position: nat)
      ensures position == EvictPosition(events, over)
    {
      position := 0;
      while position < |events| && !IsDeltaOf(events[position], over)
        invariant position <= |events|
        invariant DeltaPosition(events, over) ==
                  match DeltaPosition(events[position..], over) case None => None case Some(i) => Some(i + position)
      {
        assert events[position..][1..] == events[position + 1..];
        position := position + 1;
      }
      if position == |events| {
        position := 0;
      }
    }

    /** The cap loop. Whatever thread `FindOver` picks, the result is the one `EvictOver` describes. */
    method PruneCaps(ghost key: Option<string>)
      requires Accounted(State()) && OnlyOver(State(), config, key)
      modifies this`events, this`bytes, this`threadBytes, this`gaps
      ensures State() == EvictOver(old(State()), config, key)
    {
      while true
        invariant Accounted(State()) && OnlyOver(State(), config, key)
        invariant EvictOver(State(), config, key) == EvictOver(old(State()), config, key)
        decreases |events|
      {
        var overGlobal := bytes > config.globalBytes;
        var over := FindOver();
        assert over == OverThread(State(), config, key);
        if !overGlobal && over.None? {
          return;
        }
        EvictionEnabled(State(), config, key);
        var position := FindDelta(over);
        RemoveIsExact(State(), position);
        RemoveEvent(position);
      }
    }

    method Append(event: SequencedEvent)
      modifies this`events, this`bytes, this`threadBytes, this`history
      ensures State() == Push(old(State()), event) && history == old(history) + [event]
    {
      bytes := bytes + event.encodedLen;
      if event.threadId.Some? {
        var id := event.threadId.value;
        threadBytes := threadBytes[id := (if id in threadBytes then threadBytes[id] else 0) + event.encodedLen];
      }
      events := events + [event];
      history := history + [event];
    }

    method RecordEvent(event: SequencedEvent)
      requires Valid()
      modifies this
      ensures Valid() && history == old(history) + [event]
      ensures State() == Record(old(State()), config, event)
    {
      ghost var before := State();
      ghost var cutoff := SaturatingSub(event.monotonicMs, config.retentionMs);
      RecordKeepsLedgersAndCaps(before, config, event);
      RecordIsFaithful(history, before, config, event);
      OnlyRecordedKeyIsOver(before, config, event, cutoff);
      PushKeepsAccounts(before, event);
      AgeOutKeepsAccounts(Push(before, event), cutoff);
      Append(event);
      var newest := events[|events| - 1].monotonicMs;
      PruneAged(SaturatingSub(newest, config.retentionMs));
      PruneCaps(event.threadId);
    }

    /** Records the anchor unless a genuine start of the same turn is still retained. */
    method RecordReconstructedActiveTurn(
      sequence: Sequence, unixMs: U64, elapsedMs: U64, threadId: string, turnId: string, encodedLen: nat)
      returns (recorded: bool)
      requires Valid()
      modifies this
      ensures Valid()
      ensures recorded <==> forall e <- old(events) :: !IsGenuineStart(e, threadId, turnId)
      ensures !recorded <==> exists e <- old(events) ::
                !e.reconstructed && e.Method() == Some("turn/started") &&
                e.threadId == Some(threadId) && e.turnId == Some(turnId)
      ensures !recorded ==> State() == old(State()) && history == old(history)
      ensures recorded ==>
                var anchor := ReconstructedActiveTurn(sequence, unixMs, elapsedMs, threadId, turnId, encodedLen);
                State() == Record(old(State()), config, anchor) && history == old(history) + [anchor]
    {
      if exists e <- events :: IsGenuineStart(e, threadId, turnId) {
        return false;
      }
      RecordEvent(ReconstructedActiveTurn(sequence, unixMs, elapsedMs, threadId, turnId, encodedLen));
      recorded := true;
    }

    method RunQuery(query: Query) returns (result: QueryResult)
      requires Valid()
      ensures result.gap == if query.thread in gaps then Some(gaps[query.thread]) else None
      ensures result.events == Filter(events, Wanted(query, None))
      ensures forall e :: e in result.events <==> e in events && Selects(query, e)
      ensures query.thread.Some? && result.gap.None? ==> result.events == Filter(history, Wanted(query, None))
      ensures query.thread.Some? && result.gap.Some? ==>
                var floor := result.gap.value.beforeSequence;
                floor.Some? && Filter(events, Wanted(query, floor)) == Filter(history, Wanted(query, floor))
    {
      result := QueryResult(Filter(events, Wanted(query, None)),
                            if query.thread in gaps then Some(gaps[query.thread]) else None);
      ghost var floor := if result.gap.Some? then result.gap.value.beforeSequence else None;
      assert Complete(history, State(), query, floor);
      SelectedIff(events, query);
    }

    method QuerySequence(thread: Option<string>, after: Sequence, through: Option<Sequence>)
      returns (result: QueryResult)
      requires Valid()
      ensures thread.Some? && result.gap.None? ==>
                result.events == Filter(history, Wanted(BySequence(thread, after, through), None))
      ensures result.events == Filter(events, Wanted(BySequence(thread, after, through), None))
      ensures forall e :: e in result.events <==> e in events && InSequenceRange(e, thread, after, through)
    {
      result := RunQuery(BySequence(thread, after, through));
    }

    method QueryTime(thread: Option<string>, startUnixMs: U64, endUnixMs: U64) returns (result: QueryResult)
      requires Valid()
      ensures thread.Some? && result.gap.None? ==>
                result.events ==
                Filter(history, Wanted(ByTime(thread, startUnixMs, endUnixMs, config.emittedAtToleranceMs), None))
      ensures result.events ==
              Filter(events, Wanted(ByTime(thread, startUnixMs, endUnixMs, config.emittedAtToleranceMs), None))
      ensures forall e :: e in result.events <==>
                e in events && InTimeRange(e, thread, startUnixMs, endUnixMs, config.emittedAtToleranceMs)
    {
      result := RunQuery(ByTime(thread, startUnixMs, endUnixMs, config.emittedAtToleranceMs));
    }

    method EvictIdleContent(idle: seq<string>)
      requires Valid()
      modifies this`events, this`bytes, this`threadBytes, this`gaps
      ensures Valid() && State() == EvictIdle(old(State()), idle, |old(events)|)
      ensures events == Filter(old(events), NotIdleDelta(idle))
    {
      SweepKeepsStore(history, State(), config, idle);
      SweepDown(idle);
    }

    /** The loop of the sweep, from the back of the queue to the front. */
    method SweepDown(idle: seq<string>)
      modifies this`events, this`bytes, this`threadBytes, this`gaps
      ensures State() == EvictIdle(old(State()), idle, |old(events)|)
    {
      ghost var before := State();
      var position := |events|;
      while position > 0
        invariant 0 <= position <= |events|
        invariant EvictIdle(State(), idle, position) == EvictIdle(before, idle, |before.events|)
      {
        position := position - 1;
        var remove := events[position].plane == Delta && events[position].threadId.Some? &&
                      events[position].threadId.value in idle;
        if remove {
          RemoveEvent(position);
        }
      }
    }
  }

  // ---------------------------------------------------------------- whole runs

  datatype StoreOp =
    | RecordOp(event: SequencedEvent)
    | AnchorOp(sequence: Sequence, unixMs: U64, elapsedMs: U64, threadId: string, turnId: string, encodedLen: nat)
    | SweepOp(idle: seq<string>)

  /** The event an operation records, if any. */
  ghost function Recorded(inner: Inner, op: StoreOp): Option<SequencedEvent> {
    match op
    case RecordOp(event) => Some(event)
    case AnchorOp(sequence, unixMs, elapsedMs, threadId, turnId, encodedLen) =>
      if exists e <- inner.events :: IsGenuineStart(e, threadId, turnId) then None
      else Some(ReconstructedActiveTurn(sequence, unixMs, elapsedMs, threadId, turnId, encodedLen))
    case SweepOp(_) => None
  }

  datatype Run = Run(inner: Inner, history: seq<SequencedEvent>)

  ghost predicate RunInv(run: Run, config: Config) {
    Accounted(run.inner) && WithinCaps(run.inner, config) && Faithful(run.history, run.inner)
  }

  ghost function StepStore(run: Run, config: Config, op: StoreOp): Run
    requires RunInv(run, config)
  {
    match Recorded(run.inner, op)
    case Some(event) => Run(Record(run.inner, config, event), run.history + [event])
    case None =>
      if op.SweepOp? then Run(EvictIdle(run.inner, op.idle, |run.inner.events|), run.history) else run
  }

  lemma StepKeepsStore(run: Run, config: Config, op: StoreOp)
    requires RunInv(run, config)
    ensures RunInv(StepStore(run, config, op), config)
  {
    match Recorded(run.inner, op)
    case Some(event) =>
      RecordKeepsLedgersAndCaps(run.inner, config, event);
      RecordIsFaithful(run.history, run.inner, config, event);
    case None =>
      if op.SweepOp? {
        SweepKeepsStore(run.history, run.inner, config, op.idle);
      }
  }

  ghost function RunStore(config: Config, ops: seq<StoreOp>): (run: Run)
    ensures RunInv(run, config)
  {
    if ops == [] then Run(EMPTY, [])
    else
      var before := RunStore(config, ops[..|ops| - 1]);
      StepKeepsStore(before, config, ops[|ops| - 1]);
      StepStore(before, config, ops[|ops| - 1])
  }

  lemma RunStoreSnoc(config: Config, ops: seq<StoreOp>, op: StoreOp)
    ensures RunStore(config, ops + [op]) == StepStore(RunStore(config, ops), config, op)
  {
    assert (ops + [op])[..|ops|] == ops;
  }

  /** Over any run, each key's recorded events of a plane are its retained ones plus the counted losses. */
  lemma StoreConserves(config: Config, ops: seq<StoreOp>, key: Option<string>, plane: Plane)
    ensures var run := RunStore(config, ops);
            |Filter(run.history, OnKey(key, plane))| ==
            |Filter(run.inner.events, OnKey(key, plane))| + Evicted(run.inner, key, plane)
  {
    assert Conserved(RunStore(config, ops).history, RunStore(config, ops).inner, key, plane);
  }

  /** Everything retained was recorded, in an order no more skewed, and lies in the age window widened by the skew. */
  ghost predicate InWindow(run: Run, config: Config, skew: nat) {
    && Skewed(run.inner.events, skew)
    && (forall e <- run.inner.events :: e in run.history)
    && (run.history != [] ==>
          var newest := run.history[|run.history| - 1].monotonicMs;
          NotOlder(run.inner.events, SaturatingSub(newest, config.retentionMs), skew))
  }

  lemma SweepStaysInWindow(run: Run, config: Config, idle: seq<string>, skew: nat)
    requires InWindow(run, config, skew)
    ensures InWindow(run.(inner := EvictIdle(run.inner, idle, |run.inner.events|)), config, skew)
  {
    var inv := (i: Inner) => IsPart(i.events, run.inner.events, skew);
    PartStays(run.inner.events, skew, inv);
    SweepKeeps(inv, run.inner, idle, |run.inner.events|);
  }

  lemma RecordStaysInWindow(run: Run, config: Config, event: SequencedEvent, skew: nat)
    requires Accounted(run.inner) && InWindow(run, config, skew) && Skewed(run.history + [event], skew)
    ensures InWindow(Run(Record(run.inner, config, event), run.history + [event]), config, skew)
  {
    var after := run.history + [event];
    forall i | 0 <= i < |run.inner.events| ensures run.inner.events[i].monotonicMs <= event.monotonicMs + skew {
      assert run.inner.events[i] in run.inner.events;
      var k :| 0 <= k < |run.history| && run.history[k] == run.inner.events[i];
      assert after[k].monotonicMs <= after[|run.history|].monotonicMs + skew;
    }
    RecordKeepsWindow(run.inner, config, event, skew);
  }

  lemma StepStaysInWindow(run: Run, config: Config, op: StoreOp, skew: nat)
    requires RunInv(run, config) && InWindow(run, config, skew)
    requires Skewed(StepStore(run, config, op).history, skew)
    ensures InWindow(StepStore(run, config, op), config, skew)
  {
    match Recorded(run.inner, op)
    case Some(event) => RecordStaysInWindow(run, config, event, skew);
    case None =>
      if op.SweepOp? {
        SweepStaysInWindow(run, config, op.idle, skew);
      }
  }

  lemma {:induction false} RunStaysInWindow(config: Config, ops: seq<StoreOp>, skew: nat)
    requires Skewed(RunStore(config, ops).history, skew)
    ensures InWindow(RunStore(config, ops), config, skew)
  {
    if ops != [] {
      var before, after := RunStore(config, ops[..|ops| - 1]), RunStore(config, ops);
      forall i, j | 0 <= i < j < |before.history|
        ensures before.history[i].monotonicMs <= before.history[j].monotonicMs + skew
      {
        assert after.history[i] == before.history[i] && after.history[j] == before.history[j];
      }
      RunStaysInWindow(config, ops[..|ops| - 1], skew);
      StepStaysInWindow(before, config, ops[|ops| - 1], skew);
    }
  }

  lemma RunStaysInSkew(config: Config, ops: seq<StoreOp>)
    ensures InWindow(RunStore(config, ops), config, SkewOf(RunStore(config, ops).history))
  {
    var history := RunStore(config, ops).history;
    SkewOfBounds(history);
    RunStaysInWindow(config, ops, SkewOf(history));
  }

  lemma SkewIsZeroIf(history: seq<SequencedEvent>)
    ensures Skewed(history, 0) ==> SkewOf(history) == 0
  {
    if Skewed(history, 0) {
      SortedHasNoSkew(history);
    }
  }

  /**
   Over any run the store holds only the age window before the last recorded event, widened by as much
   as the recorded clocks ran backwards: not at all when they never did.
   */
  lemma {:induction false} StoreStaysInWindow(config: Config, ops: seq<StoreOp>)
    ensures var run := RunStore(config, ops);
            run.history != [] ==>
              var newest := run.history[|run.history| - 1].monotonicMs;
              NotOlder(run.inner.events, SaturatingSub(newest, config.retentionMs), SkewOf(run.history))
    ensures var run := RunStore(config, ops);
            Skewed(run.history, 0) ==> SkewOf(run.history) == 0
  {
    RunStaysInSkew(config, ops);
    SkewIsZeroIf(RunStore(config, ops).history);
  }

  /**
   A query over all threads reports only the gap of events without a thread, so its silence says
   nothing about the others. It returns the whole history exactly when no key has lost anything.
   */
  lemma UnkeyedQueryCompleteIffNoLoss(config: Config, ops: seq<StoreOp>)
    ensures var run := RunStore(config, ops);
            var all := ByTime(None, 0, U64_MAX, 0);
            Filter(run.inner.events, Wanted(all, None)) == Filter(run.history, Wanted(all, None)) <==>
            run.inner.gaps == map[]
  {
    var run := RunStore(config, ops);
    var all := ByTime(None, 0, U64_MAX, 0);
    FilterAll(run.inner.events, all);
    FilterAll(run.history, all);
    assert Complete(run.history, run.inner, all, None);
    if run.inner.gaps != map[] {
      var key :| key in run.inner.gaps;
      var plane := if Evicted(run.inner, key, Delta) > 0 then Delta else Lifecycle;
      assert |Filter(run.inner.events, OnKey(key, plane))| < |Filter(run.history, OnKey(key, plane))| by {
        assert Conserved(run.history, run.inner, key, plane);
      }
    }
  }

  lemma {:induction false} FilterAll(s: seq<SequencedEvent>, all: Query)
    requires all == ByTime(None, 0, U64_MAX, 0)
    ensures Filter(s, Wanted(all, None)) == s
  {
    if s != [] {
      FilterAll(s[1..], all);
    }
  }

  // ---------------------------------------------------------------- what every removal keeps

  /** Ageing, eviction and the sweep do nothing but remove events one at a time. */
  ghost predicate KeptByRemoval(inv: Inner -> bool) {
    forall i: Inner, p: nat :: p < |i.events| && inv(i) ==> inv(RemoveAt(i, p))
  }

  lemma {:induction false} AgeOutKeeps(inv: Inner -> bool, inner: Inner, cutoff: nat)
    requires KeptByRemoval(inv) && inv(inner)
    ensures inv(AgeOut(inner, cutoff))
    decreases |inner.events|
  {
    if inner.events != [] && inner.events[0].monotonicMs < cutoff {
      AgeOutKeeps(inv, RemoveAt(inner, 0), cutoff);
    }
  }

  lemma {:induction false} EvictOverKeeps(inv: Inner -> bool, inner: Inner, config: Config, key: Option<string>)
    requires KeptByRemoval(inv) && inv(inner) && Accounted(inner)
    ensures inv(EvictOver(inner, config, key))
    decreases |inner.events|
  {
    if OverCap(inner, config, key) {
      EvictionEnabled(inner, config, key);
      var position := EvictPosition(inner.events, OverThread(inner, config, key));
      EvictOverKeeps(inv, RemoveAt(inner, position), config, key);
    }
  }

  lemma {:induction false} SweepKeeps(inv: Inner -> bool, inner: Inner, idle: seq<string>, position: nat)
    requires KeptByRemoval(inv) && inv(inner) && position <= |inner.events|
    ensures inv(EvictIdle(inner, idle, position))
    decreases position
  {
    if position > 0 {
      if IsIdleDelta(inner.events[position - 1], idle) {
        SweepKeeps(inv, RemoveAt(inner, position - 1), idle, position - 1);
      } else {
        SweepKeeps(inv, inner, idle, position - 1);
      }
    }
  }

  // ---------------------------------------------------------------- exactly what queries miss

  /** The events recorded and no longer retained. */
  ghost function Lost(history: seq<SequencedEvent>, events: seq<SequencedEvent>): multiset<SequencedEvent> {
    multiset(history) - multiset(events)
  }

  /** Filtering what is retained gives no more than filtering all, and as much only if it gives the same. */
  ghost predicate Tallied(history: seq<SequencedEvent>, events: seq<SequencedEvent>, p: SequencedEvent -> bool) {
    && |Filter(events, p)| <= |Filter(history, p)|
    && (|Filter(events, p)| == |Filter(history, p)| ==> Filter(events, p) == Filter(history, p))
  }

  lemma PushTallies(
    history: seq<SequencedEvent>, events: seq<SequencedEvent>, event: SequencedEvent, p: SequencedEvent -> bool)
    requires Tallied(history, events, p)
    ensures Tallied(history + [event], events + [event], p)
  {
    FilterPush(history, event, p);
    FilterPush(events, event, p);
  }

  lemma RemoveTallies(
    history: seq<SequencedEvent>, events: seq<SequencedEvent>, position: nat, p: SequencedEvent -> bool)
    requires Tallied(history, events, p) && position < |events|
    ensures Tallied(history, Without(events, position), p)
  {
    FilterWithout(events, position, p);
  }

  lemma TalliesStay(history: seq<SequencedEvent>, p: SequencedEvent -> bool, inv: Inner -> bool)
    requires forall i :: inv(i) <==> Tallied(history, i.events, p)
    ensures KeptByRemoval(inv)
  {
    forall i: Inner, q: nat | q < |i.events| && inv(i) ensures inv(RemoveAt(i, q)) {
      RemoveTallies(history, i.events, q, p);
    }
  }

  lemma RecordTallies(
    history: seq<SequencedEvent>, inner: Inner, config: Config, event: SequencedEvent, p: SequencedEvent -> bool)
    requires Accounted(inner) && Tallied(history, inner.events, p)
    ensures Tallied(history + [event], Record(inner, config, event).events, p)
  {
    var cutoff := SaturatingSub(event.monotonicMs, config.retentionMs);
    PushKeepsAccounts(inner, event);
    AgeOutKeepsAccounts(Push(inner, event), cutoff);
    PushTallies(history, inner.events, event, p);
    var inv := (i: Inner) => Tallied(history + [event], i.events, p);
    TalliesStay(history + [event], p, inv);
    AgeOutKeeps(inv, Push(inner, event), cutoff);
    EvictOverKeeps(inv, AgeOut(Push(inner, event), cutoff), config, event.threadId);
  }

  lemma {:induction false} RunTallies(config: Config, ops: seq<StoreOp>, p: SequencedEvent -> bool)
    ensures var run := RunStore(config, ops); Tallied(run.history, run.inner.events, p)
  {
    if ops != [] {
      var before, op := RunStore(config, ops[..|ops| - 1]), ops[|ops| - 1];
      RunTallies(config, ops[..|ops| - 1], p);
      match Recorded(before.inner, op)
      case Some(event) => RecordTallies(before.history, before.inner, config, event, p);
      case None =>
        if op.SweepOp? {
          var inv := (i: Inner) => Tallied(before.history, i.events, p);
          TalliesStay(before.history, p, inv);
          SweepKeeps(inv, before.inner, op.idle, |before.inner.events|);
        }
    }
  }

  function Is(event: SequencedEvent): SequencedEvent -> bool {
    (e: SequencedEvent) => e == event
  }

  /** Nothing is retained that was not recorded, and nothing more often. */
  lemma RetainedWasRecorded(config: Config, ops: seq<StoreOp>)
    ensures var run := RunStore(config, ops); multiset(run.inner.events) <= multiset(run.history)
  {
    var run := RunStore(config, ops);
    forall e ensures multiset(run.inner.events)[e] <= multiset(run.history)[e] {
      RunTallies(config, ops, Is(e));
      FilterOne(run.inner.events, Is(e), e);
      FilterOne(run.history, Is(e), e);
    }
  }

  lemma FilterKeepsPart(part: seq<SequencedEvent>, whole: seq<SequencedEvent>, p: SequencedEvent -> bool)
    requires multiset(part) <= multiset(whole)
    ensures multiset(Filter(part, p)) <= multiset(Filter(whole, p))
  {
    forall x ensures multiset(Filter(part, p))[x] <= multiset(Filter(whole, p))[x] {
      FilterCount(part, p, x);
      FilterCount(whole, p, x);
    }
  }

  lemma SameSizeIff(a: multiset<SequencedEvent>, b: multiset<SequencedEvent>)
    requires a <= b
    ensures |a| == |b| <==> forall x :: a[x] == b[x]
  {
    assert b == a + (b - a);
    if |a| == |b| {
      assert b - a == multiset{};
    }
    if forall x :: a[x] == b[x] {
      assert a == b;
    }
  }

  /** Of a part and the whole, as many elements pass if and only if none of those missing from the part does. */
  lemma FilterAllIff(part: seq<SequencedEvent>, whole: seq<SequencedEvent>, p: SequencedEvent -> bool)
    requires multiset(part) <= multiset(whole)
    ensures |Filter(part, p)| == |Filter(whole, p)| <==> forall x :: x in Lost(whole, part) ==> !p(x)
  {
    var a, b, missing := multiset(Filter(part, p)), multiset(Filter(whole, p)), Lost(whole, part);
    FilterKeepsPart(part, whole, p);
    SameSizeIff(a, b);
    forall x ensures a[x] == b[x] <==> !(x in missing && p(x)) {
      FilterCount(part, p, x);
      FilterCount(whole, p, x);
      assert multiset(part)[x] <= multiset(whole)[x];
    }
  }

  /** Over any run a query, for one thread or for all, is complete if and only if no lost event matches it. */
  lemma {:induction false} QueryIsCompleteIff(config: Config, ops: seq<StoreOp>, query: Query)
    ensures var run := RunStore(config, ops);
            Filter(run.inner.events, Wanted(query, None)) == Filter(run.history, Wanted(query, None)) <==>
            forall e :: e in Lost(run.history, run.inner.events) ==> !Selects(query, e)
  {
    var run, p := RunStore(config, ops), Wanted(query, None);
    RunTallies(config, ops, p);
    RetainedWasRecorded(config, ops);
    FilterAllIff(run.inner.events, run.history, p);
    forall e ensures p(e) <==> Selects(query, e) {
      MatchesIff(query, e);
    }
  }

  // ---------------------------------------------------------------- what a gap says

  /** Every gap names the newest lost event of its key, and every lost event has a gap. */
  ghost predicate GapsAreNewest(history: seq<SequencedEvent>, inner: Inner) {
    && multiset(inner.events) <= multiset(history)
    && (forall key <- inner.gaps :: NamesLost(history, inner, key))
    && (forall e :: e in Lost(history, inner.events) ==> IsBehindGap(inner.gaps, e))
  }

  ghost predicate NamesLost(history: seq<SequencedEvent>, inner: Inner, key: Option<string>)
    requires key in inner.gaps
  {
    exists e :: e in Lost(history, inner.events) && e.threadId == key &&
      inner.gaps[key].beforeSequence == Some(e.sequence)
  }

  ghost predicate IsBehindGap(gaps: Gaps, e: SequencedEvent) {
    && e.threadId in gaps && gaps[e.threadId].beforeSequence.Some?
    && e.sequence <= gaps[e.threadId].beforeSequence.value
  }

  lemma PushKeepsNewest(history: seq<SequencedEvent>, inner: Inner, event: SequencedEvent)
    requires GapsAreNewest(history, inner)
    ensures GapsAreNewest(history + [event], Push(inner, event))
  {
    var after := Push(inner, event);
    assert Lost(history + [event], after.events) == Lost(history, inner.events);
    forall key <- after.gaps ensures NamesLost(history + [event], after, key) {
      assert NamesLost(history, inner, key);
    }
  }

  lemma RemoveLoses(history: seq<SequencedEvent>, events: seq<SequencedEvent>, position: nat)
    requires multiset(events) <= multiset(history) && position < |events|
    ensures multiset(Without(events, position)) <= multiset(history)
    ensures Lost(history, Without(events, position)) == Lost(history, events) + multiset{events[position]}
  {
    var after := Without(events, position);
    assert events == events[..position] + [events[position]] + events[position + 1..];
    assert multiset(events) == multiset(after) + multiset{events[position]};
  }

  /** The widened gap names the removed event or the one it named before. */
  lemma RemoveNames(history: seq<SequencedEvent>, inner: Inner, position: nat, key: Option<string>)
    requires multiset(inner.events) <= multiset(history) && position < |inner.events|
    requires key in RemoveAt(inner, position).gaps && (key in inner.gaps ==> NamesLost(history, inner, key))
    ensures NamesLost(history, RemoveAt(inner, position), key)
  {
    var event, after := inner.events[position], RemoveAt(inner, position);
    RemoveLoses(history, inner.events, position);
    if key == event.threadId && after.gaps[key].beforeSequence == Some(event.sequence) {
      assert event in Lost(history, after.events);
    } else {
      var e :| e in Lost(history, inner.events) && e.threadId == key &&
        inner.gaps[key].beforeSequence == Some(e.sequence);
      assert e in Lost(history, after.events);
    }
  }

  /** It covers the removed event and every one it covered before. */
  lemma RemoveCovers(inner: Inner, position: nat, e: SequencedEvent)
    requires position < |inner.events| && (e == inner.events[position] || IsBehindGap(inner.gaps, e))
    ensures IsBehindGap(RemoveAt(inner, position).gaps, e)
  {
  }

  lemma RemoveKeepsNewest(history: seq<SequencedEvent>, inner: Inner, position: nat)
    requires GapsAreNewest(history, inner) && position < |inner.events|
    ensures GapsAreNewest(history, RemoveAt(inner, position))
  {
    var after := RemoveAt(inner, position);
    RemoveLoses(history, inner.events, position);
    forall key <- after.gaps ensures NamesLost(history, after, key) {
      RemoveNames(history, inner, position, key);
    }
    forall e | e in Lost(history, after.events) ensures IsBehindGap(after.gaps, e) {
      RemoveCovers(inner, position, e);
    }
  }

  lemma NewestStay(history: seq<SequencedEvent>, inv: Inner -> bool)
    requires forall i :: inv(i) <==> GapsAreNewest(history, i)
    ensures KeptByRemoval(inv)
  {
    forall i: Inner, q: nat | q < |i.events| && inv(i) ensures inv(RemoveAt(i, q)) {
      RemoveKeepsNewest(history, i, q);
    }
  }

  lemma RecordKeepsNewest(history: seq<SequencedEvent>, inner: Inner, config: Config, event: SequencedEvent)
    requires Accounted(inner) && GapsAreNewest(history, inner)
    ensures GapsAreNewest(history + [event], Record(inner, config, event))
  {
    var cutoff := SaturatingSub(event.monotonicMs, config.retentionMs);
    PushKeepsAccounts(inner, event);
    AgeOutKeepsAccounts(Push(inner, event), cutoff);
    PushKeepsNewest(history, inner, event);
    var inv := (i: Inner) => GapsAreNewest(history + [event], i);
    NewestStay(history + [event], inv);
    AgeOutKeeps(inv, Push(inner, event), cutoff);
    EvictOverKeeps(inv, AgeOut(Push(inner, event), cutoff), config, event.threadId);
  }

  lemma {:induction false} RunKeepsNewest(config: Config, ops: seq<StoreOp>)
    ensures var run := RunStore(config, ops); GapsAreNewest(run.history, run.inner)
  {
    if ops != [] {
      var before, op := RunStore(config, ops[..|ops| - 1]), ops[|ops| - 1];
      RunKeepsNewest(config, ops[..|ops| - 1]);
      match Recorded(before.inner, op)
      case Some(event) => RecordKeepsNewest(before.history, before.inner, config, event);
      case None =>
        if op.SweepOp? {
          var inv := (i: Inner) => GapsAreNewest(before.history, i);
          NewestStay(before.history, inv);
          SweepKeeps(inv, before.inner, op.idle, |before.inner.events|);
        }
    }
  }

  /**
   Over any run a key has a gap exactly when it has lost an event, and the gap names the highest number
   among the events it has lost.
   */
  lemma {:induction false} GapNamesNewestLost(config: Config, ops: seq<StoreOp>, key: Option<string>)
    ensures var run := RunStore(config, ops);
            var lost := Lost(run.history, run.inner.events);
            && (key in run.inner.gaps <==> exists e :: e in lost && e.threadId == key)
            && (key in run.inner.gaps ==>
                  && run.inner.gaps[key].beforeSequence.Some?
                  && (exists e :: e in lost && e.threadId == key &&
                        e.sequence == run.inner.gaps[key].beforeSequence.value)
                  && (forall e :: e in lost && e.threadId == key ==>
                        e.sequence <= run.inner.gaps[key].beforeSequence.value))
  {
    var run := RunStore(config, ops);
    RunKeepsNewest(config, ops);
    if key in run.inner.gaps {
      assert NamesLost(run.history, run.inner, key);
    }
    forall e | e in Lost(run.history, run.inner.events) ensures IsBehindGap(run.inner.gaps, e) {
    }
  }

  // ---------------------------------------------------------------- runs that show it

  lemma OneOp(config: Config, op: StoreOp)
    ensures RunStore(config, [op]) == StepStore(Run(EMPTY, []), config, op)
  {
    RunStoreSnoc(config, [], op);
    assert [] + [op] == [op];
  }

  /** An event larger than its thread's cap is all its record evicts from an empty store. */
  lemma OversizeIsEvicted(inner: Inner, config: Config, event: SequencedEvent)
    requires Accounted(inner) && inner.events == [event] && event.threadId.Some?
    requires event.encodedLen > config.perThreadBytes
    ensures EvictOver(inner, config, event.threadId) == RemoveAt(inner, 0)
    ensures RemoveAt(inner, 0).events == []
  {
    var key := event.threadId;
    assert ThreadBytes(inner, key.value) == ThreadTotal([event], key.value) == event.encodedLen by {
      assert [event] == [] + [event];
      ThreadTotalPush([], event, key.value);
    }
    EvictionEnabled(inner, config, key);
    RemoveIsExact(inner, 0);
    var none := RemoveAt(inner, 0);
    assert none.events == [];
    assert none.bytes == 0 && ThreadBytes(none, key.value) == ThreadTotal([], key.value) == 0;
  }

  /** The loss an all-threads query does not report: an event larger than its thread's cap. */
  lemma UnkeyedQueryHidesLoss(config: Config, event: SequencedEvent)
    requires event.threadId.Some? && event.encodedLen > config.perThreadBytes
    ensures var run := RunStore(config, [RecordOp(event)]);
            run.history == [event] && run.inner.events == [] && None !in run.inner.gaps
  {
    var pushed := Push(EMPTY, event);
    OneOp(config, RecordOp(event));
    PushKeepsAccounts(EMPTY, event);
    assert pushed.events == [event];
    assert AgeOut(pushed, SaturatingSub(event.monotonicMs, config.retentionMs)) == pushed;
    OversizeIsEvicted(pushed, config, event);
  }

  /**
   A thread without deltas goes over its cap, and the only event of another thread, well within its
   own, is evicted, although the store as a whole was never over its cap.
   */
  lemma BystanderIsEvicted(config: Config, first: SequencedEvent, second: SequencedEvent)
    requires first.threadId.Some? && second.threadId.Some? && first.threadId != second.threadId
    requires second.plane == Lifecycle
    requires first.encodedLen <= config.perThreadBytes < second.encodedLen
    requires first.encodedLen + second.encodedLen <= config.globalBytes
    requires SaturatingSub(second.monotonicMs, config.retentionMs) <= first.monotonicMs
    ensures var ops := [RecordOp(first), RecordOp(second)];
            && RunStore(config, ops[..1]).inner.events == [first]
            && first !in RunStore(config, ops).inner.events
            && Evicted(RunStore(config, ops).inner, first.threadId, first.plane) == 1
  {
    var ops := [RecordOp(first), RecordOp(second)];
    assert ops[..1] == [RecordOp(first)] && ops == [RecordOp(first)] + [RecordOp(second)];
    OneOp(config, RecordOp(first));
    RecordFits(EMPTY, config, first);
    RunStoreSnoc(config, [RecordOp(first)], RecordOp(second));
    SecondEvictsFirst(config, first, second);
  }

  lemma SecondEvictsFirst(config: Config, first: SequencedEvent, second: SequencedEvent)
    requires first.threadId.Some? && second.threadId.Some? && first.threadId != second.threadId
    requires second.plane == Lifecycle && config.perThreadBytes < second.encodedLen
    requires SaturatingSub(second.monotonicMs, config.retentionMs) <= first.monotonicMs
    requires Accounted(Push(EMPTY, first))
    ensures var after := Record(Push(EMPTY, first), config, second);
            first !in after.events && Evicted(after, first.threadId, first.plane) == 1
  {
    var one, key := Push(EMPTY, first), second.threadId;
    PushKeepsAccounts(one, second);
    var both := Push(one, second);
    assert both.events == [first, second];
    assert AgeOut(both, SaturatingSub(second.monotonicMs, config.retentionMs)) == both;
    assert OverThread(both, config, key) == key;
    DeltaPositionIsFirst(both.events, key);
    assert EvictPosition(both.events, key) == 0;
    RemoveIsExact(both, 0);
    SecondGoesToo(config, RemoveAt(both, 0), second);
  }

  lemma SecondGoesToo(config: Config, left: Inner, second: SequencedEvent)
    requires Accounted(left) && left.events == [second] && second.threadId.Some?
    requires config.perThreadBytes < second.encodedLen
    ensures EvictOver(left, config, second.threadId).events == []
    ensures forall key, plane :: key != second.threadId ==>
              Evicted(EvictOver(left, config, second.threadId), key, plane) == Evicted(left, key, plane)
  {
    OversizeIsEvicted(left, config, second);
  }

  /**
   An anchor outlives the window: it is stamped behind a wire event that is still young enough, and so
   the next wire event does not age it out.
   */
  lemma AnchorOutlivesWindow(config: Config, first: SequencedEvent, anchor: StoreOp, last: SequencedEvent)
    requires anchor.AnchorOp? && !IsGenuineStart(first, anchor.threadId, anchor.turnId)
    requires first.encodedLen + anchor.encodedLen + last.encodedLen <= config.perThreadBytes <= config.globalBytes
    requires anchor.elapsedMs < SaturatingSub(last.monotonicMs, config.retentionMs) <= first.monotonicMs
    ensures var run := RunStore(config, [RecordOp(first), anchor, RecordOp(last)]);
            && |run.inner.events| == 3 && run.inner.events[1].monotonicMs == anchor.elapsedMs
            && run.inner.events[1].monotonicMs < SaturatingSub(last.monotonicMs, config.retentionMs)
  {
    var event := ReconstructedActiveTurn(
      anchor.sequence, anchor.unixMs, anchor.elapsedMs, anchor.threadId, anchor.turnId, anchor.encodedLen);
    var one := Push(EMPTY, first);
    var two := Push(one, event);
    OneOp(config, RecordOp(first));
    RecordFits(EMPTY, config, first);
    assert one.events == [first];
    RunStoreSnoc(config, [RecordOp(first)], anchor);
    assert [RecordOp(first)] + [anchor] == [RecordOp(first), anchor];
    assert Recorded(one, anchor) == Some(event);
    RecordFits(one, config, event);
    RunStoreSnoc(config, [RecordOp(first), anchor], RecordOp(last));
    assert [RecordOp(first), anchor] + [RecordOp(last)] == [RecordOp(first), anchor, RecordOp(last)];
    RecordFits(two, config, last);
    assert two.events == [first, event];
  }
}
