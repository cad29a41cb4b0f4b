/**
 Thread discovery and reconciliation: concurrent `discover` tasks that share the subscription
 table and the reducer under separate locks, and the paged listing that feeds them.
 */
module Ingestion {
  import opened Protocol
  import opened Reduction
  import opened Runs
  import Storage
  import T = Transport

  // ---------------------------------------------------------------- vocabulary

  datatype DiscoverySource = ThreadStarted | ActivationStatus | Reconciliation

  datatype SubscriptionState =
    | Subscribing(source: DiscoverySource, attempt: nat)
    | Subscribed
    | RetryWait(attempt: nat)
    | Ephemeral
    | CapacityDegraded
    | Failed

  datatype DiscoveryOutcome =
    | DiscoveredSubscribed
    | AlreadyManaged
    | DiscoveredEphemeral
    | OverCapacity
    | DiscoveryFailed

  type Table = map<string, SubscriptionState>

  datatype Config = Config(subscriptionCap: nat, resumeRetryLimit: nat)

  predicate IsManaged(state: SubscriptionState) {
    state.Subscribed? || state.Subscribing? || state.RetryWait?
  }

  function Managed(states: Table): set<string> {
    set id | id in states && IsManaged(states[id])
  }

  function Lower(c: char): char {
    if 'A' <= c <= 'Z' then c - 'A' + 'a' else c
  }

  function ToAsciiLowercase(text: string): string {
    seq(|text|, i requires 0 <= i < |text| => Lower(text[i]))
  }

  predicate IsEphemeralError(error: string) {
    var text := ToAsciiLowercase(error);
    Contains(text, "ephemeral") || Contains(text, "rollout") || Contains(text, "not found")
  }

  datatype Move = Proceed | Retry | GiveUpEphemeral | GiveUpFailed

  /** What `discover` does with the answer to one resume. */
  function AfterResume(answer: T.Outcome, attempt: nat, limit: nat): Move {
    match answer
    case Ok(_) => Proceed
    case NotWritten => if attempt < limit then Retry else GiveUpFailed
    case Rejected(error) =>
      if !IsEphemeralError(error) then GiveUpFailed
      else if attempt < limit then Retry
      else GiveUpEphemeral
    case _ => GiveUpFailed
  }

  /** A thread counts against the cap, and is left alone, while it is subscribed, subscribing or waiting to retry. */
  lemma ManagedIff(states: Table, id: string)
    ensures id in Managed(states) <==>
            id in states && (states[id] == Subscribed || states[id].Subscribing? || states[id].RetryWait?)
  {
  }

  /** The same letter, whatever its case; the other one is lower case. */
  predicate SameLetter(c: char, lower: char) {
    c == lower || ('a' <= lower <= 'z' && c == lower - 'a' + 'A')
  }

  ghost predicate ReadsAt(text: string, part: string, i: int)
    requires 0 <= i <= |text| - |part|
  {
    forall j :: 0 <= j < |part| ==> SameLetter(text[i + j], part[j])
  }

  /** Somewhere in the text, in upper or lower case. */
  ghost predicate Reads(text: string, part: string) {
    exists i :: 0 <= i <= |text| - |part| && ReadsAt(text, part, i)
  }

  lemma LowerIff(c: char, lower: char)
    requires !('A' <= lower <= 'Z')
    ensures Lower(c) == lower <==> SameLetter(c, lower)
  {
  }

  lemma ContainsAnyCase(text: string, part: string)
    requires forall j :: 0 <= j < |part| ==> !('A' <= part[j] <= 'Z')
    ensures Contains(ToAsciiLowercase(text), part) <==> Reads(text, part)
  {
    var small := ToAsciiLowercase(text);
    ContainsIff(small, part);
    forall i | 0 <= i <= |text| - |part| ensures IsPartAt(small, part, i) <==> ReadsAt(text, part, i) {
      forall j | 0 <= j < |part| ensures small[i + j] == part[j] <==> SameLetter(text[i + j], part[j]) {
        LowerIff(text[i + j], part[j]);
      }
    }
  }

  /** Exactly which errors count as ephemeral. */
  lemma EphemeralErrorIff(error: string)
    ensures IsEphemeralError(error) <==>
            Reads(error, "ephemeral") || Reads(error, "rollout") || Reads(error, "not found")
  {
    ContainsAnyCase(error, "ephemeral");
    ContainsAnyCase(error, "rollout");
    ContainsAnyCase(error, "not found");
  }

  predicate IsEphemeralRefusal(answer: T.Outcome) {
    answer.Rejected? && IsEphemeralError(answer.error)
  }

  /** The answers after which a resume may be repeated. */
  predicate Retriable(answer: T.Outcome) {
    answer == T.NotWritten || IsEphemeralRefusal(answer)
  }

  // ---------------------------------------------------------------- concurrent tasks

  /** The atomic sections of `discover`: each holds one lock, or waits for the daemon. */
  datatype Pc =
    | Claim | Begins | Resume | Await | MarkRetry | Sleep
    | Finishes | MarkSubscribed | ReadThread
    | MarkGaveUp(ephemeral: bool) | Cancels(ephemeral: bool)
    | Done(outcome: DiscoveryOutcome)

  /**
   `resumes` counts the requests sent and `answers` lists what they got; `overtaken` says another task's
   late cancel hit the thread.
   */
  datatype Task = Task(
    thread: string, source: DiscoverySource, attempt: nat, resumes: nat, answers: seq<T.Outcome>, overtaken: bool,
    pc: Pc)

  datatype State = State(states: Table, core: Core, tasks: seq<Task>)

  const INIT := State(map[], EMPTY_CORE, [])

  datatype Step =
    | Discover(thread: string, source: DiscoverySource)
    | Advance(task: nat, answer: T.Outcome, read: Option<ThreadRecord>)
    | Environment(op: CoreOp)

  function Overtake(tasks: seq<Task>, i: nat): seq<Task>
    requires i < |tasks|
  {
    seq(|tasks|, j requires 0 <= j < |tasks| =>
      if j != i && tasks[j].thread == tasks[i].thread then tasks[j].(overtaken := true) else tasks[j])
  }

  function ClaimStep(s: State, config: Config, i: nat): State
    requires i < |s.tasks|
  {
    var k := s.tasks[i];
    if k.thread in s.states && IsManaged(s.states[k.thread]) then
      s.(tasks := s.tasks[i := k.(pc := Done(AlreadyManaged))])
    else if |Managed(s.states)| >= config.subscriptionCap then
      s.(states := s.states[k.thread := CapacityDegraded], tasks := s.tasks[i := k.(pc := Done(OverCapacity))])
    else
      s.(states := s.states[k.thread := Subscribing(k.source, 1)],
         tasks := s.tasks[i := k.(attempt := 1, pc := Begins)])
  }

  function AwaitStep(k: Task, config: Config, answer: T.Outcome): Task {
    var t := k.(answers := k.answers + [answer]);
    match AfterResume(answer, k.attempt, config.resumeRetryLimit)
    case Proceed => t.(pc := Finishes)
    case Retry => t.(attempt := k.attempt + 1, pc := MarkRetry)
    case GiveUpEphemeral => t.(pc := MarkGaveUp(true))
    case GiveUpFailed => t.(pc := MarkGaveUp(false))
  }

  function AdvanceStep(s: State, config: Config, i: nat, answer: T.Outcome, read: Option<ThreadRecord>): State
    requires i < |s.tasks|
  {
    var k := s.tasks[i];
    var id := k.thread;
    match k.pc
    case Claim => ClaimStep(s, config, i)
    case Begins =>
      s.(core := BeginSubscription(s.core, id), tasks := s.tasks[i := k.(overtaken := false, pc := Resume)])
    case Resume => s.(tasks := s.tasks[i := k.(resumes := k.resumes + 1, pc := Await)])
    case Await => s.(tasks := s.tasks[i := AwaitStep(k, config, answer)])
    case MarkRetry => s.(states := s.states[id := RetryWait(k.attempt)], tasks := s.tasks[i := k.(pc := Sleep)])
    case Sleep =>
      s.(states := s.states[id := Subscribing(k.source, k.attempt)], tasks := s.tasks[i := k.(pc := Resume)])
    case Finishes => s.(core := FinishSubscription(s.core, id), tasks := s.tasks[i := k.(pc := MarkSubscribed)])
    case MarkSubscribed => s.(states := s.states[id := Subscribed], tasks := s.tasks[i := k.(pc := ReadThread)])
    case ReadThread =>
      s.(core := if read.Some? then ReconcileThread(s.core, read.value) else s.core,
         tasks := s.tasks[i := k.(pc := Done(DiscoveredSubscribed))])
    case MarkGaveUp(ephemeral) =>
      s.(states := s.states[id := if ephemeral then Ephemeral else Failed],
         tasks := s.tasks[i := k.(pc := Cancels(ephemeral))])
    case Cancels(ephemeral) =>
      s.(core := CancelSubscription(s.core, id),
         tasks := Overtake(s.tasks, i)[i := k.(pc := Done(if ephemeral then DiscoveredEphemeral else DiscoveryFailed))])
    case Done(_) => s
  }

  function Next(s: State, config: Config, step: Step): State {
    match step
    case Discover(thread, source) => s.(tasks := s.tasks + [Task(thread, source, 0, 0, [], false, Claim)])
    case Advance(i, answer, read) =>
      if i < |s.tasks| then AdvanceStep(s, config, i, answer, read) else s
    case Environment(op) =>
      if op.Fold? || op.Evict? || op.Reconcile? then s.(core := StepCore(s.core, op)) else s
  }

  // ---------------------------------------------------------------- invariant

  /** Between its claim and the section that ends it, a task owns the thread's table entry. */
  predicate Owns(pc: Pc) {
    pc.Begins? || pc.Resume? || pc.Await? || pc.MarkRetry? || pc.Sleep? || pc.Finishes? || pc.MarkSubscribed? ||
    pc.MarkGaveUp?
  }

  /** After its begin and before its finish or cancel, a task relies on the pending mark. */
  predicate IsPending(pc: Pc) {
    pc.Resume? || pc.Await? || pc.MarkRetry? || pc.Sleep? || pc.Finishes? || pc.MarkGaveUp?
  }

  ghost predicate IsSubscribed(core: Core, id: string) {
    id in core.snapshot.threads && core.snapshot.threads[id].subscribed
  }

  ghost predicate TaskInv(s: State, config: Config, i: nat)
    requires i < |s.tasks|
  {
    var k := s.tasks[i];
    && (Owns(k.pc) ==> k.thread in s.states && (s.states[k.thread].Subscribing? || s.states[k.thread].RetryWait?))
    && (k.pc.MarkSubscribed? ==> IsSubscribed(s.core, k.thread))
    && (IsPending(k.pc) ==> (k.thread in s.core.subscribing <==> !k.overtaken))
    && (k.pc.Claim? ==> k.resumes == 0)
    && (Owns(k.pc) ==> 1 <= k.attempt)
    && (k.pc.Await? ==> k.resumes == k.attempt)
    && (k.pc.Begins? || k.pc.Resume? || k.pc.MarkRetry? || k.pc.Sleep? ==> k.resumes == k.attempt - 1)
    && k.resumes <= k.attempt <= Max(1, config.resumeRetryLimit)
  }

  ghost predicate Inv(s: State, config: Config) {
    && |Managed(s.states)| <= config.subscriptionCap
    && (forall id <- s.states :: s.states[id].Subscribed? ==> IsSubscribed(s.core, id))
    && (forall id <- s.core.subscribing :: id in s.core.snapshot.threads)
    && (forall i :: 0 <= i < |s.tasks| ==> TaskInv(s, config, i))
    && (forall i, j :: 0 <= i < j < |s.tasks| && Owns(s.tasks[i].pc) && Owns(s.tasks[j].pc) ==>
          s.tasks[i].thread != s.tasks[j].thread)
  }

  /** No operation other than a release ends a subscription. */
  lemma SubscriptionsLast(core: Core, op: CoreOp, id: string)
    requires !op.Release? && IsSubscribed(core, id)
    ensures IsSubscribed(StepCore(core, op), id)
  {
  }

  lemma PendingMarksHaveEntries(core: Core, op: CoreOp)
    requires !op.Release?
    requires forall id <- core.subscribing :: id in core.snapshot.threads
    ensures forall id <- StepCore(core, op).subscribing :: id in StepCore(core, op).snapshot.threads
  {
  }

  lemma ManagedGrowsByOne(states: Table, id: string, state: SubscriptionState)
    requires id !in Managed(states)
    ensures |Managed(states[id := state])| == |Managed(states)| + (if IsManaged(state) then 1 else 0)
  {
    assert Managed(states[id := state]) == Managed(states) + (if IsManaged(state) then {id} else {});
  }

  lemma ManagedNeverGrows(states: Table, id: string, state: SubscriptionState)
    requires id in Managed(states)
    ensures |Managed(states[id := state])| <= |Managed(states)|
  {
    var after := Managed(states[id := state]);
    assert Managed(states) == after + (Managed(states) - after);
  }

  /** A section on the reducer by task `i`: the table is untouched. */
  lemma CoreSectionKeeps(s: State, config: Config, op: CoreOp, t: State)
    requires Inv(s, config) && !op.Release?
    requires t.states == s.states && t.core == StepCore(s.core, op) && |t.tasks| == |s.tasks|
    requires forall i :: 0 <= i < |t.tasks| ==> TaskInv(t, config, i)
    requires forall i :: 0 <= i < |t.tasks| ==>
               t.tasks[i].thread == s.tasks[i].thread && (Owns(t.tasks[i].pc) ==> Owns(s.tasks[i].pc))
    ensures Inv(t, config)
  {
    forall id <- t.states | t.states[id].Subscribed? ensures IsSubscribed(t.core, id) {
      SubscriptionsLast(s.core, op, id);
    }
    PendingMarksHaveEntries(s.core, op);
  }

  /** A section on the table by the owner of the entry: the reducer is untouched. */
  lemma TableSectionKeeps(s: State, config: Config, i: nat, state: SubscriptionState, k: Task)
    requires Inv(s, config) && i < |s.tasks| && Owns(s.tasks[i].pc) && k.thread == s.tasks[i].thread
    requires var t := s.(states := s.states[k.thread := state], tasks := s.tasks[i := k]);
             TaskInv(t, config, i) && (state.Subscribed? ==> IsSubscribed(s.core, k.thread))
    ensures Inv(s.(states := s.states[k.thread := state], tasks := s.tasks[i := k]), config)
  {
    var t := s.(states := s.states[k.thread := state], tasks := s.tasks[i := k]);
    assert TaskInv(s, config, i);
    ManagedNeverGrows(s.states, k.thread, state);
    forall j | 0 <= j < |t.tasks| ensures TaskInv(t, config, j) {
      assert TaskInv(s, config, j);
    }
  }

  lemma ClaimKeeps(s: State, config: Config, i: nat)
    requires Inv(s, config) && i < |s.tasks| && s.tasks[i].pc == Claim
    ensures Inv(ClaimStep(s, config, i), config)
  {
    var t := ClaimStep(s, config, i);
    var id := s.tasks[i].thread;
    if id !in Managed(s.states) {
      ManagedGrowsByOne(s.states, id, t.states[id]);
    }
    forall j | 0 <= j < |t.tasks| ensures TaskInv(t, config, j) {
      assert TaskInv(s, config, j);
    }
    forall a, b | 0 <= a < b < |t.tasks| && Owns(t.tasks[a].pc) && Owns(t.tasks[b].pc)
      ensures t.tasks[a].thread != t.tasks[b].thread
    {
      assert TaskInv(s, config, a) && TaskInv(s, config, b);
    }
  }

  lemma LocalKeeps(s: State, config: Config, i: nat, k: Task)
    requires Inv(s, config) && i < |s.tasks| && k.thread == s.tasks[i].thread && (Owns(k.pc) ==> Owns(s.tasks[i].pc))
    requires TaskInv(s.(tasks := s.tasks[i := k]), config, i)
    ensures Inv(s.(tasks := s.tasks[i := k]), config)
  {
    var t := s.(tasks := s.tasks[i := k]);
    forall j | 0 <= j < |t.tasks| ensures TaskInv(t, config, j) {
      assert TaskInv(s, config, j);
    }
  }

  lemma BeginKeeps(s: State, config: Config, i: nat)
    requires Inv(s, config) && i < |s.tasks| && s.tasks[i].pc == Begins
    ensures Inv(AdvanceStep(s, config, i, T.NotWritten, None), config)
  {
    var t := AdvanceStep(s, config, i, T.NotWritten, None);
    var op := Begin(s.tasks[i].thread);
    forall j | 0 <= j < |t.tasks| ensures TaskInv(t, config, j) {
      assert TaskInv(s, config, j);
      if IsSubscribed(s.core, s.tasks[j].thread) {
        SubscriptionsLast(s.core, op, s.tasks[j].thread);
      }
    }
    CoreSectionKeeps(s, config, op, t);
  }

  lemma FinishKeeps(s: State, config: Config, i: nat)
    requires Inv(s, config) && i < |s.tasks| && s.tasks[i].pc == Finishes
    ensures Inv(AdvanceStep(s, config, i, T.NotWritten, None), config)
  {
    var t := AdvanceStep(s, config, i, T.NotWritten, None);
    var op := Finish(s.tasks[i].thread);
    forall j | 0 <= j < |t.tasks| ensures TaskInv(t, config, j) {
      assert TaskInv(s, config, j);
      if IsSubscribed(s.core, s.tasks[j].thread) {
        SubscriptionsLast(s.core, op, s.tasks[j].thread);
      }
    }
    CoreSectionKeeps(s, config, op, t);
  }

  lemma CancelKeeps(s: State, config: Config, i: nat)
    requires Inv(s, config) && i < |s.tasks| && s.tasks[i].pc.Cancels?
    ensures Inv(AdvanceStep(s, config, i, T.NotWritten, None), config)
  {
    var t := AdvanceStep(s, config, i, T.NotWritten, None);
    var op := Cancel(s.tasks[i].thread);
    forall j | 0 <= j < |t.tasks| ensures TaskInv(t, config, j) {
      assert TaskInv(s, config, j);
      if IsSubscribed(s.core, s.tasks[j].thread) {
        SubscriptionsLast(s.core, op, s.tasks[j].thread);
      }
    }
    CoreSectionKeeps(s, config, op, t);
  }

  lemma EnvironmentKeeps(s: State, config: Config, op: CoreOp)
    requires Inv(s, config) && (op.Fold? || op.Evict? || op.Reconcile?)
    ensures Inv(s.(core := StepCore(s.core, op)), config)
  {
    var t := s.(core := StepCore(s.core, op));
    forall j | 0 <= j < |t.tasks| ensures TaskInv(t, config, j) {
      assert TaskInv(s, config, j);
      if IsSubscribed(s.core, s.tasks[j].thread) {
        SubscriptionsLast(s.core, op, s.tasks[j].thread);
      }
    }
    CoreSectionKeeps(s, config, op, t);
  }

  lemma ReadKeeps(s: State, config: Config, i: nat, read: Option<ThreadRecord>)
    requires Inv(s, config) && i < |s.tasks| && s.tasks[i].pc == ReadThread
    ensures Inv(AdvanceStep(s, config, i, T.NotWritten, read), config)
  {
    assert TaskInv(s, config, i);
    var k := s.tasks[i].(pc := Done(DiscoveredSubscribed));
    LocalKeeps(s, config, i, k);
    if read.Some? {
      EnvironmentKeeps(s.(tasks := s.tasks[i := k]), config, Reconcile(read.value));
    }
  }

  lemma AwaitKeeps(s: State, config: Config, i: nat, answer: T.Outcome)
    requires Inv(s, config) && i < |s.tasks| && s.tasks[i].pc == Await
    ensures Inv(s.(tasks := s.tasks[i := AwaitStep(s.tasks[i], config, answer)]), config)
  {
    assert TaskInv(s, config, i);
    LocalKeeps(s, config, i, AwaitStep(s.tasks[i], config, answer));
  }

  lemma MarkKeeps(s: State, config: Config, i: nat, answer: T.Outcome, read: Option<ThreadRecord>)
    requires Inv(s, config) && i < |s.tasks|
    requires var pc := s.tasks[i].pc; pc.MarkRetry? || pc.Sleep? || pc.MarkSubscribed? || pc.MarkGaveUp?
    ensures Inv(AdvanceStep(s, config, i, answer, read), config)
  {
    var k := s.tasks[i];
    assert TaskInv(s, config, i);
    match k.pc
    case MarkRetry => TableSectionKeeps(s, config, i, RetryWait(k.attempt), k.(pc := Sleep));
    case Sleep => TableSectionKeeps(s, config, i, Subscribing(k.source, k.attempt), k.(pc := Resume));
    case MarkSubscribed => TableSectionKeeps(s, config, i, Subscribed, k.(pc := ReadThread));
    case MarkGaveUp(ephemeral) =>
      TableSectionKeeps(s, config, i, if ephemeral then Ephemeral else Failed, k.(pc := Cancels(ephemeral)));
  }

  lemma AdvanceKeeps(s: State, config: Config, i: nat, answer: T.Outcome, read: Option<ThreadRecord>)
    requires Inv(s, config) && i < |s.tasks|
    ensures Inv(AdvanceStep(s, config, i, answer, read), config)
  {
    var k := s.tasks[i];
    match k.pc
    case Claim => ClaimKeeps(s, config, i);
    case Begins => BeginKeeps(s, config, i);
    case Resume =>
      assert TaskInv(s, config, i);
      LocalKeeps(s, config, i, k.(resumes := k.resumes + 1, pc := Await));
    case Await => AwaitKeeps(s, config, i, answer);
    case Finishes => FinishKeeps(s, config, i);
    case ReadThread => ReadKeeps(s, config, i, read);
    case Cancels(_) => CancelKeeps(s, config, i);
    case Done(_) =>
    case _ => MarkKeeps(s, config, i, answer, read);
  }

  lemma NextKeepsInv(s: State, config: Config, step: Step)
    requires Inv(s, config)
    ensures Inv(Next(s, config, step), config)
  {
    match step
    case Discover(thread, source) =>
      var t := Next(s, config, step);
      forall j | 0 <= j < |t.tasks| ensures TaskInv(t, config, j) {
        if j < |s.tasks| {
          assert TaskInv(s, config, j);
        }
      }
    case Advance(i, answer, read) =>
      if i < |s.tasks| {
        AdvanceKeeps(s, config, i, answer, read);
      }
    case Environment(op) =>
      if op.Fold? || op.Evict? || op.Reconcile? {
        EnvironmentKeeps(s, config, op);
      }
  }

  function NextOf(config: Config): (State, Step) -> State {
    (s: State, step: Step) => Next(s, config, step)
  }

  function Run(config: Config, steps: seq<Step>): State {
    Iterate(INIT, steps, NextOf(config))
  }

  lemma {:induction false} RunKeepsInv(config: Config, steps: seq<Step>)
    ensures Inv(Run(config, steps), config)
  {
    if steps == [] {
      assert Managed(INIT.states) == {};
    } else {
      RunKeepsInv(config, steps[..|steps| - 1]);
      NextKeepsInv(Run(config, steps[..|steps| - 1]), config, steps[|steps| - 1]);
    }
  }

  // ---------------------------------------------------------------- nothing else subscribes

  /** Some task has subscribed the thread in the reducer and is about to say so in the table. */
  ghost predicate Promoting(s: State, id: string) {
    exists i :: 0 <= i < |s.tasks| && IsPromoting(s.tasks[i], id)
  }

  predicate IsPromoting(k: Task, id: string) {
    k.thread == id && k.pc == MarkSubscribed
  }

  predicate IsMarked(states: Table, id: string) {
    id in states && states[id].Subscribed?
  }

  ghost predicate Explained(s: State, id: string) {
    IsSubscribed(s.core, id) ==> IsMarked(s.states, id) || Promoting(s, id)
  }

  /** Only a finished resume starts a subscription. */
  lemma OnlyFinishSubscribes(core: Core, op: CoreOp, id: string)
    requires op != Finish(id) && IsSubscribed(StepCore(core, op), id)
    ensures IsSubscribed(core, id)
  {
  }

  lemma PromotingStays(s: State, t: State, id: string)
    requires |s.tasks| <= |t.tasks| && Promoting(s, id)
    requires forall j :: 0 <= j < |s.tasks| && IsPromoting(s.tasks[j], id) ==> IsPromoting(t.tasks[j], id)
    ensures Promoting(t, id)
  {
    var j :| 0 <= j < |s.tasks| && IsPromoting(s.tasks[j], id);
    assert IsPromoting(t.tasks[j], id);
  }

  /** A table section writes the entry of a thread that is not marked yet. */
  lemma MarksLast(s: State, config: Config, i: nat, answer: T.Outcome, read: Option<ThreadRecord>, id: string)
    requires Inv(s, config) && i < |s.tasks| && IsMarked(s.states, id)
    ensures IsMarked(AdvanceStep(s, config, i, answer, read).states, id)
  {
    assert TaskInv(s, config, i);
  }

  /** The reducer operation of a section, if it has one. */
  function SectionOp(k: Task, read: Option<ThreadRecord>): Option<CoreOp> {
    match k.pc
    case Begins => Some(Begin(k.thread))
    case Finishes => Some(Finish(k.thread))
    case Cancels(_) => Some(Cancel(k.thread))
    case ReadThread => if read.Some? then Some(Reconcile(read.value)) else None
    case _ => None
  }

  lemma SectionIsItsOp(s: State, config: Config, i: nat, answer: T.Outcome, read: Option<ThreadRecord>)
    requires i < |s.tasks|
    ensures var t, op := AdvanceStep(s, config, i, answer, read), SectionOp(s.tasks[i], read);
            && t.core == (if op.Some? then StepCore(s.core, op.value) else s.core)
            && |t.tasks| == |s.tasks|
            && forall j :: 0 <= j < |s.tasks| && j != i ==>
                 t.tasks[j].thread == s.tasks[j].thread && t.tasks[j].pc == s.tasks[j].pc
  {
  }

  lemma AdvanceExplains(s: State, config: Config, i: nat, answer: T.Outcome, read: Option<ThreadRecord>, id: string)
    requires Inv(s, config) && i < |s.tasks| && Explained(s, id)
    ensures Explained(AdvanceStep(s, config, i, answer, read), id)
  {
    var t, k := AdvanceStep(s, config, i, answer, read), s.tasks[i];
    SectionIsItsOp(s, config, i, answer, read);
    if IsSubscribed(t.core, id) {
      if k.pc == Finishes && k.thread == id {
        assert IsPromoting(t.tasks[i], id);
      } else if IsPromoting(k, id) {
        assert IsMarked(t.states, id);
      } else {
        var op := SectionOp(k, read);
        if op.Some? {
          OnlyFinishSubscribes(s.core, op.value, id);
        }
        if IsMarked(s.states, id) {
          MarksLast(s, config, i, answer, read, id);
        } else {
          PromotingStays(s, t, id);
        }
      }
    }
  }

  lemma NextExplains(s: State, config: Config, step: Step, id: string)
    requires Inv(s, config) && Explained(s, id)
    ensures Explained(Next(s, config, step), id)
  {
    var t := Next(s, config, step);
    match step
    case Advance(i, answer, read) =>
      if i < |s.tasks| {
        AdvanceExplains(s, config, i, answer, read, id);
      }
    case Environment(op) =>
      if IsSubscribed(t.core, id) && t != s {
        OnlyFinishSubscribes(s.core, op, id);
      }
      if Promoting(s, id) {
        PromotingStays(s, t, id);
      }
    case Discover(_, _) =>
      if Promoting(s, id) {
        PromotingStays(s, t, id);
      }
  }

  lemma {:induction false} RunExplains(config: Config, steps: seq<Step>, id: string)
    ensures Explained(Run(config, steps), id)
  {
    if steps != [] {
      RunKeepsInv(config, steps[..|steps| - 1]);
      RunExplains(config, steps[..|steps| - 1], id);
      NextExplains(Run(config, steps[..|steps| - 1]), config, steps[|steps| - 1], id);
    }
  }

  // ---------------------------------------------------------------- main results

  /**
   Ingestor and reducer agree, both ways: in every interleaving, however late the cancel of an earlier
   failed task arrives, the reducer holds a thread as subscribed exactly when the table calls it
   subscribed or a task stands between the two sections that say so.
   */
  lemma TablesAgree(config: Config, steps: seq<Step>, id: string)
    ensures var s := Run(config, steps);
            (id in s.core.snapshot.threads && s.core.snapshot.threads[id].subscribed) <==>
            (id in s.states && s.states[id].Subscribed?) ||
            exists i :: 0 <= i < |s.tasks| && s.tasks[i].thread == id && s.tasks[i].pc == MarkSubscribed
  {
    var s := Run(config, steps);
    RunKeepsInv(config, steps);
    RunExplains(config, steps, id);
    if Promoting(s, id) {
      var i :| 0 <= i < |s.tasks| && IsPromoting(s.tasks[i], id);
      assert TaskInv(s, config, i);
    }
    forall i | 0 <= i < |s.tasks| && s.tasks[i].thread == id && s.tasks[i].pc == MarkSubscribed
      ensures Promoting(s, id)
    {
      assert IsPromoting(s.tasks[i], id);
    }
  }

  // what a task makes of the answers it gets

  /** All answers but perhaps the last were retriable. */
  ghost predicate Persisted(answers: seq<T.Outcome>) {
    forall n :: 0 <= n < |answers| - 1 ==> Retriable(answers[n])
  }

  /** A task has gone on only for retriable answers, and ended by the last one it got. */
  ghost predicate FollowsAnswers(k: Task, limit: nat) {
    var told := k.answers;
    && Persisted(told) && |told| <= k.attempt
    && match k.pc
       case Claim => told == []
       case Begins => told == [] && k.attempt == 1
       case Resume => |told| == k.attempt - 1 && (told != [] ==> Retriable(told[|told| - 1]))
       case Await => |told| == k.attempt - 1 && (told != [] ==> Retriable(told[|told| - 1]))
       case MarkRetry => |told| == k.attempt - 1 && told != [] && Retriable(told[|told| - 1])
       case Sleep => |told| == k.attempt - 1 && told != [] && Retriable(told[|told| - 1])
       case Finishes => told != [] && told[|told| - 1].Ok?
       case MarkSubscribed => told != [] && told[|told| - 1].Ok?
       case ReadThread => told != [] && told[|told| - 1].Ok?
       case MarkGaveUp(ephemeral) => GaveUpFor(told, limit, ephemeral)
       case Cancels(ephemeral) => GaveUpFor(told, limit, ephemeral)
       case Done(outcome) => DoneBy(told, limit, outcome)
  }

  /** Given up for an answer that is not an `Ok`, and not while a retriable one left an attempt. */
  ghost predicate GaveUpFor(told: seq<T.Outcome>, limit: nat, ephemeral: bool) {
    && told != [] && !told[|told| - 1].Ok?
    && (Retriable(told[|told| - 1]) ==> |told| >= limit)
    && (ephemeral <==> IsEphemeralRefusal(told[|told| - 1]))
  }

  ghost predicate DoneBy(told: seq<T.Outcome>, limit: nat, outcome: DiscoveryOutcome) {
    match outcome
    case AlreadyManaged => told == []
    case OverCapacity => told == []
    case DiscoveredSubscribed => told != [] && told[|told| - 1].Ok?
    case DiscoveredEphemeral => GaveUpFor(told, limit, true)
    case DiscoveryFailed => GaveUpFor(told, limit, false)
  }

  lemma AwaitFollows(k: Task, config: Config, answer: T.Outcome)
    requires FollowsAnswers(k, config.resumeRetryLimit) && k.pc == Await
    ensures FollowsAnswers(AwaitStep(k, config, answer), config.resumeRetryLimit)
  {
    var told := k.answers + [answer];
    forall n | 0 <= n < |told| - 1 ensures Retriable(told[n]) {
      assert told[n] == k.answers[n];
    }
  }

  lemma AdvanceFollows(s: State, config: Config, i: nat, answer: T.Outcome, read: Option<ThreadRecord>)
    requires i < |s.tasks| && FollowsAnswers(s.tasks[i], config.resumeRetryLimit)
    ensures FollowsAnswers(AdvanceStep(s, config, i, answer, read).tasks[i], config.resumeRetryLimit)
  {
    if s.tasks[i].pc == Await {
      AwaitFollows(s.tasks[i], config, answer);
    }
  }

  lemma OthersStay(s: State, config: Config, i: nat, answer: T.Outcome, read: Option<ThreadRecord>, j: nat)
    requires i < |s.tasks| && j < |s.tasks| && i != j
    ensures var t := AdvanceStep(s, config, i, answer, read).tasks;
            && |t| == |s.tasks| && t[j].pc == s.tasks[j].pc && t[j].answers == s.tasks[j].answers
            && t[j].attempt == s.tasks[j].attempt
  {
  }

  lemma {:induction false} RunFollowsAnswers(config: Config, steps: seq<Step>, i: nat)
    requires i < |Run(config, steps).tasks|
    ensures FollowsAnswers(Run(config, steps).tasks[i], config.resumeRetryLimit)
  {
    if steps != [] {
      var front, step := steps[..|steps| - 1], steps[|steps| - 1];
      var s := Run(config, front);
      if i < |s.tasks| {
        RunFollowsAnswers(config, front, i);
        if step.Advance? && step.task < |s.tasks| {
          if step.task == i {
            AdvanceFollows(s, config, i, step.answer, step.read);
          } else {
            OthersStay(s, config, step.task, step.answer, step.read, i);
          }
        }
      }
    }
  }

  /**
   Discovery goes by its answers: in every interleaving a task stands past its resume loop towards a
   subscription only if its last resume was answered `Ok`, it has ended ephemeral only for an ephemeral
   refusal and failed only for another answer, it never gave up while a retriable answer left an attempt,
   and it repeated a resume only after `NotWritten` or an ephemeral refusal.
   */
  lemma DiscoveryFollowsAnswers(config: Config, steps: seq<Step>, i: nat)
    requires i < |Run(config, steps).tasks|
    ensures var k := Run(config, steps).tasks[i];
            var told, n := k.answers, |k.answers|;
            && (forall m :: 0 <= m < n - 1 ==> Retriable(told[m]))
            && (k.pc.Finishes? || k.pc.MarkSubscribed? || k.pc.ReadThread? || k.pc == Done(DiscoveredSubscribed) ==>
                  n > 0 && told[n - 1].Ok?)
            && (k.pc == Done(DiscoveredEphemeral) ==>
                  n > 0 && IsEphemeralRefusal(told[n - 1]) && n >= config.resumeRetryLimit)
            && (k.pc == Done(DiscoveryFailed) ==>
                  && n > 0 && !told[n - 1].Ok? && !IsEphemeralRefusal(told[n - 1])
                  && (told[n - 1] == T.NotWritten ==> n >= config.resumeRetryLimit))
            && (k.pc == Done(AlreadyManaged) || k.pc == Done(OverCapacity) ==> n == 0)
  {
    RunFollowsAnswers(config, steps, i);
  }

  /** The cap holds in every interleaving. */
  lemma CapHolds(config: Config, steps: seq<Step>)
    ensures |Managed(Run(config, steps).states)| <= config.subscriptionCap
  {
    RunKeepsInv(config, steps);
  }

  /** At most one task per thread is resuming, and its thread counts against the cap. */
  lemma OneResumerPerThread(config: Config, steps: seq<Step>, i: nat, j: nat)
    requires i < |Run(config, steps).tasks| && j < |Run(config, steps).tasks| && i != j
    requires Owns(Run(config, steps).tasks[i].pc) && Owns(Run(config, steps).tasks[j].pc)
    ensures var s := Run(config, steps);
            s.tasks[i].thread != s.tasks[j].thread && s.tasks[i].thread in Managed(s.states)
  {
    RunKeepsInv(config, steps);
    assert TaskInv(Run(config, steps), config, i);
  }

  /** Each `discover` sends at most max(1, limit) resumes. */
  lemma ResumesAreBounded(config: Config, steps: seq<Step>, i: nat)
    requires i < |Run(config, steps).tasks|
    ensures Run(config, steps).tasks[i].resumes <= Max(1, config.resumeRetryLimit)
  {
    RunKeepsInv(config, steps);
    assert TaskInv(Run(config, steps), config, i);
  }

  /**
   A task that has begun and not ended keeps its pending mark, and with it the reducer entry,
   exactly as long as no late cancel of an earlier task for the same thread overtakes it.
   */
  lemma ProtectedUnlessOvertaken(config: Config, steps: seq<Step>, i: nat)
    requires i < |Run(config, steps).tasks| && IsPending(Run(config, steps).tasks[i].pc)
    ensures var s := Run(config, steps);
            && (s.tasks[i].thread in s.core.subscribing <==> !s.tasks[i].overtaken)
            && (!s.tasks[i].overtaken ==> s.tasks[i].thread in s.core.snapshot.threads)
  {
    RunKeepsInv(config, steps);
    assert TaskInv(Run(config, steps), config, i);
  }

  function Solo(i: nat): Step {
    Advance(i, T.Closed, None)
  }

  lemma RunSnoc(config: Config, steps: seq<Step>, step: Step)
    ensures Run(config, steps + [step]) == Next(Run(config, steps), config, step)
  {
    IterateSnoc(INIT, steps, step, NextOf(config));
  }

  /** The state after the first task of a fresh system stands at `pc`. */
  function FirstAt(id: string, states: Table, core: Core, resumes: nat, told: seq<T.Outcome>, pc: Pc): State {
    State(states, core, [Task(id, ThreadStarted, 1, resumes, told, false, pc)])
  }

  lemma FirstTaskWaitsToResume(config: Config, id: string) returns (steps: seq<Step>)
    requires config.subscriptionCap > 0
    ensures Run(config, steps) ==
            FirstAt(id, map[id := Subscribing(ThreadStarted, 1)], BeginSubscription(EMPTY_CORE, id), 0, [], Resume)
  {
    steps := [Discover(id, ThreadStarted)];
    RunSnoc(config, [], Discover(id, ThreadStarted));
    assert [] + steps == steps;
    assert Managed(INIT.states) == {};
    assert Run(config, steps) == INIT.(tasks := [Task(id, ThreadStarted, 0, 0, [], false, Claim)]);
    RunSnoc(config, steps, Solo(0));
    steps := steps + [Solo(0)];
    assert Run(config, steps) == FirstAt(id, map[id := Subscribing(ThreadStarted, 1)], EMPTY_CORE, 0, [], Begins);
    RunSnoc(config, steps, Solo(0));
    steps := steps + [Solo(0)];
  }

  lemma FailedTaskCanWait(config: Config, id: string) returns (steps: seq<Step>)
    requires config.subscriptionCap > 0
    ensures Run(config, steps) ==
            FirstAt(id, map[id := Failed], BeginSubscription(EMPTY_CORE, id), 1, [T.Closed], Cancels(false))
  {
    steps := FirstTaskWaitsToResume(config, id);
    var claimed, core := map[id := Subscribing(ThreadStarted, 1)], BeginSubscription(EMPTY_CORE, id);
    RunSnoc(config, steps, Solo(0));
    steps := steps + [Solo(0)];
    assert Run(config, steps) == FirstAt(id, claimed, core, 1, [], Await);
    RunSnoc(config, steps, Solo(0));
    steps := steps + [Solo(0)];
    assert [] + [T.Closed] == [T.Closed];
    assert Run(config, steps) == FirstAt(id, claimed, core, 1, [T.Closed], MarkGaveUp(false));
    RunSnoc(config, steps, Solo(0));
    steps := steps + [Solo(0)];
  }

  /** A run that overtakes: the first task fails, a second begins, then the first one's cancel arrives. */
  lemma LateCancelUnprotects(config: Config, id: string) returns (steps: seq<Step>)
    requires config.subscriptionCap > 0
    ensures var s := Run(config, steps);
            |s.tasks| == 2 && s.tasks[1].thread == id && s.tasks[1].pc == Resume && s.tasks[1].overtaken &&
            id !in s.core.subscribing && id !in s.core.snapshot.threads
  {
    steps := FailedTaskCanWait(config, id);
    assert Managed(Run(config, steps).states) == {};
    RunSnoc(config, steps, Discover(id, ThreadStarted));
    steps := steps + [Discover(id, ThreadStarted)];
    RunSnoc(config, steps, Solo(1));
    steps := steps + [Solo(1)];
    assert Run(config, steps).tasks[1] == Task(id, ThreadStarted, 1, 0, [], false, Begins);
    RunSnoc(config, steps, Solo(1));
    steps := steps + [Solo(1)];
    assert Run(config, steps).core == BeginSubscription(EMPTY_CORE, id);
    RunSnoc(config, steps, Solo(0));
    steps := steps + [Solo(0)];
  }

  // ---------------------------------------------------------------- paged reconciliation

  datatype Listed = Listed(id: Option<string>, updatedAt: Option<U64>)

  datatype PageReply = RequestFailed | MalformedList | Page(data: seq<Listed>, hasNext: bool)

  /** What the daemon answers to the k-th `thread/list` request of a pass. */
  type Feed = nat -> PageReply

  datatype Entry = Entry(id: string, updated: nat)

  /** Listed threads without an id are skipped; a missing timestamp counts as 0. */
  function EntryOf(listed: Listed): seq<Entry> {
    if listed.id.None? then []
    else [Entry(listed.id.value, if listed.updatedAt.Some? then listed.updatedAt.value else 0)]
  }

  function Entries(data: seq<Listed>): seq<Entry> {
    if data == [] then [] else EntryOf(data[0]) + Entries(data[1..])
  }

  /** The one-shot listing behind the pages: up to `bound` of them, ending after one without a next cursor. */
  function Listing(feed: Feed, k: nat, bound: nat): seq<Entry>
    decreases bound - k
  {
    if k >= bound || !feed(k).Page? then []
    else Entries(feed(k).data) + (if feed(k).hasNext then Listing(feed, k + 1, bound) else [])
  }

  /** Whether following the cursors runs into a page that fails. */
  predicate RunsIntoFailure(feed: Feed, k: nat, bound: nat)
    decreases bound - k
  {
    k < bound && (!feed(k).Page? || (feed(k).hasNext && RunsIntoFailure(feed, k + 1, bound)))
  }

  predicate IsOld(e: Entry, mark: nat) {
    mark > 0 && e.updated <= mark
  }

  /** The entries before the first one at or below a nonzero watermark. */
  function Fresh(all: seq<Entry>, mark: nat): seq<Entry> {
    if all == [] || IsOld(all[0], mark) then [] else [all[0]] + Fresh(all[1..], mark)
  }

  function FirstN<X>(s: seq<X>, n: nat): seq<X> {
    if |s| <= n then s else s[..n]
  }

  function Ids(entries: seq<Entry>): seq<string> {
    seq(|entries|, i requires 0 <= i < |entries| => entries[i].id)
  }

  /** The candidates of a pass, in one shot. */
  function Candidates(all: seq<Entry>, mark: nat, limit: nat): seq<string> {
    FirstN(Ids(Fresh(all, mark)), limit)
  }

  /** Whether a pass over these entries stops before it needs another page. */
  predicate StopsWithin(all: seq<Entry>, mark: nat, limit: nat) {
    |Fresh(all, mark)| < |all| || |Fresh(all, mark)| >= limit
  }

  /** The entries a pass looks at: the candidates, and the old entry that ended it if one did. */
  function Examined(all: seq<Entry>, mark: nat, limit: nat): seq<Entry> {
    var n := |Fresh(all, mark)|;
    if n >= limit then FirstN(all, limit) else FirstN(all, n + 1)
  }

  function Newest(entries: seq<Entry>, mark: nat): nat {
    if entries == [] then mark else Max(Newest(entries[..|entries| - 1], mark), entries[|entries| - 1].updated)
  }

  lemma {:induction false} FreshIsPrefix(a: seq<Entry>, mark: nat)
    ensures |Fresh(a, mark)| <= |a| && Fresh(a, mark) == a[..|Fresh(a, mark)|]
  {
    if a != [] && !IsOld(a[0], mark) {
      var rest := Fresh(a[1..], mark);
      FreshIsPrefix(a[1..], mark);
      assert a == [a[0]] + a[1..];
      assert a[..1 + |rest|] == [a[0]] + a[1..][..|rest|];
    }
  }

  /** All of a listing is fresh exactly when its first entry is, and the rest. */
  lemma FreshOfAll(a: seq<Entry>, mark: nat)
    requires a != []
    ensures Fresh(a, mark) == a <==> !IsOld(a[0], mark) && Fresh(a[1..], mark) == a[1..]
  {
    assert a == [a[0]] + a[1..];
    if Fresh(a, mark) == a && !IsOld(a[0], mark) {
      assert Fresh(a, mark)[1..] == Fresh(a[1..], mark);
    }
  }

  lemma {:induction false} FreshOfConcat(a: seq<Entry>, b: seq<Entry>, mark: nat)
    ensures Fresh(a + b, mark) == if Fresh(a, mark) == a then a + Fresh(b, mark) else Fresh(a, mark)
    ensures |Fresh(a, mark)| <= |a| && Fresh(a, mark) == a[..|Fresh(a, mark)|]
  {
    FreshIsPrefix(a, mark);
    if a == [] {
      assert a + b == b;
    } else {
      FreshOfConcat(a[1..], b, mark);
      FreshOfAll(a, mark);
      assert (a + b)[1..] == a[1..] + b;
      assert a == [a[0]] + a[1..];
      assert ([a[0]] + a[1..]) + Fresh(b, mark) == [a[0]] + (a[1..] + Fresh(b, mark));
    }
  }

  /** Once a pass has stopped, whatever the listing goes on to say changes nothing. */
  lemma StoppedIsFinal(seen: seq<Entry>, rest: seq<Entry>, mark: nat, limit: nat)
    requires StopsWithin(seen, mark, limit)
    ensures StopsWithin(seen + rest, mark, limit)
    ensures Candidates(seen + rest, mark, limit) == Candidates(seen, mark, limit)
    ensures Examined(seen + rest, mark, limit) == Examined(seen, mark, limit)
  {
    FreshOfConcat(seen, rest, mark);
  }

  lemma Assoc<X>(a: seq<X>, b: seq<X>, c: seq<X>)
    ensures a + (b + c) == (a + b) + c
  {
  }

  /** All entries so far are fresh and below the limit: they are the candidates. */
  lemma StillRunning(done: seq<Entry>, mark: nat, limit: nat)
    requires Fresh(done, mark) == done && |done| < limit
    ensures Candidates(done, mark, limit) == Ids(done) && Examined(done, mark, limit) == done
  {
  }

  lemma NewestPush(entries: seq<Entry>, entry: Entry, mark: nat)
    ensures Newest(entries + [entry], mark) == Max(Newest(entries, mark), entry.updated)
  {
    assert (entries + [entry])[..|entries|] == entries;
  }

  lemma OldEndsFresh(done: seq<Entry>, tail: seq<Entry>, mark: nat, limit: nat)
    requires Fresh(done, mark) == done && |done| < limit && tail != [] && IsOld(tail[0], mark)
    ensures Fresh(done + tail, mark) == done && Examined(done + tail, mark, limit) == done + [tail[0]]
  {
    FreshOfConcat(done, tail, mark);
    assert Fresh(tail, mark) == [] && done + [] == done;
  }

  lemma StopsAtOld(done: seq<Entry>, entry: Entry, rest: seq<Entry>, mark: nat, limit: nat)
    requires Fresh(done, mark) == done && |done| < limit && IsOld(entry, mark)
    ensures var all := done + [entry] + rest;
            && Candidates(all, mark, limit) == Ids(done) && ReachedOld(all, mark, limit)
            && Newest(Examined(all, mark, limit), mark) == Max(Newest(done, mark), entry.updated)
  {
    Assoc(done, [entry], rest);
    OldEndsFresh(done, [entry] + rest, mark, limit);
    NewestPush(done, entry, mark);
  }

  lemma GoesOn(done: seq<Entry>, entry: Entry, mark: nat)
    requires Fresh(done, mark) == done && !IsOld(entry, mark)
    ensures Fresh(done + [entry], mark) == done + [entry] && Ids(done + [entry]) == Ids(done) + [entry.id]
    ensures Newest(done + [entry], mark) == Max(Newest(done, mark), entry.updated)
  {
    FreshOfConcat(done, [entry], mark);
    assert [entry][1..] == [];
    NewestPush(done, entry, mark);
  }

  lemma FullStops(now: seq<Entry>, rest: seq<Entry>, mark: nat, limit: nat)
    requires Fresh(now, mark) == now && |now| == limit
    ensures Candidates(now + rest, mark, limit) == Ids(now) && Examined(now + rest, mark, limit) == now
    ensures |Fresh(now + rest, mark)| >= limit
  {
    StoppedIsFinal(now, rest, mark, limit);
    FreshOfConcat(now, rest, mark);
  }

  lemma StopsAtLimit(done: seq<Entry>, entry: Entry, rest: seq<Entry>, mark: nat, limit: nat)
    requires Fresh(done, mark) == done && |done| + 1 == limit && !IsOld(entry, mark)
    ensures var all := done + [entry] + rest;
            && Candidates(all, mark, limit) == Ids(done) + [entry.id] && |Fresh(all, mark)| >= limit
            && Newest(Examined(all, mark, limit), mark) == Max(Newest(done, mark), entry.updated)
  {
    GoesOn(done, entry, mark);
    FullStops(done + [entry], rest, mark, limit);
  }

  /** Whether the entry that ends the examined part is an old one rather than the last that fits. */
  predicate ReachedOld(seen: seq<Entry>, mark: nat, limit: nat) {
    |Fresh(seen, mark)| < |seen| && |Fresh(seen, mark)| < limit
  }

  /** A pass that has not stopped has seen only fresh entries, fewer than the limit. */
  lemma NotStopped(seen: seq<Entry>, mark: nat, limit: nat)
    requires |Candidates(seen, mark, limit)| < limit && !ReachedOld(seen, mark, limit)
    ensures Fresh(seen, mark) == seen && |seen| < limit
  {
    FreshOfConcat(seen, [], mark);
  }

  /** Where a pass stands: the entries of the first `page` pages, and whether the last one had a next cursor. */
  datatype PassState = PassState(page: nat, seen: seq<Entry>, more: bool, ended: bool)

  /** The pages read and the pages to come make up the whole listing. */
  ghost predicate OnTrack(feed: Feed, bound: nat, mark: nat, limit: nat, p: PassState) {
    && p.page <= bound
    && Listing(feed, 0, bound) == p.seen + (if p.more then Listing(feed, p.page, bound) else [])
    && (RunsIntoFailure(feed, 0, bound) <==> p.more && RunsIntoFailure(feed, p.page, bound))
    && (p.ended <==> !p.more || ReachedOld(p.seen, mark, limit))
  }

  function NextPass(p: PassState, reply: PageReply, mark: nat, limit: nat): PassState
    requires reply.Page?
  {
    var seen := p.seen + Entries(reply.data);
    PassState(p.page + 1, seen, reply.hasNext, ReachedOld(seen, mark, limit) || !reply.hasNext)
  }

  lemma PassAdvances(feed: Feed, bound: nat, mark: nat, limit: nat, p: PassState)
    requires OnTrack(feed, bound, mark, limit, p) && p.page < bound && !p.ended && feed(p.page).Page?
    ensures OnTrack(feed, bound, mark, limit, NextPass(p, feed(p.page), mark, limit))
  {
    var reply := feed(p.page);
    Assoc(p.seen, Entries(reply.data), if reply.hasNext then Listing(feed, p.page + 1, bound) else []);
  }

  lemma PassFails(feed: Feed, bound: nat, mark: nat, limit: nat, p: PassState)
    requires OnTrack(feed, bound, mark, limit, p) && p.page < bound && !p.ended && !feed(p.page).Page?
    requires Fresh(p.seen, mark) == p.seen && |p.seen| < limit
    ensures RunsIntoFailure(feed, 0, bound) && !StopsWithin(Listing(feed, 0, bound), mark, limit)
  {
    assert p.seen + [] == p.seen;
  }

  /** Where the page loop ends, its candidates are those of the whole listing. */
  lemma PassEnds(feed: Feed, bound: nat, mark: nat, limit: nat, p: PassState)
    requires OnTrack(feed, bound, mark, limit, p)
    requires p.page == bound || p.ended || |Candidates(p.seen, mark, limit)| >= limit
    ensures var all := Listing(feed, 0, bound);
            && Candidates(all, mark, limit) == Candidates(p.seen, mark, limit)
            && Examined(all, mark, limit) == Examined(p.seen, mark, limit)
            && (RunsIntoFailure(feed, 0, bound) ==> StopsWithin(all, mark, limit))
  {
    var rest := if p.more then Listing(feed, p.page, bound) else [];
    if StopsWithin(p.seen, mark, limit) {
      StoppedIsFinal(p.seen, rest, mark, limit);
    } else {
      assert p.seen + rest == p.seen;
    }
  }

  ghost predicate NewestFirst(all: seq<Entry>) {
    forall i, j :: 0 <= i < j < |all| ==> all[i].updated >= all[j].updated
  }

  /** On a feed sorted newest first, a pass that no bound stopped finds exactly the entries above the watermark. */
  lemma SortedFeedYieldsAllNewer(all: seq<Entry>, mark: nat, limit: nat)
    requires NewestFirst(all) && |Fresh(all, mark)| <= limit
    ensures forall e <- all :: e.updated > mark ==> e.id in Candidates(all, mark, limit)
    ensures mark > 0 ==> forall e <- Fresh(all, mark) :: e in all && e.updated > mark
    ensures Candidates(all, mark, limit) == Ids(Fresh(all, mark))
  {
    FreshOfPrefix(all, all, mark);
    FreshStops(all, mark);
    forall e <- all | e.updated > mark ensures e.id in Candidates(all, mark, limit) {
      var i :| 0 <= i < |all| && all[i] == e;
      NewerIsFresh(all, mark, i);
      assert Ids(Fresh(all, mark))[i] == e.id;
    }
  }

  lemma NewerIsFresh(all: seq<Entry>, mark: nat, i: nat)
    requires NewestFirst(all) && i < |all| && all[i].updated > mark
    ensures i < |Fresh(all, mark)| && Fresh(all, mark)[i] == all[i]
  {
    FreshStops(all, mark);
    FreshOfPrefix(all, all, mark);
  }

  lemma {:induction false} FreshStops(all: seq<Entry>, mark: nat)
    ensures var n := |Fresh(all, mark)|;
            && n <= |all| && (forall i :: 0 <= i < n ==> !IsOld(all[i], mark))
            && (n < |all| ==> IsOld(all[n], mark))
  {
    if all != [] && !IsOld(all[0], mark) {
      FreshStops(all[1..], mark);
    }
  }

  /** More pages only ever extend the listing. */
  lemma {:induction false} ListingGrows(feed: Feed, k: nat, bound: nat, n: nat)
    requires bound <= n
    ensures Listing(feed, k, bound) <= Listing(feed, k, n)
    decreases bound - k
  {
    if k < bound && feed(k).Page? && feed(k).hasNext {
      ListingGrows(feed, k + 1, bound, n);
    }
  }

  lemma FreshOfPrefix(short: seq<Entry>, full: seq<Entry>, mark: nat)
    requires short <= full
    ensures |Fresh(full, mark)| <= |full| && Fresh(full, mark) == full[..|Fresh(full, mark)|]
    ensures Fresh(short, mark) == FirstN(Fresh(full, mark), |short|)
  {
    FreshOfConcat(short, full[|short|..], mark);
    assert short + full[|short|..] == full;
    FreshOfConcat(full, [], mark);
  }

  /** A pass over the first part of a listing takes the first fresh entries that fit both bounds. */
  lemma CandidatesOfPrefix(short: seq<Entry>, full: seq<Entry>, mark: nat, limit: nat)
    requires short <= full
    ensures Candidates(short, mark, limit) == FirstN(FirstN(Ids(Fresh(full, mark)), |short|), limit)
  {
    FreshOfPrefix(short, full, mark);
  }

  datatype PassResult = PassFailed | Found(candidates: seq<string>)

  /** A pass fails if it runs into a failing page before an old entry or the candidate limit stops it. */
  predicate PassFailsOn(feed: Feed, bound: nat, mark: nat, limit: nat) {
    RunsIntoFailure(feed, 0, bound) && !StopsWithin(Listing(feed, 0, bound), mark, limit)
  }

  /** The result of a pass, in one shot. */
  function PassOutcome(feed: Feed, bound: nat, mark: nat, limit: nat): PassResult {
    if PassFailsOn(feed, bound, mark, limit) then PassFailed
    else Found(Candidates(Listing(feed, 0, bound), mark, limit))
  }

  /** The watermark a pass leaves: a failed one leaves it alone. */
  function NextMark(feed: Feed, bound: nat, mark: nat, limit: nat): nat {
    if PassFailsOn(feed, bound, mark, limit) then mark
    else Newest(Examined(Listing(feed, 0, bound), mark, limit), mark)
  }

  /** The watermark after some passes over the same listing. */
  function MarkAfter(feed: Feed, bound: nat, mark: nat, limit: nat, passes: nat): nat {
    if passes == 0 then mark else NextMark(feed, bound, MarkAfter(feed, bound, mark, limit, passes - 1), limit)
  }

  /**
   Exactly when a pass misses nothing: both its bounds, the candidate limit and the pages it may read,
   leave room for every fresh entry of the listing, however many more pages `n` there are; and if one
   of the pages it may read fails, an old entry or the limit stops it first.
   */
  lemma PassFindsAllIff(feed: Feed, bound: nat, n: nat, mark: nat, limit: nat)
    requires bound <= n
    ensures var short, due := Listing(feed, 0, bound), Fresh(Listing(feed, 0, n), mark);
            PassOutcome(feed, bound, mark, limit) == Found(Ids(due)) <==>
            && |due| <= limit && |due| <= |short|
            && (RunsIntoFailure(feed, 0, bound) ==> |due| < |short| || |due| == limit)
  {
    ListingGrows(feed, 0, bound, n);
    var short, full := Listing(feed, 0, bound), Listing(feed, 0, n);
    CandidatesOfPrefix(short, full, mark, limit);
    FreshOfPrefix(short, full, mark);
    var due := Ids(Fresh(full, mark));
    if |due| > limit || |due| > |short| {
      assert |FirstN(FirstN(due, |short|), limit)| < |due|;
    }
  }

  /**
   What a bound cuts off stays cut off: after a pass over a sorted feed the watermark is the newest
   timestamp, so a second pass over the same feed has no candidates at all.
   */
  lemma SecondPassIsEmpty(all: seq<Entry>, mark: nat, limit: nat)
    requires NewestFirst(all)
    requires limit > 0 && Newest(Examined(all, mark, limit), mark) > 0
    ensures Candidates(all, Newest(Examined(all, mark, limit), mark), limit) == []
  {
    if all != [] {
      NewestCovers(Examined(all, mark, limit), mark, 0);
      assert Examined(all, mark, limit)[0] == all[0];
    }
  }

  ghost predicate DistinctThreads(all: seq<Entry>) {
    forall i, j :: 0 <= i < j < |all| ==> all[i].id != all[j].id
  }

  /** Whether some pass over the same listing, now or later, takes a thread. */
  ghost predicate EverTaken(id: string, feed: Feed, bound: nat, mark: nat, limit: nat) {
    exists passes: nat :: TakenBy(id, feed, bound, MarkAfter(feed, bound, mark, limit, passes), limit)
  }

  predicate TakenBy(id: string, feed: Feed, bound: nat, mark: nat, limit: nat) {
    var result := PassOutcome(feed, bound, mark, limit); result.Found? && id in result.candidates
  }

  /** A pass that fails once fails for good on the same listing. */
  lemma {:induction false} FailedPassesRepeat(feed: Feed, bound: nat, mark: nat, limit: nat, passes: nat)
    requires PassFailsOn(feed, bound, mark, limit)
    ensures MarkAfter(feed, bound, mark, limit, passes) == mark
  {
    if passes > 0 {
      FailedPassesRepeat(feed, bound, mark, limit, passes - 1);
    }
  }

  /** While every timestamp is 0 the watermark stays 0 and each pass is like the first. */
  lemma {:induction false} ZeroStaysZero(feed: Feed, bound: nat, limit: nat, passes: nat)
    requires forall e <- Listing(feed, 0, bound) :: e.updated == 0
    ensures MarkAfter(feed, bound, 0, limit, passes) == 0
  {
    if passes > 0 {
      ZeroStaysZero(feed, bound, limit, passes - 1);
      NewestOfZeros(Examined(Listing(feed, 0, bound), 0, limit));
    }
  }

  lemma {:induction false} NewestOfZeros(entries: seq<Entry>)
    requires forall e <- entries :: e.updated == 0
    ensures Newest(entries, 0) == 0
  {
    if entries != [] {
      NewestOfZeros(entries[..|entries| - 1]);
    }
  }

  /** After a pass that succeeded, the watermark is at or above the newest entry from then on. */
  lemma {:induction false} MarkCoversNewest(feed: Feed, bound: nat, mark: nat, limit: nat, passes: nat)
    requires var short := Listing(feed, 0, bound);
             NewestFirst(short) && short != [] && short[0].updated > 0
    requires !PassFailsOn(feed, bound, mark, limit) && limit > 0 && passes > 0
    ensures Listing(feed, 0, bound)[0].updated <= MarkAfter(feed, bound, mark, limit, passes)
  {
    var short, before := Listing(feed, 0, bound), MarkAfter(feed, bound, mark, limit, passes - 1);
    if passes > 1 {
      MarkCoversNewest(feed, bound, mark, limit, passes - 1);
    }
    if !PassFailsOn(feed, bound, before, limit) {
      NewestCovers(Examined(short, before, limit), before, 0);
      assert Examined(short, before, limit)[0] == short[0];
    }
  }

  /** So no later pass takes anything. */
  lemma LaterPassesTakeNothing(id: string, feed: Feed, bound: nat, mark: nat, limit: nat, passes: nat)
    requires NewestFirst(Listing(feed, 0, bound))
    requires Listing(feed, 0, bound) != [] ==> Listing(feed, 0, bound)[0].updated > 0
    requires !PassFailsOn(feed, bound, mark, limit) && passes > 0
    ensures !TakenBy(id, feed, bound, MarkAfter(feed, bound, mark, limit, passes), limit)
  {
    if Listing(feed, 0, bound) != [] && limit > 0 {
      MarkCoversNewest(feed, bound, mark, limit, passes);
    }
  }

  /**
   A bound skips threads for good, and so does a failing page. On a listing sorted newest first, a
   fresh thread is taken by some pass, however many follow, if and only if its place is within the
   candidate limit and within the pages a pass may read, and the first pass does not fail.
   */
  lemma EverTakenIff(feed: Feed, bound: nat, n: nat, mark: nat, limit: nat, i: nat)
    requires bound <= n && NewestFirst(Listing(feed, 0, n)) && DistinctThreads(Listing(feed, 0, n))
    requires i < |Fresh(Listing(feed, 0, n), mark)| <= |Listing(feed, 0, n)|
    ensures EverTaken(Listing(feed, 0, n)[i].id, feed, bound, mark, limit) <==>
            i < limit && i < |Listing(feed, 0, bound)| && !PassFailsOn(feed, bound, mark, limit)
  {
    ListingGrows(feed, 0, bound, n);
    var short, full := Listing(feed, 0, bound), Listing(feed, 0, n);
    FirstPassTakesIff(short, full, mark, limit, i);
    assert MarkAfter(feed, bound, mark, limit, 0) == mark;
    if TakenBy(full[i].id, feed, bound, mark, limit) {
      assert EverTaken(full[i].id, feed, bound, mark, limit);
    }
    forall passes: nat | TakenBy(full[i].id, feed, bound, MarkAfter(feed, bound, mark, limit, passes), limit)
      ensures TakenBy(full[i].id, feed, bound, mark, limit)
    {
      OnlyTheFirstPassTakes(full[i].id, feed, bound, n, mark, limit, passes);
    }
  }

  lemma OnlyTheFirstPassTakes(id: string, feed: Feed, bound: nat, n: nat, mark: nat, limit: nat, passes: nat)
    requires bound <= n && NewestFirst(Listing(feed, 0, n)) && Fresh(Listing(feed, 0, n), mark) != []
    requires TakenBy(id, feed, bound, MarkAfter(feed, bound, mark, limit, passes), limit)
    ensures TakenBy(id, feed, bound, mark, limit)
  {
    ListingGrows(feed, 0, bound, n);
    var short, full := Listing(feed, 0, bound), Listing(feed, 0, n);
    if passes > 0 {
      if PassFailsOn(feed, bound, mark, limit) {
        FailedPassesRepeat(feed, bound, mark, limit, passes);
      } else if full[0].updated > 0 {
        LaterPassesTakeNothing(id, feed, bound, mark, limit, passes);
      } else {
        ZeroPassesRepeat(feed, bound, full, mark, limit, passes);
      }
    }
  }

  lemma ZeroPassesRepeat(feed: Feed, bound: nat, full: seq<Entry>, mark: nat, limit: nat, passes: nat)
    requires Listing(feed, 0, bound) <= full && NewestFirst(full)
    requires Fresh(full, mark) != [] && full[0].updated == 0
    ensures mark == 0 && MarkAfter(feed, bound, mark, limit, passes) == mark
  {
    var short := Listing(feed, 0, bound);
    assert !IsOld(full[0], mark);
    forall e <- short ensures e.updated == 0 {
      var i :| 0 <= i < |short| && short[i] == e;
      assert full[i] == e;
    }
    ZeroStaysZero(feed, bound, limit, passes);
  }

  lemma FirstPassTakesIff(short: seq<Entry>, full: seq<Entry>, mark: nat, limit: nat, i: nat)
    requires short <= full && DistinctThreads(full) && i < |Fresh(full, mark)| <= |full|
    ensures full[i].id in Candidates(short, mark, limit) <==> i < limit && i < |short|
  {
    CandidatesOfPrefix(short, full, mark, limit);
    FreshOfPrefix(short, full, mark);
    var due, taken := Ids(Fresh(full, mark)), Candidates(short, mark, limit);
    assert due[i] == full[i].id;
    forall j | 0 <= j < |taken| ensures j < |full| && taken[j] == full[j].id {
      assert taken[j] == due[j];
    }
    if i < |taken| {
      assert taken[i] == full[i].id;
    }
  }

  function Row(id: string, updated: U64): Listed {
    Listed(Some(id), Some(updated))
  }

  /** Two threads on one page, the same two on a page each, and one with a failing page behind it. */
  function OnePage(newer: string, older: string): Feed {
    (k: nat) => Page([Row(newer, 2), Row(older, 1)], false)
  }

  function TwoPages(newer: string, older: string): Feed {
    (k: nat) => if k == 0 then Page([Row(newer, 2)], true) else Page([Row(older, 1)], false)
  }

  function BrokenPage(id: string): Feed {
    (k: nat) => if k == 0 then Page([Row(id, 2)], true) else RequestFailed
  }

  /** Before the first watermark every entry is fresh. */
  lemma {:induction false} EverythingIsFresh(all: seq<Entry>)
    ensures Fresh(all, 0) == all
  {
    if all != [] {
      EverythingIsFresh(all[1..]);
    }
  }

  /** Either bound alone skips the older of two threads from the very first pass on, and for good. */
  lemma BoundsSkipForGood(newer: string, older: string)
    requires newer != older
    ensures Listing(OnePage(newer, older), 0, 1) == Listing(TwoPages(newer, older), 0, 2) ==
            [Entry(newer, 2), Entry(older, 1)]
    ensures !EverTaken(older, OnePage(newer, older), 1, 0, 1)
    ensures !EverTaken(older, TwoPages(newer, older), 1, 0, 9)
  {
    var full := [Entry(newer, 2), Entry(older, 1)];
    TwoListings(newer, older);
    EverythingIsFresh(full);
    EverTakenIff(OnePage(newer, older), 1, 1, 0, 1, 1);
    EverTakenIff(TwoPages(newer, older), 1, 2, 0, 9, 1);
  }

  /** A failing page costs a thread that an earlier page listed, however often the pass is repeated. */
  lemma FailingPageSkipsForGood(id: string)
    ensures Listing(BrokenPage(id), 0, 2) == [Entry(id, 2)]
    ensures PassOutcome(BrokenPage(id), 2, 0, 9) == PassFailed && !EverTaken(id, BrokenPage(id), 2, 0, 9)
  {
    var row, all := [Row(id, 2)], [Entry(id, 2)];
    assert row[1..] == [];
    assert Entries(row) == all + Entries([]) == all;
    assert Listing(BrokenPage(id), 1, 2) == [];
    assert Listing(BrokenPage(id), 0, 2) == all + [] == all;
    EverythingIsFresh(all);
    assert RunsIntoFailure(BrokenPage(id), 1, 2);
    EverTakenIff(BrokenPage(id), 2, 2, 0, 9, 0);
  }

  lemma TwoListings(newer: string, older: string)
    ensures Listing(OnePage(newer, older), 0, 1) == [Entry(newer, 2), Entry(older, 1)]
    ensures Listing(TwoPages(newer, older), 0, 1) == [Entry(newer, 2)]
    ensures Listing(TwoPages(newer, older), 0, 2) == [Entry(newer, 2), Entry(older, 1)]
  {
    var one, other, both := [Row(newer, 2)], [Row(older, 1)], [Row(newer, 2), Row(older, 1)];
    assert one[1..] == [] && other[1..] == [] && both[1..] == other;
    assert Entries(one) == [Entry(newer, 2)] && Entries(other) == [Entry(older, 1)];
    assert Entries(both) == [Entry(newer, 2)] + Entries(other);
    assert Listing(TwoPages(newer, older), 1, 2) == Entries(other);
    assert Listing(TwoPages(newer, older), 1, 1) == [];
  }

  lemma {:induction false} NewestIsOne(entries: seq<Entry>, mark: nat)
    ensures mark <= Newest(entries, mark)
    ensures Newest(entries, mark) == mark ||
            exists i :: 0 <= i < |entries| && entries[i].updated == Newest(entries, mark)
  {
    if entries != [] {
      var front := entries[..|entries| - 1];
      NewestIsOne(front, mark);
      if Newest(entries, mark) != mark && Newest(entries, mark) != entries[|entries| - 1].updated {
        var i :| 0 <= i < |front| && front[i].updated == Newest(front, mark);
        assert entries[i] == front[i];
      }
    }
  }

  /** The highest of an old mark and the timestamps of some entries. */
  ghost predicate IsNewestOf(next: nat, mark: nat, entries: seq<Entry>) {
    && mark <= next
    && (next == mark || exists i :: 0 <= i < |entries| && entries[i].updated == next)
    && forall i :: 0 <= i < |entries| ==> entries[i].updated <= next
  }

  lemma NewestIsNewest(entries: seq<Entry>, mark: nat)
    ensures IsNewestOf(Newest(entries, mark), mark, entries)
  {
    NewestIsOne(entries, mark);
    forall i | 0 <= i < |entries| ensures entries[i].updated <= Newest(entries, mark) {
      NewestCovers(entries, mark, i);
    }
  }

  /**
   The watermark after a pass that succeeds is the newest of the old one and the timestamps of the
   entries the pass examined: it never goes back and never names a time that nothing was listed at.
   */
  lemma NextMarkIsNewest(feed: Feed, bound: nat, mark: nat, limit: nat)
    ensures var next := NextMark(feed, bound, mark, limit);
            if PassFailsOn(feed, bound, mark, limit) then next == mark
            else IsNewestOf(next, mark, Examined(Listing(feed, 0, bound), mark, limit))
  {
    NewestIsNewest(Examined(Listing(feed, 0, bound), mark, limit), mark);
  }

  /** The entries of a page are its rows with an id; a row without a timestamp counts as 0. */
  lemma {:induction false} EntriesAreRows(data: seq<Listed>, e: Entry)
    ensures e in Entries(data) <==>
            exists i :: 0 <= i < |data| && data[i].id == Some(e.id) &&
              ((data[i].updatedAt.Some? && data[i].updatedAt.value == e.updated) ||
               (data[i].updatedAt.None? && e.updated == 0))
  {
    if data != [] {
      EntriesAreRows(data[1..], e);
      assert forall i :: 0 <= i < |data| - 1 ==> data[1..][i] == data[i + 1];
      assert data == [data[0]] + data[1..];
      if e in Entries(data[1..]) {
        var i :| 0 <= i < |data| - 1 && data[1..][i].id == Some(e.id) &&
          ((data[1..][i].updatedAt.Some? && data[1..][i].updatedAt.value == e.updated) ||
           (data[1..][i].updatedAt.None? && e.updated == 0));
        assert data[i + 1] == data[1..][i];
      }
    }
  }

  lemma {:induction false} NewestCovers(entries: seq<Entry>, mark: nat, i: nat)
    requires i < |entries|
    ensures entries[i].updated <= Newest(entries, mark)
  {
    if i < |entries| - 1 {
      NewestCovers(entries[..|entries| - 1], mark, i);
    }
  }

  // ---------------------------------------------------------------- the ingestor object

  /** The resume loop alone: where it ends, and after how many requests. */
  function ResumeLoop(answer: nat -> T.Outcome, attempt: nat, limit: nat): (Move, nat)
    decreases if attempt < limit then limit - attempt else 0
  {
    var move := AfterResume(answer(attempt), attempt, limit);
    if move == Retry then ResumeLoop(answer, attempt + 1, limit) else (move, attempt)
  }

  function OutcomeOf(move: Move): DiscoveryOutcome {
    match move
    case Proceed => DiscoveredSubscribed
    case GiveUpEphemeral => DiscoveredEphemeral
    case _ => DiscoveryFailed
  }

  function EntryAfter(move: Move): SubscriptionState {
    match move
    case Proceed => Subscribed
    case GiveUpEphemeral => Ephemeral
    case _ => Failed
  }

  /** Attempt number `n` is the last: those before it were retriable, and it is not, or no attempt is left. */
  ghost predicate LastTry(answer: nat -> T.Outcome, limit: nat, n: nat) {
    && 1 <= n <= Max(1, limit)
    && (forall m :: 1 <= m < n ==> Retriable(answer(m)))
    && (n < limit ==> !Retriable(answer(n)))
  }

  lemma OneLastTry(answer: nat -> T.Outcome, limit: nat, a: nat, b: nat)
    requires LastTry(answer, limit, a) && LastTry(answer, limit, b)
    ensures a == b
  {
    assert a < b ==> Retriable(answer(a));
    assert b < a ==> Retriable(answer(b));
  }

  /** How a `discover` ends, by the answer to its last resume. */
  ghost predicate EndsBy(final: T.Outcome, outcome: DiscoveryOutcome, entry: SubscriptionState) {
    if final.Ok? then outcome == DiscoveredSubscribed && entry == Subscribed
    else if IsEphemeralRefusal(final) then outcome == DiscoveredEphemeral && entry == Ephemeral
    else outcome == DiscoveryFailed && entry == Failed
  }

  /** The resume loop ends with its last try, and by the answer to it. */
  lemma {:induction false} ResumeLoopSettles(answer: nat -> T.Outcome, attempt: nat, limit: nat) returns (n: nat)
    requires 1 <= attempt <= Max(1, limit) && forall m :: 1 <= m < attempt ==> Retriable(answer(m))
    ensures LastTry(answer, limit, n)
    ensures var (move, last) := ResumeLoop(answer, attempt, limit);
            last == n && EndsBy(answer(n), OutcomeOf(move), EntryAfter(move))
    decreases Max(1, limit) - attempt
  {
    if AfterResume(answer(attempt), attempt, limit) == Retry {
      n := ResumeLoopSettles(answer, attempt + 1, limit);
    } else {
      n := attempt;
    }
  }

  /** The reducer after a whole `discover` that nothing interrupted. */
  function CoreAfter(core: Core, id: string, move: Move, read: Option<ThreadRecord>): Core {
    var begun := BeginSubscription(core, id);
    if move != Proceed then CancelSubscription(begun, id)
    else if read.None? then FinishSubscription(begun, id)
    else ReconcileThread(FinishSubscription(begun, id), read.value)
  }

  // a task that no other step interrupts does what the sequential code does

  ghost predicate Reaches(s: State, t: State, config: Config) {
    exists steps: seq<Step> :: Iterate(s, steps, NextOf(config)) == t
  }

  lemma ReachesNext(s: State, t: State, config: Config, step: Step)
    requires Reaches(s, t, config)
    ensures Reaches(s, Next(t, config, step), config)
  {
    var steps: seq<Step> :| Iterate(s, steps, NextOf(config)) == t;
    IterateSnoc(s, steps, step, NextOf(config));
  }

  lemma ReachesItself(s: State, config: Config)
    ensures Reaches(s, s, config)
  {
    assert Iterate(s, [], NextOf(config)) == s;
  }

  /** One section of task `i`. */
  lemma ReachesSection(s: State, t: State, config: Config, i: nat, answer: T.Outcome, read: Option<ThreadRecord>)
    requires Reaches(s, t, config) && i < |t.tasks|
    ensures Reaches(s, AdvanceStep(t, config, i, answer, read), config)
  {
    ReachesNext(s, t, config, Advance(i, answer, read));
  }

  function PcAfter(move: Move): Pc {
    match move
    case Proceed => Finishes
    case GiveUpEphemeral => MarkGaveUp(true)
    case _ => MarkGaveUp(false)
  }

  /** Two tables that agree but for one thread. */
  ghost predicate SameBut(a: Table, b: Table, id: string) {
    a - {id} == b - {id}
  }

  lemma WriteIsSameBut(a: Table, id: string, entry: SubscriptionState)
    ensures SameBut(a[id := entry], a, id)
  {
  }

  lemma WriteHides(a: Table, b: Table, id: string, entry: SubscriptionState)
    requires SameBut(a, b, id)
    ensures a[id := entry] == b[id := entry]
  {
    forall k | k in a && k != id ensures k in b && a[k] == b[k] {
      assert k in a - {id} && (a - {id})[k] == a[k] && (b - {id})[k] == b[k];
    }
    forall k | k in b && k != id ensures k in a {
      assert k in b - {id};
    }
  }

  /** The task has settled its resume loop, with nothing changed but its own table entry. */
  ghost predicate Settled(s: State, t: State, i: nat, move: Move) {
    && |t.tasks| == |s.tasks| && i < |s.tasks| && t.core == s.core
    && t.tasks[i].thread == s.tasks[i].thread && t.tasks[i].pc == PcAfter(move)
    && SameBut(t.states, s.states, s.tasks[i].thread)
  }

  /** One resume is sent and answered. */
  lemma ResumeOnce(s: State, t: State, config: Config, i: nat, answer: T.Outcome) returns (u: State)
    requires Reaches(s, t, config) && i < |t.tasks| && t.tasks[i].pc == Resume
    ensures Reaches(s, u, config) && |u.tasks| == |t.tasks| && u.states == t.states && u.core == t.core
    ensures var k, move := t.tasks[i], AfterResume(answer, t.tasks[i].attempt, config.resumeRetryLimit);
            && u.tasks[i].thread == k.thread
            && (move == Retry ==> u.tasks[i].pc == MarkRetry && u.tasks[i].attempt == k.attempt + 1)
            && (move != Retry ==> u.tasks[i].pc == PcAfter(move))
  {
    var sent := AdvanceStep(t, config, i, T.Closed, None);
    ReachesSection(s, t, config, i, T.Closed, None);
    u := AdvanceStep(sent, config, i, answer, None);
    ReachesSection(s, sent, config, i, answer, None);
  }

  /** A task that may retry says so, waits, and is back at its resume. */
  lemma WaitOnce(s: State, t: State, config: Config, i: nat) returns (u: State)
    requires Reaches(s, t, config) && i < |t.tasks| && t.tasks[i].pc == MarkRetry
    ensures Reaches(s, u, config) && |u.tasks| == |t.tasks| && u.core == t.core
    ensures u.tasks[i].thread == t.tasks[i].thread && u.tasks[i].attempt == t.tasks[i].attempt
    ensures u.tasks[i].pc == Resume && SameBut(u.states, t.states, t.tasks[i].thread)
  {
    var waiting := AdvanceStep(t, config, i, T.Closed, None);
    ReachesSection(s, t, config, i, T.Closed, None);
    u := AdvanceStep(waiting, config, i, T.Closed, None);
    ReachesSection(s, waiting, config, i, T.Closed, None);
    var k := t.tasks[i];
    WriteIsSameBut(t.states, k.thread, RetryWait(k.attempt));
    WriteIsSameBut(waiting.states, k.thread, Subscribing(k.source, k.attempt));
  }

  ghost predicate AtResume(t: State, config: Config, i: nat) {
    i < |t.tasks| && t.tasks[i].pc == Resume && 1 <= t.tasks[i].attempt <= Max(1, config.resumeRetryLimit)
  }

  /** Task `i` is where it was, but for its attempt and its own table entry. */
  ghost predicate Since(t: State, again: State, i: nat) {
    && i < |t.tasks| == |again.tasks| && again.core == t.core && again.tasks[i].thread == t.tasks[i].thread
    && SameBut(again.states, t.states, t.tasks[i].thread)
  }

  lemma RetriesAlone(s: State, t: State, config: Config, i: nat, answer: T.Outcome) returns (u: State)
    requires Reaches(s, t, config) && AtResume(t, config, i)
    requires AfterResume(answer, t.tasks[i].attempt, config.resumeRetryLimit) == Retry
    ensures Reaches(s, u, config) && Since(t, u, i) && AtResume(u, config, i)
    ensures u.tasks[i].attempt == t.tasks[i].attempt + 1
  {
    var told := ResumeOnce(s, t, config, i, answer);
    u := WaitOnce(s, told, config, i);
  }

  lemma SettledSince(t: State, again: State, u: State, i: nat, move: Move)
    requires Settled(again, u, i, move) && Since(t, again, i)
    ensures Settled(t, u, i, move)
  {
  }

  lemma {:induction false} ResumesAlone(
    s: State, t: State, config: Config, i: nat, answer: nat -> T.Outcome, attempt: nat) returns (u: State)
    requires Reaches(s, t, config) && AtResume(t, config, i) && t.tasks[i].attempt == attempt
    ensures Reaches(s, u, config) && Settled(t, u, i, ResumeLoop(answer, attempt, config.resumeRetryLimit).0)
    decreases Max(1, config.resumeRetryLimit) - attempt
  {
    if AfterResume(answer(attempt), attempt, config.resumeRetryLimit) == Retry {
      var again := RetriesAlone(s, t, config, i, answer(attempt));
      u := ResumesAlone(s, again, config, i, answer, attempt + 1);
      SettledSince(t, again, u, i, ResumeLoop(answer, attempt + 1, config.resumeRetryLimit).0);
    } else {
      u := ResumeOnce(s, t, config, i, answer(attempt));
    }
  }

  lemma PromotesAlone(s: State, t: State, config: Config, i: nat, read: Option<ThreadRecord>) returns (u: State)
    requires Reaches(s, t, config) && i < |t.tasks| && t.tasks[i].pc == Finishes
    ensures Reaches(s, u, config) && |u.tasks| == |t.tasks| && u.tasks[i].pc == Done(DiscoveredSubscribed)
    ensures u.states == t.states[t.tasks[i].thread := Subscribed]
    ensures var finished := FinishSubscription(t.core, t.tasks[i].thread);
            u.core == if read.None? then finished else ReconcileThread(finished, read.value)
  {
    u := AdvanceStep(t, config, i, T.Closed, read);
    ReachesSection(s, t, config, i, T.Closed, read);
    var marked := AdvanceStep(u, config, i, T.Closed, read);
    ReachesSection(s, u, config, i, T.Closed, read);
    u := AdvanceStep(marked, config, i, T.Closed, read);
    ReachesSection(s, marked, config, i, T.Closed, read);
  }

  lemma GivesUpAlone(s: State, t: State, config: Config, i: nat) returns (u: State)
    requires Reaches(s, t, config) && i < |t.tasks| && t.tasks[i].pc.MarkGaveUp?
    ensures var ephemeral := t.tasks[i].pc.ephemeral;
            && Reaches(s, u, config) && |u.tasks| == |t.tasks|
            && u.tasks[i].pc == Done(if ephemeral then DiscoveredEphemeral else DiscoveryFailed)
            && u.states == t.states[t.tasks[i].thread := if ephemeral then Ephemeral else Failed]
            && u.core == CancelSubscription(t.core, t.tasks[i].thread)
  {
    var marked := AdvanceStep(t, config, i, T.Closed, None);
    ReachesSection(s, t, config, i, T.Closed, None);
    u := AdvanceStep(marked, config, i, T.Closed, None);
    ReachesSection(s, marked, config, i, T.Closed, None);
  }

  /** The task has claimed its thread and begun. */
  lemma ClaimsAlone(s: State, config: Config, i: nat) returns (t: State)
    requires i < |s.tasks| && s.tasks[i].pc == Claim
    requires s.tasks[i].thread !in Managed(s.states) && |Managed(s.states)| < config.subscriptionCap
    ensures var id := s.tasks[i].thread;
            && Reaches(s, t, config) && |t.tasks| == |s.tasks| && t.tasks[i].thread == id
            && t.tasks[i].pc == Resume && t.tasks[i].attempt == 1
            && t.core == BeginSubscription(s.core, id) && SameBut(t.states, s.states, id)
  {
    ReachesItself(s, config);
    var claimed := AdvanceStep(s, config, i, T.Closed, None);
    ReachesSection(s, s, config, i, T.Closed, None);
    t := AdvanceStep(claimed, config, i, T.Closed, None);
    ReachesSection(s, claimed, config, i, T.Closed, None);
    WriteIsSameBut(s.states, s.tasks[i].thread, Subscribing(s.tasks[i].source, 1));
  }

  /** The result of a whole `discover` that nothing interrupts. */
  ghost predicate IsSequential(
    s: State, t: State, config: Config, i: nat, answer: nat -> T.Outcome, read: Option<ThreadRecord>)
    requires i < |s.tasks| && i < |t.tasks|
  {
    var id, move := s.tasks[i].thread, ResumeLoop(answer, 1, config.resumeRetryLimit).0;
    if id in Managed(s.states) then
      t.tasks[i].pc == Done(AlreadyManaged) && t.states == s.states && t.core == s.core
    else if |Managed(s.states)| >= config.subscriptionCap then
      t.tasks[i].pc == Done(OverCapacity) && t.states == s.states[id := CapacityDegraded] && t.core == s.core
    else
      && t.tasks[i].pc == Done(OutcomeOf(move)) && t.states == s.states[id := EntryAfter(move)]
      && t.core == CoreAfter(s.core, id, move, read)
  }

  lemma EndsAlone(
    s: State, t: State, config: Config, i: nat, answer: nat -> T.Outcome, read: Option<ThreadRecord>) returns (u: State)
    requires i < |s.tasks| && Reaches(s, t, config) && SameBut(t.states, s.states, s.tasks[i].thread)
    requires s.tasks[i].thread !in Managed(s.states) && |Managed(s.states)| < config.subscriptionCap
    requires i < |t.tasks| && t.tasks[i].thread == s.tasks[i].thread
    requires t.tasks[i].pc == PcAfter(ResumeLoop(answer, 1, config.resumeRetryLimit).0)
    requires ResumeLoop(answer, 1, config.resumeRetryLimit).0 != Retry
    requires t.core == BeginSubscription(s.core, s.tasks[i].thread)
    ensures Reaches(s, u, config) && i < |u.tasks| && IsSequential(s, u, config, i, answer, read)
  {
    var id := s.tasks[i].thread;
    WriteHides(t.states, s.states, id, EntryAfter(ResumeLoop(answer, 1, config.resumeRetryLimit).0));
    if t.tasks[i].pc == Finishes {
      u := PromotesAlone(s, t, config, i, read);
    } else {
      u := GivesUpAlone(s, t, config, i);
    }
  }

  lemma {:induction false} NeverEndsInRetry(answer: nat -> T.Outcome, attempt: nat, limit: nat)
    ensures ResumeLoop(answer, attempt, limit).0 != Retry
    decreases if attempt < limit then limit - attempt else 0
  {
    if AfterResume(answer(attempt), attempt, limit) == Retry {
      NeverEndsInRetry(answer, attempt + 1, limit);
    }
  }

  /**
   The concurrent task is the sequential code cut into sections: where nothing comes in between, it ends
   with the outcome, the table and the reducer that a whole `discover` has.
   */
  lemma AloneIsSequential(
    s: State, config: Config, i: nat, answer: nat -> T.Outcome, read: Option<ThreadRecord>) returns (t: State)
    requires i < |s.tasks| && s.tasks[i].pc == Claim
    ensures Reaches(s, t, config) && i < |t.tasks| && IsSequential(s, t, config, i, answer, read)
  {
    if s.tasks[i].thread in Managed(s.states) || |Managed(s.states)| >= config.subscriptionCap {
      ReachesItself(s, config);
      t := AdvanceStep(s, config, i, T.Closed, None);
      ReachesSection(s, s, config, i, T.Closed, None);
    } else {
      var begun := ClaimsAlone(s, config, i);
      var settled := ResumesAlone(s, begun, config, i, answer, 1);
      NeverEndsInRetry(answer, 1, config.resumeRetryLimit);
      t := EndsAlone(s, settled, config, i, answer, read);
    }
  }

  /** What the clocks say when an anchor is recorded, and how large its encoding is. */
  datatype AnchorStamp = AnchorStamp(unixMs: U64, elapsedMs: U64, encodedLen: nat)

  /** The turn a read after the resume shows in flight. */
  function InFlight(read: Option<ThreadRecord>): Option<string> {
    if read.Some? && read.value.turns.Some? then InFlightTurn(read.value.turns.value) else None
  }

  /** What the store's history gains: the anchor of the turn in flight, unless its genuine start is retained. */
  ghost function Anchors(
    events: seq<SequencedEvent>, sequence: Sequence, id: string, turn: Option<string>, stamp: AnchorStamp)
    : seq<SequencedEvent>
  {
    if turn.None? || exists e <- events :: Storage.IsGenuineStart(e, id, turn.value) then []
    else [ReconstructedActiveTurn(sequence, stamp.unixMs, stamp.elapsedMs, id, turn.value, stamp.encodedLen)]
  }

  class ThreadIngestor {
    const config: Config
    const pageBound: nat
    const candidateLimit: nat
    const reducer: Reducer
    const store: Storage.EventStore?
    var states: Table
    var watermark: nat

    constructor (
      config: Config, pageBound: nat, candidateLimit: nat, reducer: Reducer, store: Storage.EventStore?)
      ensures this.config == config && this.pageBound == pageBound && this.candidateLimit == candidateLimit
      ensures this.reducer == reducer && this.store == store && states == map[] && watermark == 0
    {
      this.store := store;
      this.config, this.pageBound, this.candidateLimit, this.reducer := config, pageBound, candidateLimit, reducer;
      states, watermark := map[], 0;
    }

    /** The resume loop, which records every retry in the table. */
    method ResumeUntilSettled(id: string, source: DiscoverySource, answer: nat -> T.Outcome)
      returns (move: Move, resumes: nat)
      requires id in states
      modifies this`states
      ensures id in states && states == old(states)[id := states[id]]
      ensures (move, resumes) == ResumeLoop(answer, 1, config.resumeRetryLimit)
      ensures move != Retry && resumes <= Max(1, config.resumeRetryLimit)
    {
      var limit, attempt := config.resumeRetryLimit, 1;
      while true
        invariant 1 <= attempt <= Max(1, limit)
        invariant id in states && states == old(states)[id := states[id]]
        invariant ResumeLoop(answer, attempt, limit) == ResumeLoop(answer, 1, limit)
        decreases Max(1, limit) - attempt
      {
        move := AfterResume(answer(attempt), attempt, limit);
        if move != Retry {
          resumes := attempt;
          return;
        }
        attempt := attempt + 1;
        states := states[id := RetryWait(attempt)];
        states := states[id := Subscribing(source, attempt)];
      }
    }

    /** The first section of `discover`, under the table lock; `None` means the thread is now claimed. */
    method ClaimEntry(id: string, source: DiscoverySource) returns (refused: Option<DiscoveryOutcome>)
      modifies this`states
      ensures refused == if id in Managed(old(states)) then Some(AlreadyManaged)
                         else if |Managed(old(states))| >= config.subscriptionCap then Some(OverCapacity)
                         else None
      ensures states == match refused
                        case None => old(states)[id := Subscribing(source, 1)]
                        case Some(outcome) =>
                          if outcome == OverCapacity then old(states)[id := CapacityDegraded] else old(states)
    {
      if id in states && IsManaged(states[id]) {
        return Some(AlreadyManaged);
      }
      if |Managed(states)| >= config.subscriptionCap {
        states := states[id := CapacityDegraded];
        return Some(OverCapacity);
      }
      states := states[id := Subscribing(source, 1)];
      refused := None;
    }

    ghost predicate StoreValid()
      reads this, store
    {
      store != null ==> store.Valid()
    }

    /** Records an anchor for a turn that was in flight before the subscription. */
    method AnchorActiveTurn(id: string, turn: Option<string>, stamp: AnchorStamp)
      requires StoreValid()
      modifies store
      ensures StoreValid()
      ensures store != null ==>
                store.history == old(store.history) + Anchors(old(store.events), reducer.atSequence, id, turn, stamp)
    {
      if store != null && turn.Some? {
        var _ := store.RecordReconstructedActiveTurn(
          reducer.atSequence, stamp.unixMs, stamp.elapsedMs, id, turn.value, stamp.encodedLen);
      }
    }

    /** The tail of a successful `discover`: promotion, table entry, read and anchor. */
    method PromoteSubscription(id: string, read: Option<ThreadRecord>, stamp: AnchorStamp)
      requires reducer.Valid() && StoreValid()
      modifies this`states, reducer`threads, reducer`subscribing, store
      ensures reducer.Valid() && StoreValid() && states == old(states)[id := Subscribed]
      ensures var finished := FinishSubscription(old(reducer.State()), id);
              reducer.State() == if read.None? then finished else ReconcileThread(finished, read.value)
      ensures store != null ==>
                store.history ==
                old(store.history) + Anchors(old(store.events), reducer.atSequence, id, InFlight(read), stamp)
    {
      reducer.Finish(id);
      states := states[id := Subscribed];
      if read.Some? {
        reducer.ReconcileRead(read.value);
      }
      AnchorActiveTurn(id, InFlight(read), stamp);
    }

    /** The tail of a failed `discover`: the table entry first, then the reducer. */
    method GiveUpSubscription(id: string, ephemeral: bool) returns (outcome: DiscoveryOutcome)
      requires reducer.Valid()
      modifies this`states, reducer`threads, reducer`subscribing
      ensures reducer.Valid() && reducer.State() == CancelSubscription(old(reducer.State()), id)
      ensures states == old(states)[id := if ephemeral then Ephemeral else Failed]
      ensures outcome == if ephemeral then DiscoveredEphemeral else DiscoveryFailed
    {
      states := states[id := if ephemeral then Ephemeral else Failed];
      reducer.Cancel(id);
      outcome := if ephemeral then DiscoveredEphemeral else DiscoveryFailed;
    }

    /** What `discover` does once it has claimed the thread. */
    method SubscribeClaimed(
      id: string, source: DiscoverySource, answer: nat -> T.Outcome, read: Option<ThreadRecord>, stamp: AnchorStamp)
      returns (outcome: DiscoveryOutcome, resumes: nat)
      requires reducer.Valid() && id in states && StoreValid()
      modifies this`states, reducer`threads, reducer`subscribing, store
      ensures StoreValid()
      ensures var move := ResumeLoop(answer, 1, config.resumeRetryLimit).0;
              store != null ==>
                store.history == old(store.history) +
                  if move == Proceed
                  then Anchors(old(store.events), reducer.atSequence, id, InFlight(read), stamp) else []
      ensures reducer.Valid() && resumes <= Max(1, config.resumeRetryLimit)
      ensures var move := ResumeLoop(answer, 1, config.resumeRetryLimit).0;
              && resumes == ResumeLoop(answer, 1, config.resumeRetryLimit).1 && outcome == OutcomeOf(move)
              && states == old(states)[id := EntryAfter(move)]
              && reducer.State() == CoreAfter(old(reducer.State()), id, move, read)
    {
      reducer.Begin(id);
      var move;
      move, resumes := ResumeUntilSettled(id, source, answer);
      if move == Proceed {
        PromoteSubscription(id, read, stamp);
        return DiscoveredSubscribed, resumes;
      }
      outcome := GiveUpSubscription(id, move == GiveUpEphemeral);
    }

    /** `discover` with no other task in between; `answer(n)` is what the n-th resume gets. */
    method DiscoverThread(
      id: string, source: DiscoverySource, answer: nat -> T.Outcome, read: Option<ThreadRecord>, stamp: AnchorStamp)
      returns (outcome: DiscoveryOutcome, resumes: nat)
      requires reducer.Valid() && StoreValid()
      modifies this`states, reducer`threads, reducer`subscribing, store
      ensures StoreValid()
      ensures store != null ==>
                store.history == old(store.history) +
                  if outcome == DiscoveredSubscribed
                  then Anchors(old(store.events), reducer.atSequence, id, InFlight(read), stamp) else []
      ensures reducer.Valid() && resumes <= Max(1, config.resumeRetryLimit)
      ensures id in Managed(old(states)) ==>
                && outcome == AlreadyManaged && resumes == 0
                && states == old(states) && reducer.State() == old(reducer.State())
      ensures id !in Managed(old(states)) && |Managed(old(states))| >= config.subscriptionCap ==>
                && outcome == OverCapacity && resumes == 0 && reducer.State() == old(reducer.State())
                && states == old(states)[id := CapacityDegraded]
      ensures id !in Managed(old(states)) && |Managed(old(states))| < config.subscriptionCap ==>
                var move := ResumeLoop(answer, 1, config.resumeRetryLimit).0;
                && resumes == ResumeLoop(answer, 1, config.resumeRetryLimit).1 && outcome == OutcomeOf(move)
                && states == old(states)[id := EntryAfter(move)]
                && reducer.State() == CoreAfter(old(reducer.State()), id, move, read)
      ensures id !in Managed(old(states)) && |Managed(old(states))| < config.subscriptionCap ==>
                && LastTry(answer, config.resumeRetryLimit, resumes) && id in states
                && EndsBy(answer(resumes), outcome, states[id])
    {
      ghost var last := ResumeLoopSettles(answer, 1, config.resumeRetryLimit);
      var refused := ClaimEntry(id, source);
      if refused.Some? {
        return refused.value, 0;
      }
      outcome, resumes := SubscribeClaimed(id, source, answer, read, stamp);
    }

    /**
     The listing half of `reconcile`. It fails exactly when it runs into a failing page before any
     bound stops it, and then leaves the watermark alone; otherwise its candidates are the one-shot ones.
     */
    method FindCandidates(feed: Feed) returns (result: PassResult)
      modifies this`watermark
      ensures result == PassOutcome(feed, pageBound, old(watermark), candidateLimit)
      ensures watermark == NextMark(feed, pageBound, old(watermark), candidateLimit)
      ensures result.PassFailed? ==> watermark == old(watermark)
    {
      var mark, limit := watermark, candidateLimit;
      var newest := mark;
      var candidates: seq<string> := [];
      var page, ended := 0, false;
      ghost var pass := PassState(0, [], true, false);
      while page < pageBound && !ended && |candidates| < limit
        invariant page == pass.page && ended == pass.ended && watermark == mark
        invariant OnTrack(feed, pageBound, mark, limit, pass)
        invariant candidates == Candidates(pass.seen, mark, limit)
        invariant newest == Newest(Examined(pass.seen, mark, limit), mark)
        decreases pageBound - page
      {
        NotStopped(pass.seen, mark, limit);
        StillRunning(pass.seen, mark, limit);
        var reply := feed(page);
        if !reply.Page? {
          PassFails(feed, pageBound, mark, limit, pass);
          return PassFailed;
        }
        var reached;
        candidates, newest, reached := ScanPage(reply.data, mark, candidates, newest, pass.seen);
        ended := reached || !reply.hasNext;
        page := page + 1;
        PassAdvances(feed, pageBound, mark, limit, pass);
        pass := NextPass(pass, reply, mark, limit);
      }
      PassEnds(feed, pageBound, mark, limit, pass);
      watermark := newest;
      result := Found(candidates);
    }

    /** The inner loop over one page, given the entries `seen` on earlier pages. */
    method ScanPage(data: seq<Listed>, mark: nat, before: seq<string>, newestBefore: nat, ghost seen: seq<Entry>)
      returns (candidates: seq<string>, newest: nat, reached: bool)
      requires Fresh(seen, mark) == seen && |seen| < candidateLimit
      requires before == Ids(seen) && newestBefore == Newest(seen, mark)
      ensures var all := seen + Entries(data);
              && candidates == Candidates(all, mark, candidateLimit)
              && newest == Newest(Examined(all, mark, candidateLimit), mark)
              && (reached <==> ReachedOld(all, mark, candidateLimit))
    {
      candidates, newest, reached := before, newestBefore, false;
      ghost var all, done := seen + Entries(data), seen;
      assert data[0..] == data;
      for i := 0 to |data|
        invariant !reached && done + Entries(data[i..]) == all
        invariant Fresh(done, mark) == done && |done| < candidateLimit
        invariant candidates == Ids(done) && newest == Newest(done, mark)
      {
        ghost var rest := Entries(data[i + 1..]);
        assert data[i..][1..] == data[i + 1..];
        Assoc(done, EntryOf(data[i]), rest);
        if data[i].id.Some? {
          var entry := Entry(data[i].id.value, if data[i].updatedAt.Some? then data[i].updatedAt.value else 0);
          newest := Max(newest, entry.updated);
          if mark > 0 && entry.updated <= mark {
            reached := true;
            StopsAtOld(done, entry, rest, mark, candidateLimit);
            return;
          }
          candidates := candidates + [entry.id];
          if |candidates| >= candidateLimit {
            StopsAtLimit(done, entry, rest, mark, candidateLimit);
            return;
          }
          GoesOn(done, entry, mark);
          done := done + [entry];
        } else {
          assert done + EntryOf(data[i]) == done;
        }
      }
      StillRunning(done, mark, candidateLimit);
      assert done + Entries(data[|data|..]) == done;
    }
  }
}
