/** The run lifecycle as a step system: any number of runs over any number of managers share one
    coordinator and one durable store. Every lock section, every durable write and every unlocked
    read of a stop flag is one step; stops, preemption callbacks, shutdown, evictions and crashes
    may come between any two steps of a run. */
module Lifecycle {
  import opened Wrappers
  import opened RunResources
  import opened Coordinator
  import opened LiveState

  type RunId = string
  type ManagerId = string

  const FINALIZATION_PERSIST_ATTEMPTS := 3

  datatype Spec = Spec(
    manager: ManagerId,
    priority: int,
    resources: seq<RunResource>,
    forceAfter: Option<real>,
    preemptible: bool,
    maxRetries: nat)

  /** What follows the sealing of a retry: another round of the loop, or completion. */
  datatype Next = Again(round: nat) | Complete(status: TerminalStatus)

  /** What a retry comes to: its status, the status of the run if it is to end, and whether another retry is wanted. */
  datatype Verdict = Verdict(retryStatus: TerminalStatus, runStatus: Option<TerminalStatus>, again: bool)

  /** Where the thread of a run stands. `round` is the loop variable of the retry loop. */
  datatype Pc =
    | LoopHead(round: nat)
    | Opening(round: nat)
    | Hooks(round: nat)
    | Claiming(deadline: real)
    | Granted
    | Command(round: nat)
    | Deciding(round: nat)
    | Judged(round: nat, verdict: Verdict)
    | Concluding(round: nat, verdict: Verdict)
    | Sealing(retryStatus: TerminalStatus, next: Next)
    | Leaving(status: TerminalStatus)
    | Persisting(status: TerminalStatus, failures: nat, handler: bool)
    | Upserted(status: TerminalStatus, failures: nat, handler: bool)
    | Publishing(status: TerminalStatus)
    | Releasing
    | Done
    | Handling
    | HandlerSealing
    | Stuck

  /** `unannounced` says that the thread has appended to its log and not yet told the manager. */
  datatype Thread = Thread(spec: Spec, live: Run, pc: Pc, position: nat, granted: bool, unannounced: bool)

  datatype Manager = Manager(registered: set<RunId>, current: Option<RunId>, closing: bool)

  /** One entry of the history of preemption requests, with both leases as they were. */
  datatype Request = Request(kind: Callback, holder: Lease, claim: Lease, at: real)

  datatype State = State(
    clock: real,
    threads: map<RunId, Thread>,
    table: Table,
    closing: bool,
    managers: map<ManagerId, Manager>,
    pending: set<(RunId, Callback)>,
    durable: map<RunId, RecordStatus>,
    recovery: Option<set<RunId>>,
    // history
    used: set<RunId>,
    published: map<RunId, Status>,
    requests: map<RunId, seq<Request>>)

  datatype LocalStep =
    | CheckLoop
    | OpenRetry
    | Note(text: string)
    | Output(text: string)
    | Announce
    | StartDecision(retryStatus: TerminalStatus, runStatus: TerminalStatus)
    | Proceed(timeout: real)
    | EnterCommand
    | EndCommand
    | Evaluate(verdict: Verdict, stopped: bool)
    | NoResult
    | Decide(updated: Option<Verdict>)
    | Conclude(finish: Option<TerminalStatus>)
    | Seal
    | Leave
    | WriteFails
    | SyncFails
    | SyncSucceeds
    | Raise
    | HandlerEvent(text: string)
    | HandlerSeal
    | HandlerRaises

  datatype Step =
    | Local(id: RunId, local: LocalStep)
    | AttemptClaim(id: RunId, onConflict: TerminalStatus)
    | WriteMetadata(id: RunId)
    | Upsert(id: RunId)
    | Publish(id: RunId)
    | Release(id: RunId)
    | Stop(id: RunId, text: string)
    | ForceStop(id: RunId, text: string)
    | Deliver(target: RunId, callback: Callback, text: string)
    | Start(manager: ManagerId, id: RunId, spec: Spec, created: bool, threadStarts: bool)
    | DiscardTerminal(id: RunId)
    | Evict(ids: set<RunId>)
    | CloseCoordinator
    | CloseManager(manager: ManagerId)
    | Tick(elapsed: real)
    | Crash(halfStarted: Option<RunId>)
    | RecoverRecord(id: RunId)
    | Restart

  // ---------------------------------------------------------------------------
  // The thread of one run
  // ---------------------------------------------------------------------------

  /** The thread holds a retry of its own that it has not sealed yet. */
  predicate InRetry(pc: Pc) {
    pc.Hooks? || pc.Claiming? || pc.Granted? || pc.Command? || pc.Deciding? || pc.Judged? || pc.Concluding? || pc.Sealing?
  }

  /** Positions in which the thread reads the output of a process: its scripts and its main command. */
  predicate Prints(pc: Pc) {
    pc.Hooks? || pc.Command? || pc.Judged? || pc.Sealing?
  }

  const STOP_VERDICT := Verdict(Stopped, Some(Stopped), false)

  /** A decision once the loop has seen a stop request. */
  function Halted(verdict: Verdict): Verdict {
    Verdict(if verdict.retryStatus == Failed then Stopped else verdict.retryStatus,
            if verdict.runStatus.None? then Some(Stopped) else verdict.runStatus, false)
  }

  /** The status a decision gives the run it ends. */
  function CompletionOf(verdict: Verdict): TerminalStatus {
    if verdict.runStatus.Some? then verdict.runStatus.value else verdict.retryStatus
  }

  function AfterFailure(status: TerminalStatus, failures: nat, handler: bool): Pc {
    if failures + 1 < FINALIZATION_PERSIST_ATTEMPTS then Persisting(status, failures + 1, handler)
    else if handler then Stuck
    else Handling
  }

  /** A thread that has output to announce does so before anything else. */
  function LocalNext(t: Thread, step: LocalStep, clock: real): Thread {
    if t.unannounced then (if step.Announce? then t.(unannounced := false) else t) else FreeNext(t, step, clock)
  }

  function FreeNext(t: Thread, step: LocalStep, clock: real): Thread {
    match step
    case CheckLoop =>
      if !t.pc.LoopHead? then t
      else if t.pc.round > t.spec.maxRetries then t.(pc := Leaving(if t.live.stopRequested then Stopped else Failed))
      else if t.live.stopRequested then t.(pc := Leaving(Stopped))
      else t.(pc := Opening(t.pc.round))
    case OpenRetry =>
      if !t.pc.Opening? then t
      else t.(live := BeginRetry(t.live), position := |t.live.retries|, pc := Hooks(t.pc.round))
    case Note(text) =>
      if !InRetry(t.pc) then t else t.(live := AppendEvent(t.live, text))
    case Output(text) =>
      if !Prints(t.pc) || t.position >= |t.live.retries| then t
      else t.(live := AppendLog(t.live, t.position, text), unannounced := true)
    case Announce => t
    case StartDecision(retryStatus, runStatus) =>
      if !t.pc.Hooks? then t else t.(pc := Sealing(retryStatus, Complete(runStatus)))
    case Proceed(timeout) =>
      if !t.pc.Hooks? || t.live.stopRequested then t
      else if t.pc.round != 1 then t.(pc := Command(t.pc.round))
      else if t.spec.resources == [] then t.(pc := Granted)
      else t.(pc := Claiming(clock + if timeout < 0.0 then 0.0 else timeout))
    case EnterCommand =>
      if !t.pc.Granted? then t
      else if t.live.stopRequested then t.(pc := Sealing(Stopped, Complete(Stopped)))
      else t.(pc := Command(1))
    case EndCommand =>
      if !t.pc.Command? then t else t.(pc := Deciding(t.pc.round))
    case Evaluate(verdict, stopped) =>
      if !t.pc.Deciding? then t
      else t.(pc := Judged(t.pc.round, if stopped || t.live.stopRequested then STOP_VERDICT else verdict))
    case NoResult =>
      if !t.pc.Deciding? then t else t.(pc := Judged(t.pc.round, Verdict(Failed, None, false)))
    case Decide(updated) =>
      if !t.pc.Judged? then t
      else
        var verdict := if updated.Some? then updated.value else t.pc.verdict;
        t.(pc := Concluding(t.pc.round, if t.live.stopRequested then Halted(verdict) else verdict))
    case Conclude(finish) =>
      if !t.pc.Concluding? then t
      else if t.pc.verdict.again && t.pc.round < t.spec.maxRetries && !t.live.stopRequested
      then t.(pc := Sealing(t.pc.verdict.retryStatus, Again(t.pc.round + 1)))
      else t.(pc := Sealing(t.pc.verdict.retryStatus, Complete(if finish.Some? then finish.value else CompletionOf(t.pc.verdict))))
    case Seal =>
      if !t.pc.Sealing? || t.position >= |t.live.retries| then t
      else
        var after := if t.pc.next.Again? then LoopHead(t.pc.next.round) else Leaving(t.pc.next.status);
        t.(live := SealRetry(t.live, t.position, t.pc.retryStatus), pc := after)
    case Leave =>
      if !t.pc.Leaving? then t
      else if !Active(t.live.status) then t.(pc := Done)
      else t.(pc := Persisting(if t.live.stopRequested && t.pc.status == Failed then Stopped else t.pc.status, 0, false))
    case WriteFails =>
      if !t.pc.Persisting? then t else t.(pc := AfterFailure(t.pc.status, t.pc.failures, t.pc.handler))
    case SyncFails =>
      if !t.pc.Upserted? then t else t.(pc := AfterFailure(t.pc.status, t.pc.failures, t.pc.handler))
    case SyncSucceeds =>
      if !t.pc.Upserted? then t else t.(pc := Publishing(t.pc.status))
    case Raise =>
      if InRetry(t.pc) || t.pc.Opening? || t.pc.Leaving? then t.(pc := Handling) else t
    case HandlerEvent(text) =>
      if !t.pc.Handling? then t else t.(live := AppendEvent(t.live, text), pc := HandlerSealing)
    case HandlerSeal =>
      if !t.pc.HandlerSealing? then t
      else if !Active(t.live.status) then t.(pc := Done)
      else
        var live := if HasOpenRetry(t.live) then SealRetry(t.live, |t.live.retries| - 1, Failed) else t.live;
        t.(live := live, pc := Persisting(Failed, 0, true))
    case HandlerRaises =>
      if t.pc.Handling? || t.pc.HandlerSealing? then t.(pc := Stuck) else t
  }

  // ---------------------------------------------------------------------------
  // Steps of the whole system
  // ---------------------------------------------------------------------------

  function ClaimOf(id: RunId, spec: Spec): Lease {
    Lease(id, spec.priority, spec.resources, spec.forceAfter, spec.preemptible, None, false)
  }

  function SetThread(s: State, id: RunId, t: Thread): State {
    s.(threads := s.threads[id := t])
  }

  /** Where the thread goes when a pass of `acquire` raises; a conflict lets the finish callback choose the status. */
  function RefusedClaim(outcome: Outcome, onConflict: TerminalStatus): Pc {
    match outcome
    case ShuttingDown => Handling
    case Cancelled => Sealing(Stopped, Complete(Stopped))
    case _ => Sealing(Failed, Complete(onConflict))
  }

  function Waited(s: State, table: Table, callbacks: map<RunId, Callback>, claim: Lease): State {
    s.(table := table,
       pending := s.pending + (set target | target in callbacks :: (target, callbacks[target])),
       requests := Recorded(s.requests, s.table, callbacks, claim, s.clock))
  }

  function AttemptNext(s: State, id: RunId, onConflict: TerminalStatus): (s': State)
    requires id in s.threads && s.threads[id].pc.Claiming?
    ensures s' == s.(threads := s'.threads, table := s'.table, pending := s'.pending, requests := s'.requests)
    ensures id in s'.threads && s'.threads[id].live == s.threads[id].live && s'.threads == s.threads[id := s'.threads[id]]
  {
    var t := s.threads[id];
    var claim := ClaimOf(id, t.spec);
    var (table, outcome) := Attempt(s.table, s.closing, claim, t.live.stopRequested, s.clock, Some(t.pc.deadline));
    if outcome.Acquired? then SetThread(s, id, t.(pc := Granted, granted := true)).(table := table)
    else if outcome.Waiting? then Waited(s, table, outcome.callbacks, claim)
    else SetThread(s, id, t.(pc := RefusedClaim(outcome, onConflict)))
  }

  function History(requests: map<RunId, seq<Request>>, id: RunId): seq<Request> {
    if id in requests then requests[id] else []
  }

  /** Adds the requests of one waiting pass to the history of each holder. */
  function Recorded(requests: map<RunId, seq<Request>>, table: Table, callbacks: map<RunId, Callback>, claim: Lease, at: real)
    : map<RunId, seq<Request>>
  {
    map id | id in requests.Keys + callbacks.Keys ::
      History(requests, id) +
        if id in callbacks && id in table then [Request(callbacks[id], table[id], claim, at)] else []
  }

  function UpsertNext(s: State, id: RunId): State
    requires id in s.threads && s.threads[id].pc.Persisting?
  {
    var t := s.threads[id];
    var status := t.pc.status;
    SetThread(s, id, t.(pc := Upserted(status, t.pc.failures, t.pc.handler))).(durable := s.durable[id := Known(status)])
  }

  function PublishNext(s: State, id: RunId): State
    requires id in s.threads && s.threads[id].pc.Publishing?
  {
    var t := s.threads[id];
    if !Active(t.live.status) then SetThread(s, id, t.(pc := Done))
    else
      SetThread(s, id, t.(live := Finish(t.live, t.pc.status), pc := Releasing))
        .(published := s.published[id := t.pc.status])
  }

  function ReleaseNext(s: State, id: RunId): State
    requires id in s.threads
  {
    SetThread(s, id, s.threads[id].(pc := Done)).(table := s.table - {id})
  }

  /** Retention and deletion never touch a record that is running or stopping. */
  function Evicted(durable: map<RunId, RecordStatus>, ids: set<RunId>): map<RunId, RecordStatus> {
    map id | id in durable && (id !in ids || ActiveRecord(durable[id])) :: durable[id]
  }

  /** A stop or force-stop request as the run sees it: through its manager, which leaves an event, or directly. */
  function StopRequested(live: Run, registered: bool, force: bool, text: string): Run {
    if registered then (if force then ForceStopSection(live, text) else StopSection(live, text))
    else if force then RequestForceStop(live)
    else RequestStop(live)
  }

  function StopNext(s: State, id: RunId, registered: bool, force: bool, text: string): (s': State)
    ensures s' == s.(threads := s'.threads) && s'.threads.Keys == s.threads.Keys
  {
    if id !in s.threads then s
    else SetThread(s, id, s.threads[id].(live := StopRequested(s.threads[id].live, registered, force, text)))
  }

  predicate Registered(threads: map<RunId, Thread>, managers: map<ManagerId, Manager>, id: RunId) {
    id in threads && threads[id].spec.manager in managers && id in managers[threads[id].spec.manager].registered
  }

  /** A preemption callback goes through the manager while the run is registered there, else straight to the run. */
  function DeliverNext(s: State, target: RunId, callback: Callback, text: string): State {
    if (target, callback) !in s.pending then s
    else
      StopNext(s.(pending := s.pending - {(target, callback)}), target,
               Registered(s.threads, s.managers, target), callback.AskForceStop?, text)
  }

  function ActiveRuns(threads: map<RunId, Thread>): set<RunId> {
    set id | id in threads && Active(threads[id].live.status)
  }

  /** The manager after it has dropped the runs that are no longer active. */
  function WithoutTerminal(m: Manager, active: set<RunId>): Manager {
    Manager(m.registered * active,
            if m.current.Some? && m.current.value in m.registered - active then None else m.current,
            m.closing)
  }

  function StartNext(s: State, manager: ManagerId, id: RunId, spec: Spec, created: bool, threadStarts: bool): (s': State)
    ensures s' == s.(managers := s'.managers, threads := s'.threads, durable := s'.durable, used := s'.used)
  {
    if manager !in s.managers || id in s.used || spec.manager != manager || s.managers[manager].closing then s
    else
      var m := WithoutTerminal(s.managers[manager], ActiveRuns(s.threads));
      var busy := m.current.Some? && m.current.value in m.registered;
      if busy || !created then s.(managers := s.managers[manager := m])
      else
        var t := Thread(spec, Run(id, Running, false, false, []), if threadStarts then LoopHead(1) else Handling, 0, false, false);
        s.(managers := s.managers[manager := Manager(m.registered + {id}, Some(id), m.closing)],
           threads := s.threads[id := t],
           durable := s.durable[id := Known(Running)],
           used := s.used + {id})
  }

  function DiscardNext(s: State, id: RunId): (s': State)
    ensures s' == s.(managers := s'.managers)
  {
    if !Registered(s.threads, s.managers, id) || Active(s.threads[id].live.status) then s
    else
      var manager := s.threads[id].spec.manager;
      var m := s.managers[manager];
      s.(managers := s.managers[manager :=
        Manager(m.registered - {id}, if m.current == Some(id) then None else m.current, m.closing)])
  }

  /** Everything in memory is lost; the records that claim to be active are what recovery will visit. */
  function CrashNext(s: State, halfStarted: Option<RunId>): State {
    var started := halfStarted.Some? && halfStarted.value !in s.used && s.recovery.None?;
    var durable := if started then s.durable[halfStarted.value := Known(Running)] else s.durable;
    s.(threads := map[],
       table := map[],
       closing := false,
       managers := map m | m in s.managers :: Manager({}, None, false),
       pending := {},
       durable := durable,
       used := if started then s.used + {halfStarted.value} else s.used,
       recovery := Some(set id | id in durable && ActiveRecord(durable[id])))
  }

  /** Steps of the thread of a run that look at or change what runs share. */
  predicate SharedStep(step: Step) {
    step.AttemptClaim? || step.WriteMetadata? || step.Upsert? || step.Publish? || step.Release?
  }

  predicate StopStep(step: Step) {
    step.Stop? || step.ForceStop? || step.Deliver?
  }

  function SharedStepNext(s: State, step: Step): State
    requires SharedStep(step) && step.id in s.threads
  {
    var pc := s.threads[step.id].pc;
    match step
    case AttemptClaim(id, onConflict) => if !pc.Claiming? then s else AttemptNext(s, id, onConflict)
    case WriteMetadata(id) =>
      if !(pc.Claiming? || pc.Granted?) || id in s.durable then s else s.(durable := s.durable[id := Unknown])
    case Upsert(id) => if !pc.Persisting? then s else UpsertNext(s, id)
    case Publish(id) => if !pc.Publishing? then s else PublishNext(s, id)
    case Release(id) => if !pc.Releasing? then s else ReleaseNext(s, id)
  }

  function StopStepNext(s: State, step: Step): State
    requires StopStep(step)
  {
    match step
    case Stop(id, text) => StopNext(s, id, true, false, text)
    case ForceStop(id, text) => StopNext(s, id, true, true, text)
    case Deliver(target, callback, text) => DeliverNext(s, target, callback, text)
  }

  /** Starting and forgetting runs, the store's own upkeep, shutdown, time and crashes. */
  function EnvironmentNext(s: State, step: Step): State {
    match step
    case Start(manager, id, spec, created, threadStarts) => StartNext(s, manager, id, spec, created, threadStarts)
    case DiscardTerminal(id) => DiscardNext(s, id)
    case Evict(ids) => s.(durable := Evicted(s.durable, ids))
    case CloseCoordinator => s.(closing := true)
    case CloseManager(manager) =>
      if manager !in s.managers then s else s.(managers := s.managers[manager := s.managers[manager].(closing := true)])
    case Tick(elapsed) => if elapsed < 0.0 then s else s.(clock := s.clock + elapsed)
    case Crash(halfStarted) => CrashNext(s, halfStarted)
    case _ => s
  }

  function UpNext(s: State, step: Step): State {
    if step.Local? then
      (if step.id in s.threads then SetThread(s, step.id, LocalNext(s.threads[step.id], step.local, s.clock)) else s)
    else if SharedStep(step) then (if step.id in s.threads then SharedStepNext(s, step) else s)
    else if StopStep(step) then StopStepNext(s, step)
    else EnvironmentNext(s, step)
  }

  function RecoveryNext(s: State, step: Step): State
    requires s.recovery.Some?
  {
    match step
    case RecoverRecord(id) =>
      if id !in s.recovery.value then s
      else s.(durable := s.durable[id := Known(Stopped)], recovery := Some(s.recovery.value - {id}))
    case Restart => if s.recovery.value == {} then s.(recovery := None) else s
    case Crash(_) => CrashNext(s, None)
    case _ => s
  }

  /** The state after a step; a step that is not enabled changes nothing. */
  function Apply(s: State, step: Step): State {
    if s.recovery.Some? then RecoveryNext(s, step) else UpNext(s, step)
  }

  function Execute(s: State, steps: seq<Step>): State
    decreases |steps|
  {
    if steps == [] then s else Execute(Apply(s, steps[0]), steps[1..])
  }

  /** The backend before anything ran, for any set of managers. */
  function Initial(managers: set<ManagerId>): State {
    State(0.0, map[], map[], false, map m | m in managers :: Manager({}, None, false), {}, map[], None, {}, map[], map[])
  }
}
