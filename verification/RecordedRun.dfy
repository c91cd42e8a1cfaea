/** How the decisions about the retries of a run become the status that is recorded for it. */
module RecordedRun {
  import opened Wrappers
  import opened LiveState
  import opened Lifecycle
  import opened LifecycleInvariant
  import opened LifecycleTheorems
  import opened RunEndings
  import Policy
  import ScheduledRun
  import ManualRun

  /** The status with which the loop hands a run over, and whether a stop had been requested by then. */
  datatype Departure = Departure(status: TerminalStatus, stopped: bool)

  /** The decisions reached in a run, one per retry with a command, which retries they are about, and the run's departure
      from the loop. */
  datatype Trail = Trail(judged: seq<Verdict>, positions: seq<nat>, left: Option<Departure>)

  const NO_TRAIL := Trail([], [], None)

  function LocalTrail(trail: Trail, t: Thread, t': Thread, step: LocalStep): Trail {
    if t.pc.Deciding? && t'.pc.Judged? then trail.(judged := trail.judged + [t'.pc.verdict], positions := trail.positions + [t.position])
    else if step.Leave? && t.pc.Leaving? && Active(t.live.status) then trail.(left := Some(Departure(t.pc.status, t.live.stopRequested)))
    else trail
  }

  function TrailStep(trail: Trail, s: State, step: Step, id: RunId): Trail {
    if s.recovery.None? && step.Local? && step.id == id && id in s.threads
    then LocalTrail(trail, s.threads[id], LocalNext(s.threads[id], step.local, s.clock), step.local) else trail
  }

  function TrailOf(trail: Trail, s: State, steps: seq<Step>, id: RunId): Trail
    decreases |steps|
  {
    if steps == [] then trail else TrailOf(TrailStep(trail, s, steps[0], id), Apply(s, steps[0]), steps[1..], id)
  }

  /** The callbacks of the run leave decisions as they are and end it early only in its first retry; after that only a
      stop does. Scheduled and manual runs are such runs. */
  predicate Plain(t: Thread, step: LocalStep) {
    match step
    case Decide(updated) => updated.None?
    case Conclude(finish) => finish.None?
    case StartDecision(_, runStatus) => t.pc.Hooks? && t.pc.round >= 2 ==> t.live.stopRequested && runStatus == Stopped
    case _ => true
  }

  predicate PlainStep(s: State, step: Step, id: RunId) {
    step.Local? && step.id == id && id in s.threads ==> Plain(s.threads[id], step.local)
  }

  predicate PlainRun(s: State, steps: seq<Step>, id: RunId)
    decreases |steps|
  {
    steps != [] ==> PlainStep(s, steps[0], id) && PlainRun(Apply(s, steps[0]), steps[1..], id)
  }

  // ---------------------------------------------------------------------------
  // What the loop keeps
  // ---------------------------------------------------------------------------

  /** The loop is in this round because the decision before asked for it. */
  predicate Going(round: nat, judged: seq<Verdict>, maxRetries: nat) {
    |judged| + 1 == round && (judged != [] ==> judged[|judged| - 1].again && round <= maxRetries)
  }

  /** A run that ends after its decisions ends with the last of them, or with a stop if that one has no status of its own. */
  predicate Closing(status: TerminalStatus, stopped: bool, judged: seq<Verdict>, maxRetries: nat) {
    judged != [] ==>
      var last := judged[|judged| - 1];
      || (status == CompletionOf(last) && (last.again ==> stopped || |judged| >= maxRetries))
      || (status == Stopped && stopped && (last.again || last.runStatus.None?))
  }

  /** The last look at the stop flag turns a failure into a stop. */
  function Settled(left: Departure): TerminalStatus {
    if left.stopped && left.status == Failed then Stopped else left.status
  }

  predicate LeftOk(status: Status, trail: Trail, maxRetries: nat) {
    && trail.left.Some? && status == Settled(trail.left.value)
    && Closing(trail.left.value.status, trail.left.value.stopped, trail.judged, maxRetries)
  }

  predicate LoopOk(pc: Pc, stopped: bool, judged: seq<Verdict>, maxRetries: nat) {
    match pc
    case LoopHead(round) => Going(round, judged, maxRetries)
    case Opening(round) => Going(round, judged, maxRetries)
    case Hooks(round) => Going(round, judged, maxRetries)
    case Command(round) => Going(round, judged, maxRetries)
    case Deciding(round) => Going(round, judged, maxRetries)
    case Claiming(_) => judged == []
    case Granted => judged == []
    case Judged(round, verdict) => |judged| == round && round > 0 && verdict == judged[round - 1]
    case Concluding(round, verdict) =>
      |judged| == round && round > 0 && (verdict == judged[round - 1] || (stopped && verdict == Halted(judged[round - 1])))
    case Sealing(_, next) =>
      if next.Again? then Going(next.round, judged, maxRetries) else Closing(next.status, stopped, judged, maxRetries)
    case Leaving(status) => Closing(status, stopped, judged, maxRetries)
    case _ => true
  }

  predicate TrailOk(t: Thread, trail: Trail, handled: bool) {
    && LoopOk(t.pc, t.live.stopRequested, trail.judged, t.spec.maxRetries)
    && (BeforeLeave(t.pc) || t.pc.Handling? || t.pc.HandlerSealing? ==> !handled)
    && (t.pc.Persisting? || t.pc.Upserted? ==> t.pc.handler == handled)
    && (t.pc.Persisting? || t.pc.Upserted? || t.pc.Publishing? ==> handled || LeftOk(t.pc.status, trail, t.spec.maxRetries))
    && (t.pc.Releasing? || t.pc.Done? ==> handled || LeftOk(t.live.status, trail, t.spec.maxRetries))
  }

  predicate TrailsOk(s: State, id: RunId, trail: Trail, handled: bool) {
    && (id in s.threads ==> TrailOk(s.threads[id], trail, handled))
    && (id !in s.used ==> trail == NO_TRAIL && !handled)
  }

  // ---------------------------------------------------------------------------
  // One step
  // ---------------------------------------------------------------------------

  /** The part of the loop up to a decision. */
  predicate LoopStep(step: LocalStep) {
    step.CheckLoop? || step.OpenRetry? || step.StartDecision? || step.Proceed? || step.EnterCommand? || step.EndCommand?
  }

  predicate DecisionStep(step: LocalStep) {
    step.Evaluate? || step.NoResult? || step.Decide? || step.Conclude?
  }

  lemma LoopTrail(t: Thread, step: LocalStep, clock: real, trail: Trail)
    requires LoopOk(t.pc, t.live.stopRequested, trail.judged, t.spec.maxRetries) && LoopStep(step) && Plain(t, step)
    ensures
      var t' := LocalNext(t, step, clock);
      && LocalTrail(trail, t, t', step) == trail && LoopOk(t'.pc, t'.live.stopRequested, trail.judged, t.spec.maxRetries)
      && (t' == t || (BeforeLeave(t.pc) && BeforeLeave(t'.pc)))
  {
  }

  lemma DecisionTrail(t: Thread, step: LocalStep, clock: real, trail: Trail)
    requires LoopOk(t.pc, t.live.stopRequested, trail.judged, t.spec.maxRetries) && DecisionStep(step) && Plain(t, step)
    ensures
      var t' := LocalNext(t, step, clock);
      && LoopOk(t'.pc, t'.live.stopRequested, LocalTrail(trail, t, t', step).judged, t.spec.maxRetries)
      && (t' == t || (BeforeLeave(t.pc) && BeforeLeave(t'.pc)))
  {
  }

  /** Sealing, leaving the loop and writing the record. */
  predicate EndStep(step: LocalStep) {
    step.Seal? || step.Leave? || step.WriteFails? || step.SyncFails? || step.SyncSucceeds?
  }

  predicate HandlerStep(step: LocalStep) {
    step.Raise? || step.HandlerEvent? || step.HandlerSeal? || step.HandlerRaises?
  }

  lemma EndTrail(id: RunId, t: Thread, step: LocalStep, clock: real, trail: Trail, handled: bool)
    requires ThreadOk(id, t) && TrailOk(t, trail, handled) && EndStep(step)
    ensures TrailOk(LocalNext(t, step, clock), LocalTrail(trail, t, LocalNext(t, step, clock), step), handled)
  {
  }

  lemma HandlerTrail(id: RunId, t: Thread, step: LocalStep, clock: real, trail: Trail, handled: bool)
    requires ThreadOk(id, t) && TrailOk(t, trail, handled) && HandlerStep(step)
    ensures
      var t' := LocalNext(t, step, clock);
      var takes := step.HandlerSeal? && t.pc.HandlerSealing? && Active(t.live.status);
      TrailOk(t', LocalTrail(trail, t, t', step), handled || takes)
  {
  }

  lemma OtherTrail(id: RunId, t: Thread, step: LocalStep, clock: real, trail: Trail, handled: bool)
    requires ThreadOk(id, t) && TrailOk(t, trail, handled) && !LoopStep(step) && !DecisionStep(step)
    ensures
      var t' := LocalNext(t, step, clock);
      var takes := step.HandlerSeal? && t.pc.HandlerSealing? && Active(t.live.status);
      TrailOk(t', LocalTrail(trail, t, t', step), handled || takes)
  {
    if EndStep(step) {
      EndTrail(id, t, step, clock, trail, handled);
    } else if HandlerStep(step) {
      HandlerTrail(id, t, step, clock, trail, handled);
    } else {
      var t' := LocalNext(t, step, clock);
      assert t'.pc == t.pc && t'.spec == t.spec && t'.live.stopRequested == t.live.stopRequested && t'.live.status == t.live.status;
    }
  }

  lemma LocalTrailOk(id: RunId, t: Thread, step: LocalStep, clock: real, trail: Trail, handled: bool)
    requires ThreadOk(id, t) && TrailOk(t, trail, handled) && Plain(t, step)
    ensures
      var t' := LocalNext(t, step, clock);
      var takes := step.HandlerSeal? && t.pc.HandlerSealing? && Active(t.live.status);
      TrailOk(t', LocalTrail(trail, t, t', step), handled || takes)
  {
    if LoopStep(step) {
      LoopTrail(t, step, clock, trail);
    } else if DecisionStep(step) {
      DecisionTrail(t, step, clock, trail);
    } else {
      OtherTrail(id, t, step, clock, trail, handled);
    }
  }

  lemma LocalStepTrail(s: State, step: Step, id: RunId, trail: Trail, handled: bool)
    requires s.recovery.None? && step.Local? && TrailsOk(s, id, trail, handled) && PlainStep(s, step, id)
    requires id in s.threads ==> id in s.used && ThreadOk(id, s.threads[id])
    ensures TrailsOk(Apply(s, step), id, TrailStep(trail, s, step, id), handled || HandlerTakes(s, step, id))
  {
    if step.id == id && id in s.threads {
      OwnStepTrail(s, step, trail, handled);
    } else {
      OthersStand(s, step, id);
      assert TrailStep(trail, s, step, id) == trail && !HandlerTakes(s, step, id);
    }
  }

  lemma OwnStepTrail(s: State, step: Step, trail: Trail, handled: bool)
    requires s.recovery.None? && step.Local? && step.id in s.threads && ThreadOk(step.id, s.threads[step.id])
    requires TrailOk(s.threads[step.id], trail, handled) && Plain(s.threads[step.id], step.local)
    ensures
      var s' := Apply(s, step);
      && step.id in s'.threads
      && TrailOk(s'.threads[step.id], TrailStep(trail, s, step, step.id), handled || HandlerTakes(s, step, step.id))
  {
    LocalTrailOk(step.id, s.threads[step.id], step.local, s.clock, trail, handled);
  }

  lemma ClaimTrail(s: State, id: RunId, onConflict: TerminalStatus, trail: Trail, handled: bool)
    requires id in s.threads && s.threads[id].pc.Claiming? && TrailOk(s.threads[id], trail, handled)
    ensures TrailOk(AttemptNext(s, id, onConflict).threads[id], trail, handled)
  {
    AttemptThread(s, id, onConflict);
    ClaimedTrail(s.threads[id], AttemptNext(s, id, onConflict).threads[id], trail, handled);
  }

  lemma ClaimedTrail(t: Thread, t': Thread, trail: Trail, handled: bool)
    requires TrailOk(t, trail, handled) && t.pc.Claiming? && t'.live == t.live && t'.spec == t.spec
    requires t'.pc == t.pc || t'.pc.Granted? || t'.pc.Handling? || (t'.pc.Sealing? && t'.pc.next.Complete?)
    ensures TrailOk(t', trail, handled)
  {
  }

  lemma SharedTrail(s: State, step: Step, trail: Trail, handled: bool)
    requires SharedStep(step) && step.id in s.threads && ThreadOk(step.id, s.threads[step.id])
    requires TrailOk(s.threads[step.id], trail, handled)
    ensures
      var s' := SharedStepNext(s, step);
      step.id in s'.threads && TrailOk(s'.threads[step.id], trail, handled)
  {
    if step.AttemptClaim? && s.threads[step.id].pc.Claiming? {
      ClaimTrail(s, step.id, step.onConflict, trail, handled);
    }
  }

  lemma SharedStepTrail(s: State, step: Step, id: RunId, trail: Trail, handled: bool)
    requires ThreadsOk(s.threads, s.used, s.durable) && PublishedOk(s.threads, s.published, s.used, s.durable)
    requires SharedStep(step) && step.id in s.threads && TrailsOk(s, id, trail, handled)
    ensures TrailsOk(SharedStepNext(s, step), id, trail, handled)
  {
    SharedStepThread(s, step);
    assert ThreadOk(step.id, s.threads[step.id]);
    if step.id == id { SharedTrail(s, step, trail, handled); }
  }

  lemma StopTrail(id: RunId, t: Thread, registered: bool, force: bool, text: string, trail: Trail, handled: bool)
    requires ThreadOk(id, t) && TrailOk(t, trail, handled)
    ensures TrailOk(t.(live := StopRequested(t.live, registered, force, text)), trail, handled)
  {
    StopKeepsThreadOk(id, t, registered, force, text);
  }

  lemma StopNextTrail(s: State, target: RunId, registered: bool, force: bool, text: string, id: RunId, trail: Trail, handled: bool)
    requires ThreadsOk(s.threads, s.used, s.durable) && TrailsOk(s, id, trail, handled)
    ensures TrailsOk(StopNext(s, target, registered, force, text), id, trail, handled)
  {
    if target == id && id in s.threads {
      assert ThreadOk(id, s.threads[id]);
      StopTrail(id, s.threads[id], registered, force, text, trail, handled);
    }
  }

  lemma StopStepTrail(s: State, step: Step, id: RunId, trail: Trail, handled: bool)
    requires ThreadsOk(s.threads, s.used, s.durable) && StopStep(step) && TrailsOk(s, id, trail, handled)
    ensures TrailsOk(StopStepNext(s, step), id, trail, handled)
  {
    match step
    case Stop(target, text) => StopNextTrail(s, target, true, false, text, id, trail, handled);
    case ForceStop(target, text) => StopNextTrail(s, target, true, true, text, id, trail, handled);
    case Deliver(target, callback, text) =>
      var delivered := s.(pending := s.pending - {(target, callback)});
      StopNextTrail(delivered, target, Registered(s.threads, s.managers, target), callback.AskForceStop?, text, id, trail, handled);
  }

  lemma EnvironmentTrail(s: State, step: Step, id: RunId, trail: Trail, handled: bool)
    requires TrailsOk(s, id, trail, handled)
    ensures TrailsOk(EnvironmentNext(s, step), id, trail, handled)
  {
    if !step.Start? && !step.Crash? {
      UpkeepLeavesThreads(s, step);
    }
  }

  lemma RecoveryTrail(s: State, step: Step, id: RunId, trail: Trail, handled: bool)
    requires s.recovery.Some? && s.threads == map[] && TrailsOk(s, id, trail, handled)
    ensures TrailsOk(Apply(s, step), id, TrailStep(trail, s, step, id), handled || HandlerTakes(s, step, id))
  {
  }

  lemma StepTrail(s: State, step: Step, id: RunId, trail: Trail, handled: bool)
    requires ThreadsOk(s.threads, s.used, s.durable) && PublishedOk(s.threads, s.published, s.used, s.durable)
    requires (s.recovery.Some? ==> s.threads == map[]) && TrailsOk(s, id, trail, handled) && PlainStep(s, step, id)
    ensures TrailsOk(Apply(s, step), id, TrailStep(trail, s, step, id), handled || HandlerTakes(s, step, id))
  {
    if s.recovery.Some? {
      RecoveryTrail(s, step, id, trail, handled);
    } else {
      if step.Local? {
        LocalStepTrail(s, step, id, trail, handled);
      } else if SharedStep(step) {
        if step.id in s.threads { SharedStepTrail(s, step, id, trail, handled); }
      } else if StopStep(step) {
        StopStepTrail(s, step, id, trail, handled);
      } else {
        EnvironmentTrail(s, step, id, trail, handled);
      }
    }
  }

  lemma {:induction false} ExecutionTrail(s: State, steps: seq<Step>, id: RunId, trail: Trail, handled: bool)
    requires Inv(s) && TrailsOk(s, id, trail, handled) && PlainRun(s, steps, id)
    ensures TrailsOk(Execute(s, steps), id, TrailOf(trail, s, steps, id), handled || Handled(s, steps, id))
    decreases |steps|
  {
    if steps != [] {
      StepTrail(s, steps[0], id, trail, handled);
      StepKeepsInv(s, steps[0]);
      ExecutionTrail(Apply(s, steps[0]), steps[1..], id, TrailStep(trail, s, steps[0], id), handled || HandlerTakes(s, steps[0], id));
    }
  }

  // ---------------------------------------------------------------------------
  // From the last decision to the record
  // ---------------------------------------------------------------------------

  /** What is recorded for a run whose last decision this is. */
  function RecordedStatus(last: Verdict, stopped: bool): TerminalStatus {
    if last.runStatus.None? then Stopped
    else if last.runStatus == Some(Failed) && stopped then Stopped
    else last.runStatus.value
  }

  /** The loop goes on exactly after decisions without a status, and those are about failed retries. */
  predicate Orderly(judged: seq<Verdict>, maxRetries: nat) {
    forall k :: 0 <= k < |judged| ==>
      && (judged[k].again <==> judged[k].runStatus.None?)
      && (judged[k].again ==> judged[k].retryStatus == Failed && k + 1 < maxRetries)
  }

  /** A finished run that has reached decisions and that the exception handler has not taken over. */
  ghost predicate Concluded(managers: set<ManagerId>, steps: seq<Step>, id: RunId) {
    var s := Execute(Initial(managers), steps);
    && id in s.threads && !Active(s.threads[id].live.status)
    && PlainRun(Initial(managers), steps, id) && !Handled(Initial(managers), steps, id)
    && TrailOf(NO_TRAIL, Initial(managers), steps, id).judged != []
  }

  /** In every execution the recorded status of such a run is the one its last decision gave it, except that a failure is
      recorded as stopped if a stop had been requested by the time the loop looked last, and a run that was to go on
      ends only by a stop. */
  lemma LastDecisionIsRecorded(managers: set<ManagerId>, steps: seq<Step>, id: RunId)
    requires Concluded(managers, steps, id)
    requires
      var s := Execute(Initial(managers), steps);
      Orderly(TrailOf(NO_TRAIL, Initial(managers), steps, id).judged, s.threads[id].spec.maxRetries)
    ensures
      var s := Execute(Initial(managers), steps);
      var trail := TrailOf(NO_TRAIL, Initial(managers), steps, id);
      && trail.left.Some?
      && s.threads[id].live.status == RecordedStatus(trail.judged[|trail.judged| - 1], trail.left.value.stopped)
      && (id in s.durable ==> s.durable[id] == Known(s.threads[id].live.status))
  {
    InitialInv(managers);
    ExecutionTrail(Initial(managers), steps, id, NO_TRAIL, false);
    FinishedThread(managers, steps, id);
    DurableFirst(Execute(Initial(managers), steps), managers, steps, id);
  }

  lemma FinishedThread(managers: set<ManagerId>, steps: seq<Step>, id: RunId)
    requires id in Execute(Initial(managers), steps).threads
    requires !Active(Execute(Initial(managers), steps).threads[id].live.status)
    ensures
      var t := Execute(Initial(managers), steps).threads[id];
      t.pc.Releasing? || t.pc.Done?
  {
    InitialInv(managers);
    ExecutionInv(Initial(managers), steps);
    assert ThreadOk(id, Execute(Initial(managers), steps).threads[id]);
  }

  // ---------------------------------------------------------------------------
  // Scheduled and manual runs
  // ---------------------------------------------------------------------------

  function RetryVerdict(status: ScheduledRun.RetryStatus): TerminalStatus {
    match status
    case RetrySucceeded => Succeeded
    case RetryFailed => Failed
    case RetryStopped => Stopped
  }

  function FinalVerdict(status: Policy.FinalStatus): TerminalStatus {
    match status
    case FinalSucceeded => Succeeded
    case FinalSoftFailed => SoftFailed
    case FinalFailed => Failed
    case FinalStopped => Stopped
    case FinalSkipped => Skipped
  }

  function VerdictOf(decision: ScheduledRun.Decision): Verdict {
    Verdict(RetryVerdict(decision.retryStatus),
            if decision.runStatus.Some? then Some(FinalVerdict(decision.runStatus.value)) else None, decision.continueRetry)
  }

  /** The decisions reached in an execution of the run are these. */
  ghost predicate Reaches(managers: set<ManagerId>, steps: seq<Step>, id: RunId, decisions: seq<ScheduledRun.Decision>) {
    var judged := TrailOf(NO_TRAIL, Initial(managers), steps, id).judged;
    |judged| == |decisions| && forall k :: 0 <= k < |decisions| ==> judged[k] == VerdictOf(decisions[k])
  }

  /** The execution has recorded for the run what the last of these decisions comes to. */
  ghost predicate Records(managers: set<ManagerId>, steps: seq<Step>, id: RunId, decisions: seq<ScheduledRun.Decision>) {
    var s := Execute(Initial(managers), steps);
    var left := TrailOf(NO_TRAIL, Initial(managers), steps, id).left;
    && decisions != [] && left.Some? && id in s.threads
    && s.threads[id].live.status == RecordedStatus(VerdictOf(decisions[|decisions| - 1]), left.value.stopped)
    && (id in s.durable ==> s.durable[id] == Known(s.threads[id].live.status))
  }

  function RetriesOf(managers: set<ManagerId>, steps: seq<Step>, id: RunId): nat {
    var s := Execute(Initial(managers), steps);
    if id in s.threads then s.threads[id].spec.maxRetries else 0
  }

  lemma DecisionsAreRecorded(managers: set<ManagerId>, steps: seq<Step>, id: RunId, decisions: seq<ScheduledRun.Decision>)
    requires Concluded(managers, steps, id) && Reaches(managers, steps, id, decisions)
    requires forall k :: 0 <= k < |decisions| ==> ScheduledRun.EndsOrGoesOn(decisions[k], k + 1, RetriesOf(managers, steps, id))
    ensures Records(managers, steps, id, decisions)
  {
    LastDecisionIsRecorded(managers, steps, id);
  }

  /** What is recorded for a scheduled run: what its last retry was worth, except for a stop that came in time. */
  lemma ScheduledRunIsRecorded(managers: set<ManagerId>, steps: seq<Step>, id: RunId, slot: Policy.Slot, stats: Policy.DailyStats,
                               outcomes: seq<ScheduledRun.Outcome>)
    requires Concluded(managers, steps, id)
    requires Reaches(managers, steps, id,
      ScheduledRun.Decisions(ScheduledRun.RunOf(slot, stats, outcomes, RetriesOf(managers, steps, id))))
    ensures Records(managers, steps, id,
      ScheduledRun.Decisions(ScheduledRun.RunOf(slot, stats, outcomes, RetriesOf(managers, steps, id))))
  {
    var maxRetries := RetriesOf(managers, steps, id);
    var rounds := ScheduledRun.RunOf(slot, stats, outcomes, maxRetries);
    var decisions := ScheduledRun.Decisions(rounds);
    forall k | 0 <= k < |decisions| ensures ScheduledRun.EndsOrGoesOn(decisions[k], k + 1, maxRetries) {
      ScheduledRun.RunGoesOn(slot, stats, outcomes, maxRetries, k);
    }
    DecisionsAreRecorded(managers, steps, id, decisions);
  }

  lemma ManualRunIsRecorded(managers: set<ManagerId>, steps: seq<Step>, id: RunId, selected: seq<string>,
                            outcomes: seq<ScheduledRun.Outcome>)
    requires Concluded(managers, steps, id)
    requires Reaches(managers, steps, id, ManualRun.Decisions(ManualRun.ManualRunOf(selected, outcomes, RetriesOf(managers, steps, id))))
    ensures Records(managers, steps, id, ManualRun.Decisions(ManualRun.ManualRunOf(selected, outcomes, RetriesOf(managers, steps, id))))
  {
    var maxRetries := RetriesOf(managers, steps, id);
    var decisions := ManualRun.Decisions(ManualRun.ManualRunOf(selected, outcomes, maxRetries));
    forall k | 0 <= k < |decisions| ensures ScheduledRun.EndsOrGoesOn(decisions[k], k + 1, maxRetries) {
      ManualRun.RunGoesOn(selected, outcomes, maxRetries, k);
    }
    DecisionsAreRecorded(managers, steps, id, decisions);
  }

  /** A scheduled run is recorded as soft failed exactly if its first retry was not stopped, every task that had to
      succeed did so in it, and some unimportant selected task did not. */
  lemma RecordedSoftFailedExactly(managers: set<ManagerId>, steps: seq<Step>, id: RunId, slot: Policy.Slot, stats: Policy.DailyStats,
                                  outcomes: seq<ScheduledRun.Outcome>)
    requires Concluded(managers, steps, id)
    requires Reaches(managers, steps, id,
      ScheduledRun.Decisions(ScheduledRun.RunOf(slot, stats, outcomes, RetriesOf(managers, steps, id))))
    requires forall p, q :: p in slot.policies && q in slot.policies && p.id == q.id ==> p == q
    ensures outcomes != []
    ensures Execute(Initial(managers), steps).threads[id].live.status == SoftFailed <==> ScheduledRun.FailsSoftly(slot, stats, outcomes[0])
  {
    var decisions := ScheduledRun.Decisions(ScheduledRun.RunOf(slot, stats, outcomes, RetriesOf(managers, steps, id)));
    ScheduledRunIsRecorded(managers, steps, id, slot, stats, outcomes);
    SoftFailedRecord(managers, steps, id, decisions);
    ScheduledRun.LastIsSoftExactly(slot, stats, outcomes, RetriesOf(managers, steps, id));
  }

  lemma SoftFailedRecord(managers: set<ManagerId>, steps: seq<Step>, id: RunId, decisions: seq<ScheduledRun.Decision>)
    requires Records(managers, steps, id, decisions)
    ensures Execute(Initial(managers), steps).threads[id].live.status == SoftFailed <==>
      decisions[|decisions| - 1].runStatus == Some(Policy.FinalSoftFailed)
  {
  }
}
