/** What single steps of the lifecycle come to: every look at the stop flag, every way a claim or a write can end, and what
    starting, forgetting, crashing and recovering leave behind. */
module LifecycleSteps {
  import opened Wrappers
  import opened RunResources
  import opened Coordinator
  import opened LiveState
  import opened Lifecycle
  import opened LifecycleInvariant
  import opened LifecycleTheorems

  // ---------------------------------------------------------------------------
  // Looks at the stop flag
  // ---------------------------------------------------------------------------

  /** At the head of the loop a stop ends the run as stopped, and so do used-up retries end it, as failed. */
  lemma LoopHeadLooks(t: Thread, clock: real)
    requires t.pc.LoopHead? && !t.unannounced
    ensures LocalNext(t, CheckLoop, clock) == t.(pc :=
      if t.live.stopRequested then Leaving(Stopped) else if t.pc.round <= t.spec.maxRetries then Opening(t.pc.round) else Leaving(Failed))
  {
  }

  /** Only the first retry claims resources, and only if the run has any; a stop keeps the thread in its hooks. */
  lemma HooksLook(t: Thread, timeout: real, clock: real)
    requires t.pc.Hooks? && !t.unannounced
    ensures
      var t' := LocalNext(t, Proceed(timeout), clock);
      && t' == t.(pc := t'.pc)
      && (t.live.stopRequested ==> t' == t)
      && (!t.live.stopRequested && t.pc.round > 1 ==> t'.pc == Command(t.pc.round))
      && (!t.live.stopRequested && t.pc.round <= 1 && t.spec.resources == [] && t.pc.round == 1 ==> t'.pc == Granted)
      && (!t.live.stopRequested && t.spec.resources != [] && t.pc.round == 1 ==>
            t'.pc == Claiming(if timeout > 0.0 then clock + timeout else clock))
  {
  }

  lemma GrantedLooks(t: Thread, clock: real)
    requires t.pc.Granted? && !t.unannounced
    ensures LocalNext(t, EnterCommand, clock) ==
      t.(pc := if t.live.stopRequested then Sealing(Stopped, Complete(Stopped)) else Command(1))
  {
  }

  /** A stop overrules the callback's decision; a result that never came is a failure without a status of its own. */
  lemma EvaluationLooks(t: Thread, verdict: Verdict, stopped: bool, clock: real)
    requires t.pc.Deciding? && !t.unannounced
    ensures LocalNext(t, Evaluate(verdict, stopped), clock) ==
      t.(pc := Judged(t.pc.round, if !stopped && !t.live.stopRequested then verdict else Verdict(Stopped, Some(Stopped), false)))
    ensures LocalNext(t, NoResult, clock) == t.(pc := Judged(t.pc.round, Verdict(Failed, None, false)))
  {
  }

  /** A stop seen after the callbacks turns a failed retry into a stopped one, gives the run a status if it has none, and
      asks for no other retry. */
  lemma DecisionLooks(t: Thread, updated: Option<Verdict>, clock: real)
    requires t.pc.Judged? && !t.unannounced
    ensures
      var t' := LocalNext(t, Decide(updated), clock);
      var before := if updated.Some? then updated.value else t.pc.verdict;
      && t'.pc.Concluding? && t' == t.(pc := t'.pc) && t'.pc.round == t.pc.round
      && var after := t'.pc.verdict;
         if !t.live.stopRequested then after == before
         else
           && !after.again && after.retryStatus == (if before.retryStatus == Failed then Stopped else before.retryStatus)
           && after.runStatus == Some(if before.runStatus == None then Stopped else before.runStatus.value)
  {
  }

  /** The loop goes on exactly if another retry is wanted, there is room for it and no stop has been requested; else the run
      gets the status its callback gives it, or its decision's, or its retry's. */
  lemma ConclusionLooks(t: Thread, finish: Option<TerminalStatus>, clock: real)
    requires t.pc.Concluding? && !t.unannounced
    ensures
      var t' := LocalNext(t, Conclude(finish), clock);
      var verdict := t.pc.verdict;
      && t'.pc.Sealing? && t' == t.(pc := t'.pc) && t'.pc.retryStatus == verdict.retryStatus
      && (t'.pc.next.Again? <==> verdict.again && t.pc.round < t.spec.maxRetries && !t.live.stopRequested)
      && (t'.pc.next.Again? ==> t'.pc.next.round == t.pc.round + 1)
      && (t'.pc.next.Complete? && finish.Some? ==> t'.pc.next.status == finish.value)
      && (t'.pc.next.Complete? && finish.None? && verdict.runStatus.Some? ==> t'.pc.next.status == verdict.runStatus.value)
      && (t'.pc.next.Complete? && finish.None? && verdict.runStatus.None? ==> t'.pc.next.status == verdict.retryStatus)
  {
  }

  /** The last look turns a failure into a stop. */
  lemma LeavingLooks(t: Thread, clock: real)
    requires t.pc.Leaving? && Active(t.live.status) && !t.unannounced
    ensures LocalNext(t, Leave, clock) ==
      t.(pc := Persisting(if t.pc.status == Failed && t.live.stopRequested then Stopped else t.pc.status, 0, false))
  {
  }

  /** Once a stop has been requested, no thread that is not just opening a retry will open one, and none that is not in its
      command will enter one. */
  lemma NothingStartsAfterStop(id: RunId, t: Thread, step: LocalStep, clock: real)
    requires ThreadOk(id, t) && t.live.stopRequested
    ensures LocalNext(t, step, clock).live.stopRequested
    ensures LocalNext(t, step, clock).pc.Opening? ==> t.pc.Opening?
    ensures LocalNext(t, step, clock).pc.Command? ==> t.pc.Command?
    ensures |LocalNext(t, step, clock).live.retries| > |t.live.retries| ==> t.pc.Opening? || t.pc.Handling?
  {
  }

  /** The run is still there, stopped, and neither opening a retry nor in its command. */
  predicate StoppedShort(s: State, id: RunId) {
    id in s.threads ==> s.threads[id].live.stopRequested && !s.threads[id].pc.Opening? && !s.threads[id].pc.Command?
  }

  lemma SharedStaysShort(s: State, step: Step, id: RunId)
    requires SharedStep(step) && step.id == id && id in s.threads && StoppedShort(s, id)
    ensures StoppedShort(SharedStepNext(s, step), id)
  {
    if step.AttemptClaim? {
      if s.threads[id].pc.Claiming? { AttemptThread(s, id, step.onConflict); }
    } else if step.Publish? && s.threads[id].pc.Publishing? {
      assert PublishNext(s, id).threads[id].live.stopRequested;
    }
  }

  lemma StepStaysShort(s: State, step: Step, id: RunId)
    requires Inv(s) && id in s.used && StoppedShort(s, id)
    ensures id in Apply(s, step).used && StoppedShort(Apply(s, step), id)
  {
    StepFollows(s, step);
    if s.recovery.None? && id in s.threads {
      if step.Local? {
        if step.id == id { LocalStaysShort(s, step, id); } else { OthersStand(s, step, id); }
      } else if SharedStep(step) {
        SharedStepStaysShort(s, step, id);
      } else {
        OtherStaysShort(s, step, id);
      }
    }
  }

  lemma SharedStepStaysShort(s: State, step: Step, id: RunId)
    requires ThreadsOk(s.threads, s.used, s.durable) && PublishedOk(s.threads, s.published, s.used, s.durable)
    requires s.recovery.None? && SharedStep(step) && id in s.threads && StoppedShort(s, id)
    ensures StoppedShort(Apply(s, step), id)
  {
    if step.id in s.threads {
      SharedStepThread(s, step);
      if step.id == id { SharedStaysShort(s, step, id); }
    }
  }

  lemma LocalStaysShort(s: State, step: Step, id: RunId)
    requires Inv(s) && s.recovery.None? && step.Local? && step.id == id && id in s.threads && StoppedShort(s, id)
    ensures StoppedShort(Apply(s, step), id)
  {
    assert ThreadOk(id, s.threads[id]);
    NothingStartsAfterStop(id, s.threads[id], step.local, s.clock);
  }

  lemma OtherStaysShort(s: State, step: Step, id: RunId)
    requires s.recovery.None? && !step.Local? && !SharedStep(step) && id in s.threads && id in s.used && StoppedShort(s, id)
    ensures StoppedShort(Apply(s, step), id)
  {
    match step
    case Stop(target, text) => StopStaysShort(s, target, true, false, text, id);
    case ForceStop(target, text) => StopStaysShort(s, target, true, true, text, id);
    case Deliver(target, callback, text) =>
      StopStaysShort(s.(pending := s.pending - {(target, callback)}), target, Registered(s.threads, s.managers, target),
                     callback.AskForceStop?, text, id);
    case _ => EnvironmentStaysShort(s, step, id);
  }

  lemma StopStaysShort(s: State, target: RunId, registered: bool, force: bool, text: string, id: RunId)
    requires id in s.threads && StoppedShort(s, id)
    ensures StoppedShort(StopNext(s, target, registered, force, text), id)
  {
  }

  lemma EnvironmentStaysShort(s: State, step: Step, id: RunId)
    requires !step.Local? && !SharedStep(step) && !StopStep(step) && id in s.used && id in s.threads && StoppedShort(s, id)
    ensures StoppedShort(EnvironmentNext(s, step), id)
  {
    if !step.Start? && !step.Crash? { UpkeepLeavesThreads(s, step); }
  }

  lemma {:induction false} ExecutionStaysShort(s: State, steps: seq<Step>, id: RunId)
    requires Inv(s) && id in s.used && StoppedShort(s, id)
    ensures StoppedShort(Execute(s, steps), id)
    decreases |steps|
  {
    if steps != [] {
      StepStaysShort(s, steps[0], id);
      StepKeepsInv(s, steps[0]);
      ExecutionStaysShort(Apply(s, steps[0]), steps[1..], id);
    }
  }

  /** A run that is stopped outside its command, and not just opening a retry, never enters a command or opens a retry of its
      loop again, whatever happens. */
  lemma StopKeepsOutOfCommand(managers: set<ManagerId>, before: seq<Step>, after: seq<Step>, id: RunId)
    requires
      var s := Execute(Initial(managers), before);
      id in s.threads && s.threads[id].live.stopRequested && !s.threads[id].pc.Opening? && !s.threads[id].pc.Command?
    requires id in Execute(Initial(managers), before + after).threads
    ensures
      var t := Execute(Initial(managers), before + after).threads[id];
      !t.pc.Command? && !t.pc.Opening?
  {
    var s := Execute(Initial(managers), before);
    ReachableInv(s, managers, before);
    ExecuteConcat(Initial(managers), before, after);
    ExecutionStaysShort(s, after, id);
  }

  // ---------------------------------------------------------------------------
  // Writes that fail, exceptions
  // ---------------------------------------------------------------------------

  /** A status is written up to three times, whether the record or the history fails; after that the loop hands over to the
      handler, and the handler gives up and keeps the run as it is. */
  lemma ThreeWritesAreTried(t: Thread, clock: real)
    requires t.pc.Persisting? && !t.unannounced
    ensures
      var t' := LocalNext(t, WriteFails, clock);
      && t' == t.(pc := t'.pc)
      && (t.pc.failures <= 1 ==> t'.pc == Persisting(t.pc.status, t.pc.failures + 1, t.pc.handler))
      && (t.pc.failures == 2 ==> t'.pc == if t.pc.handler then Stuck else Handling)
    ensures
      var written := t.(pc := Upserted(t.pc.status, t.pc.failures, t.pc.handler));
      && LocalNext(written, SyncFails, clock) == LocalNext(t, WriteFails, clock)
      && LocalNext(written, SyncSucceeds, clock) == t.(pc := Publishing(t.pc.status))
  {
  }

  /** An exception anywhere between opening a retry and leaving the loop goes to the handler, which leaves an event, seals
      what is open as failed and records a failure; one inside the handler leaves the run where it is for good. */
  lemma ExceptionsGoToHandler(t: Thread, text: string, clock: real)
    requires !t.unannounced
    ensures LocalNext(t, Raise, clock) == if InRetry(t.pc) || t.pc.Opening? || t.pc.Leaving? then t.(pc := Handling) else t
    ensures t.pc.Handling? ==> LocalNext(t, HandlerEvent(text), clock) == t.(live := AppendEvent(t.live, text), pc := HandlerSealing)
    ensures t.pc.HandlerSealing? && Active(t.live.status) ==> LocalNext(t, HandlerSeal, clock).pc == Persisting(Failed, 0, true)
    ensures t.pc.Handling? || t.pc.HandlerSealing? ==> LocalNext(t, HandlerRaises, clock) == t.(pc := Stuck)
  {
  }

  // ---------------------------------------------------------------------------
  // Claims
  // ---------------------------------------------------------------------------

  /** What a run makes of the answer to its claim. */
  lemma ClaimAnswers(s: State, id: RunId, onConflict: TerminalStatus)
    requires id in s.threads && s.threads[id].pc.Claiming?
    ensures
      var t := s.threads[id];
      var claim := Lease(id, t.spec.priority, t.spec.resources, t.spec.forceAfter, t.spec.preemptible, None, false);
      var (table, outcome) := Attempt(s.table, s.closing, claim, t.live.stopRequested, s.clock, Some(t.pc.deadline));
      var s' := AttemptNext(s, id, onConflict);
      && s'.table == (if outcome.Acquired? || outcome.Waiting? then table else s.table)
      && s'.threads == s.threads[id :=
           if outcome.Waiting? then t
           else if outcome.Acquired? then t.(pc := Granted, granted := true)
           else t.(pc := RefusedClaim(outcome, onConflict))]
  {
    var t := s.threads[id];
    assert s.threads[id := t] == s.threads;
  }

  /** A run that is shut out goes to the exception handler, a cancelled one stops, and a refused one ends as its callback says. */
  lemma RefusalsExactly(outcome: Outcome, onConflict: TerminalStatus)
    requires !outcome.Acquired? && !outcome.Waiting?
    ensures outcome.ShuttingDown? <==> RefusedClaim(outcome, onConflict) == Handling
    ensures outcome.Cancelled? ==> RefusedClaim(outcome, onConflict) == Sealing(Stopped, Complete(Stopped))
    ensures outcome.Blocked? || outcome.TimedOut? ==> RefusedClaim(outcome, onConflict) == Sealing(Failed, Complete(onConflict))
  {
  }

  /** A waiting pass leaves its callbacks to be delivered, and writes each into the history of its holder. */
  lemma WaitingIsRecorded(s: State, table: Table, callbacks: map<RunId, Callback>, claim: Lease, target: RunId)
    requires callbacks.Keys <= s.table.Keys
    ensures
      var s' := Waited(s, table, callbacks, claim);
      && s'.table == table && s'.threads == s.threads
      && (forall callback :: (target, callback) in s'.pending <==>
            (target, callback) in s.pending || (target in callbacks && callbacks[target] == callback))
      && History(s'.requests, target) ==
           History(s.requests, target) + if target in callbacks then [Request(callbacks[target], s.table[target], claim, s.clock)] else []
  {
  }

  // ---------------------------------------------------------------------------
  // Records, publication, release
  // ---------------------------------------------------------------------------

  lemma RecordSteps(s: State, id: RunId)
    requires id in s.threads
    ensures
      var pc := s.threads[id].pc;
      && (pc.Persisting? ==>
            var s' := SharedStepNext(s, Upsert(id));
            && s'.durable == s.durable[id := Known(pc.status)] && s'.threads == s.threads[id := s'.threads[id]]
            && s'.threads[id].pc == Upserted(pc.status, pc.failures, pc.handler) && s'.table == s.table && s'.published == s.published)
      && (pc.Publishing? && Active(s.threads[id].live.status) ==>
            var s' := SharedStepNext(s, Publish(id));
            && id in s'.threads && s'.threads[id].live == s.threads[id].live.(status := pc.status) && s'.threads[id].pc.Releasing?
            && s'.published == s.published[id := pc.status] && s'.durable == s.durable && s'.table == s.table)
      && (pc.Releasing? ==>
            var s' := SharedStepNext(s, Release(id));
            && s'.table == s.table - {id} && id in s'.threads && s'.threads[id] == s.threads[id].(pc := Done) && s'.durable == s.durable)
      && ((pc.Claiming? || pc.Granted?) && id !in s.durable ==>
            SharedStepNext(s, WriteMetadata(id)) == s.(durable := s.durable[id := Unknown]))
      && (id in s.durable ==> SharedStepNext(s, WriteMetadata(id)) == s)
  {
  }

  // ---------------------------------------------------------------------------
  // Surroundings
  // ---------------------------------------------------------------------------

  /** A start that is neither refused nor fails to write its record makes a running run the current one of its manager. */
  lemma StartExactly(s: State, manager: ManagerId, id: RunId, spec: Spec, threadStarts: bool)
    requires manager in s.managers && id !in s.used && spec.manager == manager
    ensures
      var s' := StartNext(s, manager, id, spec, true, threadStarts);
      var m := s.managers[manager];
      var busy := m.current.Some? && m.current.value in m.registered && m.current.value in s.threads && Active(s.threads[m.current.value].live.status);
      if m.closing then s' == s
      else if busy then s'.threads == s.threads && s'.durable == s.durable && manager in s'.managers && s'.managers[manager].current == m.current
      else
        && s'.threads == s.threads[id := s'.threads[id]] && s'.threads[id].live == Run(id, Running, false, false, [])
        && s'.threads[id].pc == (if threadStarts then LoopHead(1) else Handling) && s'.threads[id].spec == spec
        && !s'.threads[id].granted && !s'.threads[id].unannounced
        && s'.durable == s.durable[id := Known(Running)] && s'.used == s.used + {id}
        && s'.managers == s.managers[manager := s'.managers[manager]] && s'.managers[manager].current == Some(id)
        && id in s'.managers[manager].registered
  {
  }

  /** A crash loses everything in memory, and recovery is left with exactly the records that say running or stopping, that of
      a half-started run included. */
  lemma CrashExactly(s: State, halfStarted: Option<RunId>, id: RunId)
    requires s.recovery.None?
    ensures
      var s' := Apply(s, Crash(halfStarted));
      var started := halfStarted == Some(id) && id !in s.used;
      && s'.threads == map[] && s'.table == map[] && s'.pending == {} && !s'.closing && s'.published == s.published
      && (forall m :: m in s.managers <==> m in s'.managers) && (forall m :: m in s'.managers ==> s'.managers[m] == Manager({}, None, false))
      && (id in s'.durable <==> id in s.durable || started)
      && (started ==> s'.durable[id] == Known(Running) && id in s'.used)
      && (!started && id in s.durable ==> s'.durable[id] == s.durable[id])
      && s'.recovery.Some?
      && (id in s'.recovery.value <==> id in s'.durable && s'.durable[id] in {Known(Running), Known(Stopping)})
  {
  }

  /** Recovery stops one of its records at a time and is over when none is left; nothing else happens meanwhile but crashes. */
  lemma RecoveryExactly(s: State, id: RunId)
    requires s.recovery.Some?
    ensures id in s.recovery.value ==>
      Apply(s, RecoverRecord(id)) == s.(durable := s.durable[id := Known(Stopped)], recovery := Some(s.recovery.value - {id}))
    ensures id !in s.recovery.value ==> Apply(s, RecoverRecord(id)) == s
    ensures Apply(s, Restart) == if s.recovery == Some({}) then s.(recovery := None) else s
    ensures forall step: Step :: !step.RecoverRecord? && !step.Restart? && !step.Crash? ==> Apply(s, step) == s
  {
  }

  /** Upkeep: an eviction drops what it names unless it is active; time goes forward; a closing is for good. */
  lemma UpkeepExactly(s: State, ids: set<RunId>, elapsed: real, manager: ManagerId, id: RunId)
    requires s.recovery.None?
    ensures
      var s' := Apply(s, Evict(ids));
      && s' == s.(durable := s'.durable)
      && (id in s'.durable <==> id in s.durable && (id !in ids || s.durable[id] in {Known(Running), Known(Stopping)}))
      && (id in s'.durable ==> s'.durable[id] == s.durable[id])
    ensures Apply(s, Tick(elapsed)) == if elapsed >= 0.0 then s.(clock := s.clock + elapsed) else s
    ensures Apply(s, CloseCoordinator) == s.(closing := true)
    ensures manager in s.managers ==>
      Apply(s, CloseManager(manager)) == s.(managers := s.managers[manager := s.managers[manager].(closing := true)])
  {
  }

  /** A finished run can be forgotten by its manager, an active one cannot. */
  lemma DiscardExactly(s: State, id: RunId)
    requires id in s.threads && s.threads[id].spec.manager in s.managers && id in s.managers[s.threads[id].spec.manager].registered
    ensures
      var manager := s.threads[id].spec.manager;
      var (m, s') := (s.managers[manager], DiscardNext(s, id));
      if s.threads[id].live.status in {Running, Stopping} then s' == s
      else s' == s.(managers := s.managers[manager :=
        Manager(m.registered - {id}, if m.current == Some(id) then None else m.current, m.closing)])
  {
  }

  /** A stop or force-stop request changes its run as its lock section says, and nothing else. */
  lemma StopsExactly(s: State, id: RunId, text: string)
    requires s.recovery.None? && id in s.threads
    ensures
      var t := s.threads[id];
      && Apply(s, Stop(id, text)) == s.(threads := s.threads[id := t.(live := StopSection(t.live, text))])
      && Apply(s, ForceStop(id, text)) == s.(threads := s.threads[id := t.(live := ForceStopSection(t.live, text))])
  {
  }

  /** A preemption callback reaches the run once, through its manager with an event if it is still registered there. */
  lemma DeliveryExactly(s: State, target: RunId, callback: Callback, text: string)
    requires (target, callback) in s.pending && target in s.threads
    ensures
      var s' := DeliverNext(s, target, callback, text);
      var (live, force) := (s.threads[target].live, callback == AskForceStop);
      var manager := s.threads[target].spec.manager;
      var registered := manager in s.managers && target in s.managers[manager].registered;
      && s' == s.(pending := s.pending - {(target, callback)}, threads := s'.threads) && s'.threads == s.threads[target := s'.threads[target]]
      && s'.threads[target].live ==
           if registered && force then ForceStopSection(live, text) else if registered then StopSection(live, text)
           else if force then RequestForceStop(live) else RequestStop(live)
  {
  }
}
