/** How runs end: the final status of a run in any execution, and what a stop request can and cannot do to it. */
module RunEndings {
  import opened Wrappers
  import opened LiveState
  import opened Lifecycle
  import opened LifecycleInvariant
  import opened LifecycleTheorems

  /** The exception handler takes the run over: it will be recorded as failed, whatever was asked of it. */
  predicate HandlerTakes(s: State, step: Step, id: RunId) {
    && s.recovery.None? && step == Local(id, HandlerSeal) && id in s.threads
    && s.threads[id].pc.HandlerSealing? && Active(s.threads[id].live.status)
  }

  /** The loop hands the run over for completion; this is the last look at the stop flag. */
  predicate LeaveTakes(s: State, step: Step, id: RunId) {
    && s.recovery.None? && step == Local(id, Leave) && id in s.threads
    && s.threads[id].pc.Leaving? && Active(s.threads[id].live.status)
  }

  /** The run is handed over as a failure with no stop requested so far. */
  predicate LeavesFailed(s: State, step: Step, id: RunId) {
    LeaveTakes(s, step, id) && s.threads[id].pc.status == Failed && !s.threads[id].live.stopRequested
  }

  predicate Handled(s: State, steps: seq<Step>, id: RunId)
    decreases |steps|
  {
    steps != [] && (HandlerTakes(s, steps[0], id) || Handled(Apply(s, steps[0]), steps[1..], id))
  }

  predicate LeftFailed(s: State, steps: seq<Step>, id: RunId)
    decreases |steps|
  {
    steps != [] && (LeavesFailed(s, steps[0], id) || LeftFailed(Apply(s, steps[0]), steps[1..], id))
  }

  /** Positions before the loop has handed the run over. */
  predicate BeforeLeave(pc: Pc) {
    InRetry(pc) || pc.LoopHead? || pc.Opening? || pc.Leaving?
  }

  /** The status under way is failed exactly if the handler took over or the loop left with an unstopped failure. */
  predicate EndingOk(t: Thread, handled: bool, failed: bool) {
    && (BeforeLeave(t.pc) ==> !handled && !failed)
    && (t.pc.Handling? || t.pc.HandlerSealing? ==> !handled)
    && (t.pc.Persisting? || t.pc.Upserted? ==> t.pc.handler == handled)
    && (t.pc.Persisting? || t.pc.Upserted? || t.pc.Publishing? ==> (t.pc.status == Failed <==> handled || failed))
    && (t.pc.Releasing? || t.pc.Done? ==> (t.live.status == Failed <==> handled || failed))
  }

  predicate EndingsOk(s: State, id: RunId, handled: bool, failed: bool) {
    && (id in s.threads ==> EndingOk(s.threads[id], handled, failed))
    && (id !in s.used ==> !handled && !failed)
  }

  lemma LocalEnding(id: RunId, t: Thread, step: LocalStep, clock: real, handled: bool, failed: bool)
    requires ThreadOk(id, t) && EndingOk(t, handled, failed)
    ensures
      var takes := step.HandlerSeal? && t.pc.HandlerSealing? && Active(t.live.status);
      var leaves := step.Leave? && t.pc.Leaving? && Active(t.live.status) && t.pc.status == Failed && !t.live.stopRequested;
      EndingOk(LocalNext(t, step, clock), handled || takes, failed || leaves)
  {
  }

  lemma ClaimEnding(s: State, id: RunId, onConflict: TerminalStatus, handled: bool, failed: bool)
    requires id in s.threads && s.threads[id].pc.Claiming? && EndingOk(s.threads[id], handled, failed)
    ensures EndingOk(AttemptNext(s, id, onConflict).threads[id], handled, failed)
  {
    AttemptThread(s, id, onConflict);
  }

  lemma SharedEnding(s: State, step: Step, handled: bool, failed: bool)
    requires SharedStep(step) && step.id in s.threads && ThreadOk(step.id, s.threads[step.id])
    requires EndingOk(s.threads[step.id], handled, failed)
    ensures
      var s' := SharedStepNext(s, step);
      step.id in s'.threads && EndingOk(s'.threads[step.id], handled, failed)
  {
    if step.AttemptClaim? && s.threads[step.id].pc.Claiming? {
      ClaimEnding(s, step.id, step.onConflict, handled, failed);
    }
  }

  lemma StopEnding(id: RunId, t: Thread, registered: bool, force: bool, text: string, handled: bool, failed: bool)
    requires ThreadOk(id, t) && EndingOk(t, handled, failed)
    ensures EndingOk(t.(live := StopRequested(t.live, registered, force, text)), handled, failed)
  {
    StopKeepsThreadOk(id, t, registered, force, text);
  }

  lemma StopStepEnding(s: State, step: Step, id: RunId, handled: bool, failed: bool)
    requires ThreadsOk(s.threads, s.used, s.durable) && StopStep(step) && EndingsOk(s, id, handled, failed)
    ensures EndingsOk(StopStepNext(s, step), id, handled, failed)
  {
    match step
    case Stop(target, text) => StopNextEnding(s, target, true, false, text, id, handled, failed);
    case ForceStop(target, text) => StopNextEnding(s, target, true, true, text, id, handled, failed);
    case Deliver(target, callback, text) =>
      var delivered := s.(pending := s.pending - {(target, callback)});
      StopNextEnding(delivered, target, Registered(s.threads, s.managers, target), callback.AskForceStop?, text, id, handled, failed);
  }

  lemma StopNextEnding(s: State, target: RunId, registered: bool, force: bool, text: string, id: RunId, handled: bool, failed: bool)
    requires ThreadsOk(s.threads, s.used, s.durable) && EndingsOk(s, id, handled, failed)
    ensures EndingsOk(StopNext(s, target, registered, force, text), id, handled, failed)
  {
    if target == id && id in s.threads {
      assert ThreadOk(id, s.threads[id]);
      StopEnding(id, s.threads[id], registered, force, text, handled, failed);
    }
  }

  lemma EnvironmentEnding(s: State, step: Step, id: RunId, handled: bool, failed: bool)
    requires EndingsOk(s, id, handled, failed)
    ensures EndingsOk(EnvironmentNext(s, step), id, handled, failed)
  {
    if !step.Start? && !step.Crash? {
      UpkeepLeavesThreads(s, step);
    }
  }

  lemma LocalStepEnding(s: State, step: Step, id: RunId, handled: bool, failed: bool)
    requires s.recovery.None? && step.Local? && EndingsOk(s, id, handled, failed)
    requires id in s.threads ==> id in s.used && ThreadOk(id, s.threads[id])
    ensures EndingsOk(Apply(s, step), id, handled || HandlerTakes(s, step, id), failed || LeavesFailed(s, step, id))
  {
    if step.id == id && id in s.threads {
      LocalEnding(id, s.threads[id], step.local, s.clock, handled, failed);
    }
  }

  lemma RecoveryEnding(s: State, step: Step, id: RunId, handled: bool, failed: bool)
    requires s.recovery.Some? && s.threads == map[] && EndingsOk(s, id, handled, failed)
    ensures EndingsOk(Apply(s, step), id, handled || HandlerTakes(s, step, id), failed || LeavesFailed(s, step, id))
  {
  }

  lemma StepEnding(s: State, step: Step, id: RunId, handled: bool, failed: bool)
    requires ThreadsOk(s.threads, s.used, s.durable) && PublishedOk(s.threads, s.published, s.used, s.durable)
    requires (s.recovery.Some? ==> s.threads == map[]) && EndingsOk(s, id, handled, failed)
    ensures EndingsOk(Apply(s, step), id, handled || HandlerTakes(s, step, id), failed || LeavesFailed(s, step, id))
  {
    if s.recovery.Some? {
      RecoveryEnding(s, step, id, handled, failed);
    } else {
      if step.Local? {
        LocalStepEnding(s, step, id, handled, failed);
      } else {
        OtherEnding(s, step, id, handled, failed);
      }
    }
  }

  lemma OtherEnding(s: State, step: Step, id: RunId, handled: bool, failed: bool)
    requires ThreadsOk(s.threads, s.used, s.durable) && PublishedOk(s.threads, s.published, s.used, s.durable)
    requires s.recovery.None? && EndingsOk(s, id, handled, failed) && !step.Local?
    ensures EndingsOk(Apply(s, step), id, handled, failed)
  {
    if SharedStep(step) {
      if step.id in s.threads { SharedStepOnly(s, step, id, handled, failed); }
    } else if StopStep(step) {
      StopStepEnding(s, step, id, handled, failed);
    } else {
      EnvironmentEnding(s, step, id, handled, failed);
    }
  }

  lemma SharedStepOnly(s: State, step: Step, id: RunId, handled: bool, failed: bool)
    requires ThreadsOk(s.threads, s.used, s.durable) && PublishedOk(s.threads, s.published, s.used, s.durable)
    requires SharedStep(step) && step.id in s.threads && EndingsOk(s, id, handled, failed)
    ensures EndingsOk(SharedStepNext(s, step), id, handled, failed)
  {
    SharedStepThread(s, step);
    assert ThreadOk(step.id, s.threads[step.id]);
    if step.id == id { SharedEnding(s, step, handled, failed); }
  }

  lemma {:induction false} ExecutionEnding(s: State, steps: seq<Step>, id: RunId, handled: bool, failed: bool)
    requires Inv(s) && EndingsOk(s, id, handled, failed)
    ensures EndingsOk(Execute(s, steps), id, handled || Handled(s, steps, id), failed || LeftFailed(s, steps, id))
    decreases |steps|
  {
    if steps != [] {
      StepEnding(s, steps[0], id, handled, failed);
      StepKeepsInv(s, steps[0]);
      ExecutionEnding(Apply(s, steps[0]), steps[1..], id,
        handled || HandlerTakes(s, steps[0], id), failed || LeavesFailed(s, steps[0], id));
    }
  }

  /** A run ends failed exactly if the exception handler took it over, or its loop left with a failure while no stop
      had been requested. So a run whose stop flag is up ends failed exactly in the first case, or if the stop came
      too late for the loop to see. */
  lemma EndsFailedExactly(managers: set<ManagerId>, steps: seq<Step>, id: RunId)
    requires id in Execute(Initial(managers), steps).threads
    requires !Active(Execute(Initial(managers), steps).threads[id].live.status)
    ensures Execute(Initial(managers), steps).threads[id].live.status == Failed <==>
      Handled(Initial(managers), steps, id) || LeftFailed(Initial(managers), steps, id)
  {
    InitialInv(managers);
    ExecutionInv(Initial(managers), steps);
    ExecutionEnding(Initial(managers), steps, id, false, false);
    assert ThreadOk(id, Execute(Initial(managers), steps).threads[id]);
  }

  // ---------------------------------------------------------------------------
  // Both cases happen to runs that were asked to stop
  // ---------------------------------------------------------------------------

  const RUN: RunId := "r"
  const MANAGER: ManagerId := "m"
  const SPEC := Spec(MANAGER, 0, [], None, true, 1)

  /** The run was stopped, failed all the same, and its record says so. */
  ghost predicate StoppedButFailed(steps: seq<Step>) {
    var s := Execute(Initial({MANAGER}), steps);
    && RUN in s.threads && s.threads[RUN].live.stopRequested && s.threads[RUN].live.status == Failed
    && RUN in s.durable && s.durable[RUN] == Known(Failed)
  }

  function Locals(locals: seq<LocalStep>): seq<Step> {
    seq(|locals|, i requires 0 <= i < |locals| => Local(RUN, locals[i]))
  }

  function LocalsNext(t: Thread, locals: seq<LocalStep>, clock: real): Thread
    decreases |locals|
  {
    if locals == [] then t else LocalsNext(LocalNext(t, locals[0], clock), locals[1..], clock)
  }

  /** Steps of the one thread change that thread only. */
  lemma {:induction false} ExecuteLocals(s: State, locals: seq<LocalStep>)
    requires s.recovery.None? && RUN in s.threads
    ensures Execute(s, Locals(locals)) == SetThread(s, RUN, LocalsNext(s.threads[RUN], locals, s.clock))
    decreases |locals|
  {
    if locals == [] {
      assert s.threads[RUN := s.threads[RUN]] == s.threads;
    } else {
      var next := SetThread(s, RUN, LocalNext(s.threads[RUN], locals[0], s.clock));
      assert Locals(locals)[1..] == Locals(locals[1..]) && Apply(s, Locals(locals)[0]) == next;
      ExecuteLocals(next, locals[1..]);
      var t := LocalsNext(s.threads[RUN], locals, s.clock);
      assert next.threads[RUN := t] == s.threads[RUN := t];
    }
  }

  const TO_HANDLER: seq<LocalStep> := [CheckLoop, OpenRetry]
  const HANDLER: seq<LocalStep> := [Raise, HandlerEvent("error"), HandlerSeal]
  const TO_FAILURE: seq<LocalStep> := [CheckLoop, OpenRetry, StartDecision(Failed, Failed), Seal, Leave]
  const STARTED := [Start(MANAGER, RUN, SPEC, true, true)]
  const STOPPED := [Stop(RUN, "stop")]

  /** Writing the status and publishing it. */
  const FINISH := [Upsert(RUN), Local(RUN, SyncSucceeds), Publish(RUN)]

  lemma StartedState()
    ensures
      var s := Execute(Initial({MANAGER}), STARTED);
      && s.recovery.None? && s.clock == 0.0
      && s.threads == map[RUN := Thread(SPEC, Run(RUN, Running, false, false, []), LoopHead(1), 0, false, false)]
      && s.managers == map[MANAGER := Manager({RUN}, Some(RUN), false)] && s.used == {RUN}
  {
    var s := Initial({MANAGER});
    assert STARTED[1..] == [];
    assert Execute(s, STARTED) == Apply(s, STARTED[0]);
    assert {} * ActiveRuns(s.threads) + {RUN} == {RUN};
  }

  lemma StopState(s: State)
    requires s.recovery.None? && RUN in s.threads
    ensures Execute(s, STOPPED) == SetThread(s, RUN, s.threads[RUN].(live := StopSection(s.threads[RUN].live, "stop")))
  {
    assert STOPPED[1..] == [];
  }

  lemma FinishState(s: State)
    requires s.recovery.None? && RUN in s.threads && s.threads[RUN].pc.Persisting? && Active(s.threads[RUN].live.status)
    requires !s.threads[RUN].unannounced
    ensures
      var (after, status) := (Execute(s, FINISH), s.threads[RUN].pc.status);
      && RUN in after.threads && after.threads[RUN].live == Finish(s.threads[RUN].live, status)
      && RUN in after.durable && after.durable[RUN] == Known(status)
      && after.recovery.None? && after.managers == s.managers && after.used == s.used && after.threads.Keys == s.threads.Keys
  {
    ThreeSteps(s, Upsert(RUN), Local(RUN, SyncSucceeds), Publish(RUN));
    var t := s.threads[RUN];
    var one := Apply(s, Upsert(RUN));
    assert one.threads[RUN] == t.(pc := Upserted(t.pc.status, t.pc.failures, t.pc.handler));
    var two := Apply(one, Local(RUN, SyncSucceeds));
    assert two.threads[RUN] == t.(pc := Publishing(t.pc.status));
  }

  lemma ThreeSteps(s: State, a: Step, b: Step, c: Step)
    ensures Execute(s, [a, b, c]) == Apply(Apply(Apply(s, a), b), c)
  {
    var one := Apply(s, a);
    var two := Apply(one, b);
    assert [a, b, c][1..] == [b, c] && [b, c][1..] == [c] && [c][1..] == [];
    assert Execute(s, [a, b, c]) == Execute(one, [b, c]) == Execute(two, [c]) == Apply(two, c);
  }

  lemma HandlerThread(t: Thread)
    requires t.pc == LoopHead(1) && t.spec == SPEC && t.live == Run(RUN, Running, false, false, []) && !t.unannounced
    ensures
      var hooks := LocalsNext(t, TO_HANDLER, 0.0);
      var stopped := hooks.(live := StopSection(hooks.live, "stop"));
      var handled := LocalsNext(stopped, HANDLER, 0.0);
      handled.pc == Persisting(Failed, 0, true) && !handled.unannounced && handled.live.stopRequested && handled.live.status == Stopping
  {
    HooksThread(t);
    var hooks := LocalsNext(t, TO_HANDLER, 0.0);
    HandledThread(hooks.(live := StopSection(hooks.live, "stop")));
  }

  lemma HooksThread(t: Thread)
    requires t.pc == LoopHead(1) && t.spec == SPEC && t.live == Run(RUN, Running, false, false, []) && !t.unannounced
    ensures
      var hooks := LocalsNext(t, TO_HANDLER, 0.0);
      hooks.pc == Hooks(1) && hooks.live == BeginRetry(t.live) && !hooks.unannounced
  {
    var one := LocalNext(t, CheckLoop, 0.0);
    var hooks := LocalNext(one, OpenRetry, 0.0);
    assert TO_HANDLER[1..] == [OpenRetry] && [OpenRetry][1..] == [];
    assert LocalsNext(t, TO_HANDLER, 0.0) == LocalsNext(one, [OpenRetry], 0.0) == LocalsNext(hooks, [], 0.0) == hooks;
  }

  lemma HandledThread(stopped: Thread)
    requires InRetry(stopped.pc) && stopped.live.stopRequested && stopped.live.status == Stopping && !stopped.unannounced
    ensures
      var handled := LocalsNext(stopped, HANDLER, 0.0);
      handled.pc == Persisting(Failed, 0, true) && !handled.unannounced && handled.live.stopRequested && handled.live.status == Stopping
  {
    ThreeLocals(stopped, Raise, HandlerEvent("error"), HandlerSeal);
    assert LocalNext(stopped, Raise, 0.0) == stopped.(pc := Handling);
    HandlerRuns(stopped.(pc := Handling));
  }

  lemma HandlerRuns(t: Thread)
    requires t.pc.Handling? && t.live.stopRequested && t.live.status == Stopping && !t.unannounced
    ensures
      var handled := LocalNext(LocalNext(t, HandlerEvent("error"), 0.0), HandlerSeal, 0.0);
      handled.pc == Persisting(Failed, 0, true) && !handled.unannounced && handled.live.stopRequested && handled.live.status == Stopping
  {
    assert LocalNext(t, HandlerEvent("error"), 0.0) == t.(live := AppendEvent(t.live, "error"), pc := HandlerSealing);
  }

  lemma ThreeLocals(t: Thread, a: LocalStep, b: LocalStep, c: LocalStep)
    ensures LocalsNext(t, [a, b, c], 0.0) == LocalNext(LocalNext(LocalNext(t, a, 0.0), b, 0.0), c, 0.0)
  {
    var one := LocalNext(t, a, 0.0);
    var two := LocalNext(one, b, 0.0);
    assert [a, b, c][1..] == [b, c] && [b, c][1..] == [c] && [c][1..] == [];
    assert LocalsNext(t, [a, b, c], 0.0) == LocalsNext(one, [b, c], 0.0) == LocalsNext(two, [c], 0.0) == LocalNext(two, c, 0.0);
  }

  lemma FailureThread(t: Thread)
    requires t.pc == LoopHead(1) && t.spec == SPEC && t.live == Run(RUN, Running, false, false, []) && !t.unannounced
    ensures
      var left := LocalsNext(t, TO_FAILURE, 0.0);
      left.pc == Persisting(Failed, 0, false) && !left.unannounced && left.live.status == Running && !left.live.stopRequested
  {
    var two := LocalNext(LocalNext(t, CheckLoop, 0.0), OpenRetry, 0.0);
    assert two == t.(live := BeginRetry(t.live), position := 0, pc := Hooks(1));
    var (rest, last) := ([StartDecision(Failed, Failed)] + [Seal, Leave], [OpenRetry, StartDecision(Failed, Failed), Seal, Leave]);
    assert TO_FAILURE[1..] == last && last[1..] == rest;
    assert LocalsNext(t, TO_FAILURE, 0.0) == LocalsNext(LocalNext(t, CheckLoop, 0.0), last, 0.0) == LocalsNext(two, rest, 0.0);
    FailedStart(two);
  }

  lemma FailedStart(t: Thread)
    requires t.pc.Hooks? && t.position < |t.live.retries| && t.live.status == Running && !t.live.stopRequested && !t.unannounced
    ensures
      var left := LocalsNext(t, [StartDecision(Failed, Failed)] + [Seal, Leave], 0.0);
      left.pc == Persisting(Failed, 0, false) && !left.unannounced && left.live.status == Running && !left.live.stopRequested
  {
    assert [StartDecision(Failed, Failed)] + [Seal, Leave] == [StartDecision(Failed, Failed), Seal, Leave];
    ThreeLocals(t, StartDecision(Failed, Failed), Seal, Leave);
    var sealing := LocalNext(t, StartDecision(Failed, Failed), 0.0);
    assert sealing == t.(pc := Sealing(Failed, Complete(Failed)));
  }

  /** A stop before an exception: the handler records a failure without looking at the flag. */
  lemma StopThenHandlerFails()
    ensures StoppedButFailed(STARTED + (Locals(TO_HANDLER) + (STOPPED + (Locals(HANDLER) + FINISH))))
    ensures Handled(Initial({MANAGER}), STARTED + (Locals(TO_HANDLER) + (STOPPED + (Locals(HANDLER) + FINISH))), RUN)
  {
    var s := Initial({MANAGER});
    var steps := STARTED + (Locals(TO_HANDLER) + (STOPPED + (Locals(HANDLER) + FINISH)));
    StartedState();
    var s1 := Execute(s, STARTED);
    ExecuteConcat(s, STARTED, Locals(TO_HANDLER) + (STOPPED + (Locals(HANDLER) + FINISH)));
    ExecuteLocals(s1, TO_HANDLER);
    var s2 := Execute(s1, Locals(TO_HANDLER));
    ExecuteConcat(s1, Locals(TO_HANDLER), STOPPED + (Locals(HANDLER) + FINISH));
    StopState(s2);
    var s3 := Execute(s2, STOPPED);
    ExecuteConcat(s2, STOPPED, Locals(HANDLER) + FINISH);
    ExecuteLocals(s3, HANDLER);
    var s4 := Execute(s3, Locals(HANDLER));
    ExecuteConcat(s3, Locals(HANDLER), FINISH);
    HandlerThread(s1.threads[RUN]);
    FinishState(s4);
    EndsFailedExactly({MANAGER}, steps, RUN);
    NeverLeft(steps);
  }

  /** No step of these is a `Leave`. */
  lemma {:induction false} NoLeave(s: State, steps: seq<Step>)
    requires forall i :: 0 <= i < |steps| ==> steps[i] != Local(RUN, Leave)
    ensures !LeftFailed(s, steps, RUN)
    decreases |steps|
  {
    if steps != [] { NoLeave(Apply(s, steps[0]), steps[1..]); }
  }

  lemma NeverLeft(steps: seq<Step>)
    requires steps == STARTED + (Locals(TO_HANDLER) + (STOPPED + (Locals(HANDLER) + FINISH)))
    ensures !LeftFailed(Initial({MANAGER}), steps, RUN)
  {
    forall step | step in steps ensures step != Local(RUN, Leave) {
    }
    NoLeave(Initial({MANAGER}), steps);
  }

  /** A stop after the loop has left: nothing looks at the flag any more. */
  lemma StopAfterLeaveFails()
    ensures StoppedButFailed(STARTED + (Locals(TO_FAILURE) + (STOPPED + FINISH)))
    ensures !Handled(Initial({MANAGER}), STARTED + (Locals(TO_FAILURE) + (STOPPED + FINISH)), RUN)
  {
    var s := Initial({MANAGER});
    var steps := STARTED + (Locals(TO_FAILURE) + (STOPPED + FINISH));
    StartedState();
    var s1 := Execute(s, STARTED);
    ExecuteConcat(s, STARTED, Locals(TO_FAILURE) + (STOPPED + FINISH));
    ExecuteLocals(s1, TO_FAILURE);
    var s2 := Execute(s1, Locals(TO_FAILURE));
    ExecuteConcat(s1, Locals(TO_FAILURE), STOPPED + FINISH);
    StopState(s2);
    var s3 := Execute(s2, STOPPED);
    ExecuteConcat(s2, STOPPED, FINISH);
    FailureThread(s1.threads[RUN]);
    FinishState(s3);
    NeverHandled(steps);
  }

  lemma NeverHandled(steps: seq<Step>)
    requires steps == STARTED + (Locals(TO_FAILURE) + (STOPPED + FINISH))
    ensures !Handled(Initial({MANAGER}), steps, RUN)
  {
    forall step | step in steps ensures step != Local(RUN, HandlerSeal) {
    }
    NoHandler(Initial({MANAGER}), steps);
  }

  lemma {:induction false} NoHandler(s: State, steps: seq<Step>)
    requires forall i :: 0 <= i < |steps| ==> steps[i] != Local(RUN, HandlerSeal)
    ensures !Handled(s, steps, RUN)
    decreases |steps|
  {
    if steps != [] { NoHandler(Apply(s, steps[0]), steps[1..]); }
  }
}
