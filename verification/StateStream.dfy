/** One open state stream: what its first event leaves the client with, and which changes of a manager reach it. */
module StateStream {
  import opened Wrappers
  import Coordinator
  import opened LiveState
  import opened Sse
  import opened RunStream
  import opened Replication
  import opened Lifecycle
  import opened LifecycleInvariant
  import opened LifecycleTheorems
  import opened RunEndings

  /** What a client that held this snapshot has after a cursor patch is the server's snapshot. */
  predicate Resumes(held: Snapshot, current: Snapshot)
    requires Named(held) && Named(current)
  {
    current == IDLE || Resumed(held, current) == current.retries
  }

  class StateEvents {
    var previous: Snapshot
    var version: int

    constructor (snapshot: Snapshot, version: int)
      ensures previous == snapshot && this.version == version
    {
      previous := snapshot;
      this.version := version;
    }

    /** The first event: nothing exactly for the version the stream is at; a client without a version, or with a
        later one, ends with the stream's snapshot whatever it held; a client with an earlier version ends with it
        exactly if cutting what it held gives the right list. */
    method Opening(requestedVersion: Option<int>, cursor: nat) returns (event: Option<Event>)
      ensures event.None? <==> requestedVersion == Some(version)
      ensures Named(previous) && (requestedVersion.None? || requestedVersion.value > version) ==>
        forall client :: Synced(ApplyEvent(client, event.value), previous)
      ensures Named(previous) && requestedVersion.Some? && requestedVersion.value < version ==>
        forall client, held :: Synced(client, held) && Named(held) && |held.retries| == cursor ==>
          && ApplyEvent(client, event.value).run == Some(previous.run)
          && (Synced(ApplyEvent(client, event.value), previous) <==> Resumes(held, previous))
      ensures Named(previous) && event.Some? ==> forall client :: ApplyEvent(client, event.value).streamVersion == Some(version)
    {
      if requestedVersion.None? || requestedVersion.value > version {
        event := Some(ResetEvent(previous, version));
        if Named(previous) {
          forall client ensures Synced(ApplyEvent(client, event.value), previous) { ResetSyncs(client, previous, version); }
        }
      } else if requestedVersion.value < version {
        event := Some(CursorPatch(previous, cursor, version));
        forall client, held | Synced(client, held) && Named(held) && Named(previous) && |held.retries| == cursor
          ensures ApplyEvent(client, event.value).run == Some(previous.run)
          ensures Synced(ApplyEvent(client, event.value), previous) <==> Resumes(held, previous)
        {
          CursorRestoresExactly(client, held, previous, version);
        }
      } else {
        event := None;
      }
    }

    method Changed(current: Snapshot, nextVersion: int) returns (event: Option<Event>)
      modifies this
      ensures event == StatePatch(old(previous), current, nextVersion)
      ensures previous == current && version == nextVersion
    {
      var retries := ListPatchOf(previous.retries, current.retries);
      var run := if current.run != previous.run then Some(current.run) else None;
      event := if run.None? && retries.None? then None else Some(PatchEvent(run, retries, nextVersion));
      previous := current;
      version := nextVersion;
    }
  }

  // ---------------------------------------------------------------------------
  // The version of a manager
  // ---------------------------------------------------------------------------

  predicate LocalNotifies(t: Thread, step: LocalStep) {
    if t.unannounced then step.Announce? else FreeNotifies(t, step)
  }

  predicate FreeNotifies(t: Thread, step: LocalStep) {
    match step
    case OpenRetry => t.pc.Opening?
    case Note(_) => InRetry(t.pc)
    case Seal => t.pc.Sealing? && t.position < |t.live.retries| && !t.live.retries[t.position].closed
    case HandlerEvent(_) => t.pc.Handling?
    case HandlerSeal => t.pc.HandlerSealing? && HasOpenRetry(t.live)
    case _ => false
  }

  predicate Owns(s: State, manager: ManagerId, id: RunId) {
    id in s.threads && s.threads[id].spec.manager == manager
  }

  /** A start the manager looks into: it is not shutting down. */
  predicate Considered(s: State, step: Step, manager: ManagerId) {
    && step.Start? && step.manager == manager && manager in s.managers && step.id !in s.used
    && step.spec.manager == manager && !s.managers[manager].closing
  }

  predicate CurrentIsActive(s: State, manager: ManagerId)
    requires manager in s.managers
  {
    var m := s.managers[manager];
    m.current.Some? && m.current.value in m.registered && m.current.value in ActiveRuns(s.threads)
  }

  /** The manager raises its version in this step and wakes its streams. */
  predicate Notifies(s: State, step: Step, manager: ManagerId) {
    s.recovery.None? &&
    match step
    case Local(id, local) => Owns(s, manager, id) && LocalNotifies(s.threads[id], local)
    case Publish(id) => Owns(s, manager, id) && s.threads[id].pc.Publishing? && Active(s.threads[id].live.status)
    case Stop(id, _) => Owns(s, manager, id) && Active(s.threads[id].live.status)
    case ForceStop(id, _) => Owns(s, manager, id) && Active(s.threads[id].live.status)
    case Deliver(target, callback, _) =>
      && (target, callback) in s.pending && Owns(s, manager, target) && Registered(s.threads, s.managers, target)
      && Active(s.threads[target].live.status)
    case Start(_, _, _, created, _) => Considered(s, step, manager) && created && !CurrentIsActive(s, manager)
    case DiscardTerminal(id) =>
      Owns(s, manager, id) && Registered(s.threads, s.managers, id) && !Active(s.threads[id].live.status)
    case CloseManager(m) => m == manager
    case _ => false
  }

  /** A step of a run's own thread tells the manager exactly if it changes the run, except for output: that is told
      when it is announced, and nothing else the thread does meanwhile is. */
  lemma LocalNotifiesExactly(s: State, id: RunId, local: LocalStep, manager: ManagerId)
    requires s.recovery.None? && id in s.threads && ThreadOk(id, s.threads[id])
    ensures
      var t := s.threads[id];
      Notifies(s, Local(id, local), manager) <==>
        && t.spec.manager == manager
        && if t.unannounced then local == Announce else !local.Output? && LocalNext(t, local, s.clock).live != t.live
  {
    if !s.threads[id].unannounced { ChangesAreTold(id, s.threads[id], local, s.clock); }
  }

  lemma ChangesAreTold(id: RunId, t: Thread, local: LocalStep, clock: real)
    requires ThreadOk(id, t) && !t.unannounced
    ensures LocalNotifies(t, local) <==> !local.Output? && LocalNext(t, local, clock).live != t.live
  {
    match local
    case OpenRetry => OperationsChange(t.live, "", t.position, Failed);
    case Note(text) => OperationsChange(t.live, text, t.position, Failed);
    case HandlerEvent(text) => OperationsChange(t.live, text, t.position, Failed);
    case Seal => if t.pc.Sealing? { OperationsChange(t.live, "", t.position, t.pc.retryStatus); }
    case HandlerSeal => OperationsChange(t.live, "", |t.live.retries| - 1, Failed);
    case _ =>
  }

  lemma OperationsChange(run: Run, text: string, position: int, status: Status)
    ensures BeginRetry(run) != run && AppendEvent(run, text) != run
    ensures 0 <= position < |run.retries| && !run.retries[position].closed ==> SealRetry(run, position, status) != run
  {
    assert |BeginRetry(run).retries| == |run.retries| + 1;
    if HasOpenRetry(run) {
      var last := |run.retries| - 1;
      assert |AppendEvent(run, text).retries[last].log| == |run.retries[last].log| + 1;
    }
    if 0 <= position < |run.retries| && !run.retries[position].closed {
      assert SealRetry(run, position, status).retries[position].closed;
    }
  }

  /** A stop request tells the manager whenever its run is not finished, also one that changes nothing. */
  lemma StopNotifiesExactly(s: State, id: RunId, text: string, manager: ManagerId)
    requires s.recovery.None?
    ensures Notifies(s, Stop(id, text), manager) == Notifies(s, ForceStop(id, text), manager) == (
      id in s.threads && s.threads[id].spec.manager == manager && Active(s.threads[id].live.status))
  {
  }

  /** Of the steps on what all runs share, publishing a final status tells the manager, and nothing else does. */
  lemma SharedNotifiesExactly(s: State, id: RunId, status: TerminalStatus, elapsed: real, manager: ManagerId)
    requires s.recovery.None?
    ensures Notifies(s, Publish(id), manager) == (
      id in s.threads && s.threads[id].spec.manager == manager && s.threads[id].pc.Publishing? && Active(s.threads[id].live.status))
    ensures !Notifies(s, AttemptClaim(id, status), manager) && !Notifies(s, WriteMetadata(id), manager)
    ensures !Notifies(s, Upsert(id), manager) && !Notifies(s, Release(id), manager) && !Notifies(s, Tick(elapsed), manager)
    ensures !Notifies(s, CloseCoordinator, manager) && !Notifies(s, RecoverRecord(id), manager) && !Notifies(s, Restart, manager)
    ensures Notifies(s, CloseManager(manager), manager)
  {
  }

  /** A delivered preemption request tells the manager exactly if it was due, the manager still knows the run, and the run is
      not finished. */
  lemma DeliveryNotifiesExactly(s: State, target: RunId, callback: Coordinator.Callback, text: string, manager: ManagerId)
    requires s.recovery.None?
    ensures Notifies(s, Deliver(target, callback, text), manager) == (
      && (target, callback) in s.pending && target in s.threads && s.threads[target].spec.manager == manager
      && manager in s.managers && target in s.managers[manager].registered && Active(s.threads[target].live.status))
  {
  }

  /** A start tells the manager exactly if it makes a run; forgetting a run exactly if it is known and finished. */
  lemma StartNotifiesExactly(s: State, step: Step, id: RunId, manager: ManagerId)
    requires s.recovery.None? && manager in s.managers && VisibleOk(s)
    ensures step.Start? ==> (
      Notifies(s, step, manager) <==> step.manager == manager && step.id !in s.used && step.id in Apply(s, step).threads)
    ensures Notifies(s, DiscardTerminal(id), manager) <==>
      && id in s.threads && s.threads[id].spec.manager == manager
      && id in s.managers[manager].registered && !Active(s.threads[id].live.status)
  {
  }

  /** A start forgets the finished current run and then fails to create its record. */
  predicate SilentlyForgets(s: State, step: Step, manager: ManagerId) {
    && s.recovery.None? && Considered(s, step, manager) && !step.created
    && var m := s.managers[manager];
       m.current.Some? && m.current.value in m.registered && m.current.value !in ActiveRuns(s.threads)
  }

  /** The thread of a run appends output to its log, which it does before it takes the lock to tell the manager. */
  predicate AppendsSilently(s: State, step: Step, manager: ManagerId) {
    && s.recovery.None? && step.Local? && step.local.Output? && Owns(s, manager, step.id)
    && Appends(s.threads[step.id])
  }

  predicate Appends(t: Thread) {
    !t.unannounced && Prints(t.pc) && t.position < |t.live.retries|
  }

  /** Some run of the manager has output in its log that the manager has not been told of. */
  predicate Pending(s: State, manager: ManagerId) {
    exists id :: id in s.threads && Owns(s, manager, id) && s.threads[id].unannounced
  }

  /** What the visible state rests on. */
  ghost predicate VisibleOk(s: State) {
    && ManagersOk(s.threads, s.managers)
    && (forall id :: id in s.threads ==> id in s.used)
    && (forall id :: id in s.threads && InRetry(s.threads[id].pc) ==> Active(s.threads[id].live.status))
    && (forall id :: id in s.threads && s.threads[id].unannounced ==> Prints(s.threads[id].pc))
    && (s.recovery.Some? ==> s.threads == map[])
  }

  lemma InvIsVisibleOk(s: State)
    requires Inv(s)
    ensures VisibleOk(s)
  {
  }

  /** The response looks at nothing but the current run of the manager. */
  lemma SameResponse(s: State, s': State, manager: ManagerId)
    requires manager in s.managers && manager in s'.managers && s'.managers[manager].current == s.managers[manager].current
    requires s'.managers[manager].registered == s.managers[manager].registered
    requires forall id :: id in s.managers[manager].registered && id in s.threads ==> id in s'.threads && s'.threads[id].live == s.threads[id].live
    requires VisibleOk(s)
    ensures CurrentResponse(s', manager) == CurrentResponse(s, manager)
  {
  }

  lemma LocalVisible(s: State, id: RunId, local: LocalStep, manager: ManagerId)
    requires VisibleOk(s) && s.recovery.None? && manager in s.managers && id in s.threads
    requires s.threads[id].spec.manager == manager ==> !LocalNotifies(s.threads[id], local) && !(local.Output? && Appends(s.threads[id]))
    ensures CurrentResponse(SetThread(s, id, LocalNext(s.threads[id], local, s.clock)), manager) == CurrentResponse(s, manager)
  {
    var t := s.threads[id];
    if t.spec.manager == manager {
      QuietLocal(t, local, s.clock);
    }
    SameResponse(s, SetThread(s, id, LocalNext(t, local, s.clock)), manager);
  }

  lemma QuietLocal(t: Thread, local: LocalStep, clock: real)
    requires !LocalNotifies(t, local) && !(local.Output? && Appends(t))
    ensures LocalNext(t, local, clock).live == t.live
  {
  }

  /** The run that prints is the current one of its manager, so its output is visible at once. */
  lemma OutputVisible(s: State, id: RunId, text: string, manager: ManagerId)
    requires VisibleOk(s) && s.recovery.None? && manager in s.managers && Owns(s, manager, id) && Appends(s.threads[id])
    ensures CurrentResponse(Apply(s, Local(id, Output(text))), manager) != CurrentResponse(s, manager)
  {
    var t := s.threads[id];
    assert s.managers[manager].current == Some(id) && id in s.managers[manager].registered;
    var after := AppendLog(t.live, t.position, text);
    assert Apply(s, Local(id, Output(text))).threads[id].live == after;
    assert |after.retries[t.position].log| == |t.live.retries[t.position].log| + 1;
    assert SnapshotOf(after).retries != SnapshotOf(t.live).retries;
  }

  /** At most the one thread has changed. */
  predicate OnlyThread(s: State, s': State, id: RunId) {
    s'.managers == s.managers && id in s'.threads && s'.threads == s.threads[id := s'.threads[id]]
  }

  /** Of the steps that touch what runs share, only publishing changes a run. */
  lemma SharedLive(s: State, step: Step)
    requires SharedStep(step) && step.id in s.threads
    ensures OnlyThread(s, SharedStepNext(s, step), step.id)
    ensures SharedStepNext(s, step).threads[step.id].live == s.threads[step.id].live
            || (step.Publish? && s.threads[step.id].pc.Publishing? && Active(s.threads[step.id].live.status))
  {
    assert s.threads[step.id := s.threads[step.id]] == s.threads;
    if step.Publish? {
      if s.threads[step.id].pc.Publishing? { PublishOnly(s, step.id); }
    } else if step.AttemptClaim? {
      AttemptOnly(s, step);
    } else if step.Release? {
      ReleaseOnly(s, step);
    } else {
      RecordOnly(s, step);
    }
  }

  lemma AttemptOnly(s: State, step: Step)
    requires step.AttemptClaim? && step.id in s.threads && s.threads[step.id := s.threads[step.id]] == s.threads
    ensures OnlyThread(s, SharedStepNext(s, step), step.id)
    ensures SharedStepNext(s, step).threads[step.id].live == s.threads[step.id].live
  {
  }

  lemma RecordOnly(s: State, step: Step)
    requires (step.WriteMetadata? || step.Upsert?) && step.id in s.threads && s.threads[step.id := s.threads[step.id]] == s.threads
    ensures OnlyThread(s, SharedStepNext(s, step), step.id)
    ensures SharedStepNext(s, step).threads[step.id].live == s.threads[step.id].live
  {
  }

  lemma ReleaseOnly(s: State, step: Step)
    requires step.Release? && step.id in s.threads && s.threads[step.id := s.threads[step.id]] == s.threads
    ensures OnlyThread(s, SharedStepNext(s, step), step.id)
    ensures SharedStepNext(s, step).threads[step.id].live == s.threads[step.id].live
  {
  }

  lemma PublishOnly(s: State, id: RunId)
    requires id in s.threads && s.threads[id].pc.Publishing?
    ensures OnlyThread(s, PublishNext(s, id), id)
    ensures !Active(s.threads[id].live.status) ==> PublishNext(s, id).threads[id].live == s.threads[id].live
  {
  }

  lemma SnapshotIsNotIdle(run: Run)
    ensures SnapshotOf(run) != IDLE
  {
    assert "id" in RunDict(run) && "id" !in IDLE_RUN;
  }

  lemma SharedVisible(s: State, step: Step, manager: ManagerId)
    requires VisibleOk(s) && s.recovery.None? && manager in s.managers && SharedStep(step) && step.id in s.threads
    requires !Notifies(s, step, manager)
    ensures
      var s' := SharedStepNext(s, step);
      manager in s'.managers && CurrentResponse(s', manager) == CurrentResponse(s, manager)
  {
    SharedLive(s, step);
    SameResponse(s, SharedStepNext(s, step), manager);
  }

  lemma StopVisible(s: State, id: RunId, registered: bool, force: bool, text: string, manager: ManagerId)
    requires VisibleOk(s) && manager in s.managers
    requires id in s.managers[manager].registered && id in s.threads ==> !Active(s.threads[id].live.status)
    ensures CurrentResponse(StopNext(s, id, registered, force, text), manager) == CurrentResponse(s, manager)
  {
    SameResponse(s, StopNext(s, id, registered, force, text), manager);
  }

  lemma StopStepVisible(s: State, step: Step, manager: ManagerId)
    requires VisibleOk(s) && s.recovery.None? && manager in s.managers && StopStep(step) && !Notifies(s, step, manager)
    ensures
      var s' := StopStepNext(s, step);
      manager in s'.managers && CurrentResponse(s', manager) == CurrentResponse(s, manager)
  {
    match step
    case Stop(id, text) => StopVisible(s, id, true, false, text, manager);
    case ForceStop(id, text) => StopVisible(s, id, true, true, text, manager);
    case Deliver(target, callback, text) =>
      if (target, callback) in s.pending {
        var taken := s.(pending := s.pending - {(target, callback)});
        SameResponse(s, taken, manager);
        StopVisible(taken, target, Registered(s.threads, s.managers, target), callback.AskForceStop?, text, manager);
      }
  }

  lemma StartVisible(s: State, step: Step, manager: ManagerId)
    requires VisibleOk(s) && s.recovery.None? && manager in s.managers && step.Start? && !Notifies(s, step, manager)
    ensures
      var s' := EnvironmentNext(s, step);
      && manager in s'.managers
      && (SilentlyForgets(s, step, manager) ==> CurrentResponse(s, manager) != IDLE && CurrentResponse(s', manager) == IDLE)
      && (!SilentlyForgets(s, step, manager) ==> CurrentResponse(s', manager) == CurrentResponse(s, manager))
  {
    if step.manager != manager {
      SameResponse(s, EnvironmentNext(s, step), manager);
    } else if Considered(s, step, manager) {
      ConsideredVisible(s, step, manager);
    } else {
      assert EnvironmentNext(s, step) == s;
    }
  }

  /** A considered start that does not notify: the current run is under way, or its record cannot be created. */
  lemma ConsideredVisible(s: State, step: Step, manager: ManagerId)
    requires VisibleOk(s) && s.recovery.None? && Considered(s, step, manager) && !Notifies(s, step, manager)
    ensures
      var s' := EnvironmentNext(s, step);
      && s'.threads == s.threads && manager in s'.managers
      && (SilentlyForgets(s, step, manager) ==> CurrentResponse(s, manager) != IDLE && CurrentResponse(s', manager) == IDLE)
      && (!SilentlyForgets(s, step, manager) ==> CurrentResponse(s', manager) == CurrentResponse(s, manager))
  {
    var m := s.managers[manager];
    var left := WithoutTerminal(m, ActiveRuns(s.threads));
    assert EnvironmentNext(s, step) == s.(managers := s.managers[manager := left]);
    if SilentlyForgets(s, step, manager) {
      SnapshotIsNotIdle(s.threads[m.current.value].live);
    }
  }

  lemma EnvironmentVisible(s: State, step: Step, manager: ManagerId)
    requires VisibleOk(s) && s.recovery.None? && manager in s.managers
    requires !step.Start? && !step.Crash? && !step.Local? && !SharedStep(step) && !StopStep(step) && !Notifies(s, step, manager)
    ensures
      var s' := EnvironmentNext(s, step);
      manager in s'.managers && CurrentResponse(s', manager) == CurrentResponse(s, manager)
  {
    if step.DiscardTerminal? {
      DiscardVisible(s, step.id, manager);
    } else {
      assert EnvironmentNext(s, step).threads == s.threads;
      SameResponse(s, EnvironmentNext(s, step), manager);
    }
  }

  lemma DiscardVisible(s: State, id: RunId, manager: ManagerId)
    requires VisibleOk(s) && s.recovery.None? && manager in s.managers && !Notifies(s, DiscardTerminal(id), manager)
    ensures manager in DiscardNext(s, id).managers && CurrentResponse(DiscardNext(s, id), manager) == CurrentResponse(s, manager)
  {
    SameResponse(s, DiscardNext(s, id), manager);
  }

  lemma LocalChange(s: State, step: Step, manager: ManagerId)
    requires VisibleOk(s) && s.recovery.None? && manager in s.managers && step.Local? && !Notifies(s, step, manager)
    ensures CurrentResponse(Apply(s, step), manager) != CurrentResponse(s, manager) <==> AppendsSilently(s, step, manager)
  {
    if AppendsSilently(s, step, manager) {
      OutputVisible(s, step.id, step.local.text, manager);
    } else if step.id in s.threads {
      LocalVisible(s, step.id, step.local, manager);
    }
  }

  /** As long as the backend stays up, what a manager answers changes without a new version exactly if a start has
      forgotten its finished current run and then failed to create its record, or a run has appended output to its log
      and not yet taken the lock to announce it. */
  lemma ChangesRaiseVersion(s: State, step: Step, manager: ManagerId)
    requires VisibleOk(s) && manager in s.managers && !step.Crash?
    ensures manager in Apply(s, step).managers
    ensures !Notifies(s, step, manager) ==>
      (CurrentResponse(Apply(s, step), manager) != CurrentResponse(s, manager) <==>
        SilentlyForgets(s, step, manager) || AppendsSilently(s, step, manager))
  {
    if s.recovery.Some? {
      assert !SilentlyForgets(s, step, manager);
    } else if step.Local? {
      if !Notifies(s, step, manager) { LocalChange(s, step, manager); }
    } else {
      OtherChange(s, step, manager);
    }
  }

  lemma OtherChange(s: State, step: Step, manager: ManagerId)
    requires VisibleOk(s) && s.recovery.None? && manager in s.managers && !step.Crash? && !step.Local?
    ensures manager in Apply(s, step).managers
    ensures !Notifies(s, step, manager) ==>
      (CurrentResponse(Apply(s, step), manager) != CurrentResponse(s, manager) <==> SilentlyForgets(s, step, manager))
  {
    StepKeepsManagers(s, step);
    if SharedStep(step) {
      if step.id in s.threads && !Notifies(s, step, manager) { SharedVisible(s, step, manager); }
    } else if StopStep(step) {
      if !Notifies(s, step, manager) { StopStepVisible(s, step, manager); }
    } else if step.Start? {
      if !Notifies(s, step, manager) { StartVisible(s, step, manager); }
    } else if !Notifies(s, step, manager) {
      EnvironmentVisible(s, step, manager);
    }
  }

  // ---------------------------------------------------------------------------
  // Output on its way
  // ---------------------------------------------------------------------------

  /** Whether the run has output on its way after the step. */
  predicate MarkAfter(s: State, step: Step, id: RunId)
    requires id in s.threads
  {
    var t := s.threads[id];
    if s.recovery.Some? || !step.Local? || step.id != id then t.unannounced
    else if t.unannounced then !step.local.Announce?
    else step.local.Output? && Appends(t)
  }

  predicate SameMark(t: Thread, t': Thread) {
    t'.spec == t.spec && t'.unannounced == t.unannounced
  }

  lemma LocalMark(t: Thread, local: LocalStep, clock: real)
    ensures
      var t' := LocalNext(t, local, clock);
      && t'.spec == t.spec
      && (t'.unannounced <==> if t.unannounced then !local.Announce? else local.Output? && Appends(t))
  {
  }

  lemma SharedMark(s: State, step: Step)
    requires SharedStep(step) && step.id in s.threads
    ensures
      var s' := SharedStepNext(s, step);
      step.id in s'.threads && SameMark(s.threads[step.id], s'.threads[step.id])
  {
    if step.AttemptClaim? {
      if s.threads[step.id].pc.Claiming? { AttemptMark(s, step.id, step.onConflict); }
    } else if step.Publish? {
      if s.threads[step.id].pc.Publishing? { PublishMark(s, step.id); }
    } else {
      RecordMark(s, step);
    }
  }

  lemma AttemptMark(s: State, id: RunId, onConflict: TerminalStatus)
    requires id in s.threads && s.threads[id].pc.Claiming?
    ensures SameMark(s.threads[id], AttemptNext(s, id, onConflict).threads[id])
  {
    AttemptThread(s, id, onConflict);
  }

  lemma PublishMark(s: State, id: RunId)
    requires id in s.threads && s.threads[id].pc.Publishing?
    ensures id in PublishNext(s, id).threads && SameMark(s.threads[id], PublishNext(s, id).threads[id])
  {
    var t := s.threads[id];
    assert PublishNext(s, id).threads[id] ==
      if Active(t.live.status) then t.(live := Finish(t.live, t.pc.status), pc := Releasing) else t.(pc := Done);
  }

  lemma RecordMark(s: State, step: Step)
    requires (step.WriteMetadata? || step.Upsert? || step.Release?) && step.id in s.threads
    ensures
      var s' := SharedStepNext(s, step);
      step.id in s'.threads && SameMark(s.threads[step.id], s'.threads[step.id])
  {
  }

  lemma StopMark(s: State, step: Step, id: RunId)
    requires StopStep(step) && id in s.threads
    ensures
      var s' := StopStepNext(s, step);
      id in s'.threads && SameMark(s.threads[id], s'.threads[id])
  {
    match step
    case Stop(target, text) => StopNextMark(s, target, true, false, text, id);
    case ForceStop(target, text) => StopNextMark(s, target, true, true, text, id);
    case Deliver(target, callback, text) =>
      StopNextMark(s.(pending := s.pending - {(target, callback)}), target,
                   Registered(s.threads, s.managers, target), callback.AskForceStop?, text, id);
  }

  lemma StopNextMark(s: State, target: RunId, registered: bool, force: bool, text: string, id: RunId)
    requires id in s.threads
    ensures SameMark(s.threads[id], StopNext(s, target, registered, force, text).threads[id])
  {
  }

  lemma EnvironmentMark(s: State, step: Step, id: RunId)
    requires VisibleOk(s) && !step.Crash? && id in s.threads && !step.Local? && !SharedStep(step) && !StopStep(step)
    ensures id in EnvironmentNext(s, step).threads && EnvironmentNext(s, step).threads[id] == s.threads[id]
  {
  }

  lemma SharedOthers(s: State, step: Step, id: RunId)
    requires SharedStep(step) && id in s.threads
    ensures
      var s' := if step.id in s.threads then SharedStepNext(s, step) else s;
      id in s'.threads && SameMark(s.threads[id], s'.threads[id])
  {
    if step.id in s.threads {
      SharedLive(s, step);
      if step.id == id { SharedMark(s, step); }
    }
  }

  lemma LocalMarkStep(s: State, step: Step, id: RunId)
    requires s.recovery.None? && step.Local? && id in s.threads
    ensures
      var s' := Apply(s, step);
      && id in s'.threads && s'.threads[id].spec == s.threads[id].spec
      && (s'.threads[id].unannounced <==> MarkAfter(s, step, id))
  {
    if step.id in s.threads { LocalMark(s.threads[step.id], step.local, s.clock); }
  }

  lemma OtherMarkStep(s: State, step: Step, id: RunId)
    requires VisibleOk(s) && s.recovery.None? && !step.Crash? && !step.Local? && id in s.threads
    ensures
      var s' := Apply(s, step);
      id in s'.threads && SameMark(s.threads[id], s'.threads[id])
  {
    if SharedStep(step) {
      SharedOthers(s, step, id);
    } else if StopStep(step) {
      StopMark(s, step, id);
    } else {
      EnvironmentMark(s, step, id);
    }
  }

  /** A run takes its mark by appending and loses it by announcing; no step of any other kind touches it. */
  lemma MarkStep(s: State, step: Step, id: RunId)
    requires VisibleOk(s) && !step.Crash? && id in s.threads
    ensures
      var s' := Apply(s, step);
      && id in s'.threads && s'.threads[id].spec == s.threads[id].spec
      && (s'.threads[id].unannounced <==> MarkAfter(s, step, id))
  {
    if s.recovery.None? {
      if step.Local? { LocalMarkStep(s, step, id); } else { OtherMarkStep(s, step, id); }
    }
  }

  lemma NewThreadsAreSilent(s: State, step: Step, id: RunId)
    requires VisibleOk(s) && !step.Crash? && id !in s.threads && id in Apply(s, step).threads
    ensures !Apply(s, step).threads[id].unannounced
  {
    if s.recovery.None? && SharedStep(step) && step.id in s.threads { SharedLive(s, step); }
  }

  /** A run appends only while no output of its manager is on its way: at most one run of a manager is active. */
  lemma AppendsAlone(s: State, step: Step, manager: ManagerId)
    requires VisibleOk(s) && AppendsSilently(s, step, manager)
    ensures !Pending(s, manager)
  {
    assert Registered(s.threads, s.managers, step.id);
    forall id | id in s.threads && Owns(s, manager, id) ensures !s.threads[id].unannounced {
      assert Active(s.threads[id].live.status) ==> id == step.id;
    }
  }

  /** Without a new version, output on its way stays on its way. */
  lemma QuietMark(s: State, step: Step, manager: ManagerId, id: RunId)
    requires !Notifies(s, step, manager) && Owns(s, manager, id)
    requires s.threads[id].unannounced || (AppendsSilently(s, step, manager) && step.id == id)
    ensures MarkAfter(s, step, id)
  {
  }

  lemma PendingKept(s: State, step: Step, manager: ManagerId, id: RunId)
    requires VisibleOk(s) && !step.Crash? && Owns(s, manager, id) && MarkAfter(s, step, id)
    ensures Pending(Apply(s, step), manager)
  {
    MarkStep(s, step, id);
    assert Owns(Apply(s, step), manager, id);
  }

  lemma PendingComes(s: State, step: Step, manager: ManagerId)
    requires VisibleOk(s) && !step.Crash? && Pending(Apply(s, step), manager)
    ensures Pending(s, manager) || AppendsSilently(s, step, manager)
  {
    var s' := Apply(s, step);
    var id :| id in s'.threads && Owns(s', manager, id) && s'.threads[id].unannounced;
    if id in s.threads {
      MarkStep(s, step, id);
      assert Owns(s, manager, id);
    } else {
      NewThreadsAreSilent(s, step, id);
    }
  }

  lemma PendingStep(s: State, step: Step, manager: ManagerId)
    requires VisibleOk(s) && !step.Crash? && !Notifies(s, step, manager)
    ensures Pending(Apply(s, step), manager) <==> Pending(s, manager) || AppendsSilently(s, step, manager)
  {
    if Pending(s, manager) || AppendsSilently(s, step, manager) {
      var id :| id in s.threads && Owns(s, manager, id) && (s.threads[id].unannounced || (AppendsSilently(s, step, manager) && step.id == id));
      QuietMark(s, step, manager, id);
      PendingKept(s, step, manager, id);
    } else if Pending(Apply(s, step), manager) {
      PendingComes(s, step, manager);
    }
  }

  // ---------------------------------------------------------------------------
  // An open stream converges
  // ---------------------------------------------------------------------------

  /** The version after these steps; a crash begins again from 0. */
  function VersionAfter(s: State, manager: ManagerId, version: nat, steps: seq<Step>): nat
    decreases |steps|
  {
    if steps == [] then version
    else
      VersionAfter(Apply(s, steps[0]), manager,
                   if steps[0].Crash? then 0 else if Notifies(s, steps[0], manager) then version + 1 else version,
                   steps[1..])
  }

  predicate Forgets(s: State, manager: ManagerId, steps: seq<Step>)
    decreases |steps|
  {
    steps != [] && (SilentlyForgets(s, steps[0], manager) || Forgets(Apply(s, steps[0]), manager, steps[1..]))
  }

  predicate StaysUp(steps: seq<Step>) {
    forall i :: 0 <= i < |steps| ==> !steps[i].Crash?
  }

  lemma {:induction false} VersionGrows(s: State, manager: ManagerId, version: nat, steps: seq<Step>)
    requires StaysUp(steps)
    ensures VersionAfter(s, manager, version, steps) >= version
    decreases |steps|
  {
    if steps != [] {
      VersionGrows(Apply(s, steps[0]), manager, if Notifies(s, steps[0], manager) then version + 1 else version, steps[1..]);
    }
  }

  /** While the version stands still, so does the answer, exactly if no output has got on its way since; and output on
      its way stays on its way. */
  lemma {:induction false} SameVersionSameState(s: State, manager: ManagerId, version: nat, steps: seq<Step>)
    requires Inv(s) && manager in s.managers && StaysUp(steps) && !Forgets(s, manager, steps)
    requires VersionAfter(s, manager, version, steps) == version
    ensures
      var now := Execute(s, steps);
      && manager in now.managers && (Pending(s, manager) ==> Pending(now, manager))
      && (CurrentResponse(now, manager) == CurrentResponse(s, manager) <==> (Pending(now, manager) ==> Pending(s, manager)))
    decreases |steps|
  {
    if steps != [] {
      var next := Apply(s, steps[0]);
      InvIsVisibleOk(s);
      ChangesRaiseVersion(s, steps[0], manager);
      StepKeepsInv(s, steps[0]);
      VersionGrows(next, manager, if Notifies(s, steps[0], manager) then version + 1 else version, steps[1..]);
      PendingStep(s, steps[0], manager);
      SameVersionSameState(next, manager, version, steps[1..]);
      if AppendsSilently(s, steps[0], manager) { AppendsAlone(s, steps[0], manager); }
    }
  }

  function AfterStretches(s: State, stretches: seq<seq<Step>>): State
    decreases |stretches|
  {
    if stretches == [] then s else AfterStretches(Execute(s, stretches[0]), stretches[1..])
  }

  lemma StepKeepsManagers(s: State, step: Step)
    ensures Apply(s, step).managers.Keys == s.managers.Keys
  {
    if s.recovery.None? && SharedStep(step) {
      if step.id in s.threads { SharedLive(s, step); }
    } else if s.recovery.None? && !step.Local? && !StopStep(step) {
      EnvironmentKeepsManagers(s, step);
    }
  }

  lemma EnvironmentKeepsManagers(s: State, step: Step)
    ensures EnvironmentNext(s, step).managers.Keys == s.managers.Keys
  {
  }

  lemma {:induction false} ManagersStay(s: State, steps: seq<Step>)
    ensures Execute(s, steps).managers.Keys == s.managers.Keys
    decreases |steps|
  {
    if steps != [] {
      StepKeepsManagers(s, steps[0]);
      ManagersStay(Apply(s, steps[0]), steps[1..]);
    }
  }

  lemma {:induction false} LastSample(s: State, manager: ManagerId, stretches: seq<seq<Step>>)
    requires Inv(s) && manager in s.managers
    ensures
      var after := AfterStretches(s, stretches);
      Inv(after) && manager in after.managers
      && Replication.Last(CurrentResponse(s, manager), Sampled(s, manager, stretches)) == CurrentResponse(after, manager)
    decreases |stretches|
  {
    if stretches != [] {
      var next := Execute(s, stretches[0]);
      ManagersStay(s, stretches[0]);
      ExecutionInv(s, stretches[0]);
      LastSample(next, manager, stretches[1..]);
    }
  }

  /** A stream that sees no newer version than its last sample has brought its client to what the manager answers now,
      whatever happened between the samples and since, exactly if no output has got on its way since that sample; so it
      has whenever nothing is on its way now. */
  lemma StreamConverges(s: State, managers: set<ManagerId>, steps: seq<Step>, manager: ManagerId,
                        stretches: seq<seq<Step>>, since: seq<Step>, client: RunState, version: nat)
    requires Reachable(s, managers, steps) && manager in s.managers
    requires StaysUp(since) && !Forgets(AfterStretches(s, stretches), manager, since)
    requires VersionAfter(AfterStretches(s, stretches), manager, version, since) == version
    ensures
      var sampled := AfterStretches(s, stretches);
      var now := Execute(sampled, since);
      var first := CurrentResponse(s, manager);
      var held := ApplyEvents(client, [ResetEvent(first, version)] + Emitted(first, Sampled(s, manager, stretches)));
      && manager in now.managers
      && (Synced(held, CurrentResponse(now, manager)) <==> (Pending(now, manager) ==> Pending(sampled, manager)))
  {
    ReachableInv(s, managers, steps);
    ManagerStreamReplicates(s, managers, steps, manager, stretches, client, version);
    LastSample(s, manager, stretches);
    SameVersionSameState(AfterStretches(s, stretches), manager, version, since);
  }

  // ---------------------------------------------------------------------------
  // Where it does not
  // ---------------------------------------------------------------------------

  const FINISHED := STARTED + (Locals(TO_FAILURE) + FINISH)
  const FAILED_START := Start(MANAGER, "q", SPEC, false, true)

  lemma FinishedState()
    ensures
      var s := Execute(Initial({MANAGER}), FINISHED);
      && s.recovery.None? && s.used == {RUN} && s.managers == map[MANAGER := Manager({RUN}, Some(RUN), false)]
      && RUN in s.threads && s.threads[RUN].live.status == Failed
  {
    var s := Initial({MANAGER});
    StartedState();
    var s1 := Execute(s, STARTED);
    ExecuteConcat(s, STARTED, Locals(TO_FAILURE) + FINISH);
    ExecuteLocals(s1, TO_FAILURE);
    var s2 := Execute(s1, Locals(TO_FAILURE));
    ExecuteConcat(s1, Locals(TO_FAILURE), FINISH);
    FailureThread(s1.threads[RUN]);
    FinishState(s2);
  }

  lemma FailedStartForgets(s: State)
    requires VisibleOk(s) && s.recovery.None? && s.used == {RUN} && s.managers == map[MANAGER := Manager({RUN}, Some(RUN), false)]
    requires RUN in s.threads && s.threads[RUN].live.status == Failed
    ensures SilentlyForgets(s, FAILED_START, MANAGER) && !Notifies(s, FAILED_START, MANAGER)
  {
  }

  /** A run that has failed, and then a start whose record cannot be created: the answer goes back to idle, and no
      stream is told. */
  lemma FailedStartIsNotTold()
    ensures
      var s := Execute(Initial({MANAGER}), FINISHED);
      && MANAGER in s.managers && !Notifies(s, FAILED_START, MANAGER) && CurrentResponse(s, MANAGER) != IDLE
      && MANAGER in Apply(s, FAILED_START).managers && CurrentResponse(Apply(s, FAILED_START), MANAGER) == IDLE
  {
    var s := Execute(Initial({MANAGER}), FINISHED);
    ReachableInv(s, {MANAGER}, FINISHED);
    InvIsVisibleOk(s);
    FinishedState();
    FailedStartForgets(s);
    StartVisible(s, FAILED_START, MANAGER);
  }

  const FRESH := Run(RUN, Running, false, false, [])
  const NEXT := Run("q", Running, false, false, [])
  const RECOVERING := [Crash(None), RecoverRecord(RUN), Restart]
  const STARTED_NEXT := [Start(MANAGER, "q", SPEC, true, true)]

  /** Versions are used again after a restart: another run is the current one at the version the client asks for, so
      the stream tells it nothing. */
  lemma VersionIsReused()
    ensures
      var steps := STARTED + (RECOVERING + STARTED_NEXT);
      var (before, after) := (Execute(Initial({MANAGER}), STARTED), Execute(Initial({MANAGER}), steps));
      && MANAGER in before.managers && MANAGER in after.managers
      && VersionAfter(Initial({MANAGER}), MANAGER, 0, STARTED) == VersionAfter(Initial({MANAGER}), MANAGER, 0, steps) == 1
      && CurrentResponse(before, MANAGER) == SnapshotOf(FRESH) && CurrentResponse(after, MANAGER) == SnapshotOf(NEXT)
  {
    var s := Initial({MANAGER});
    StartedState();
    var s1 := Execute(s, STARTED);
    ExecuteConcat(s, STARTED, RECOVERING + STARTED_NEXT);
    VersionConcat(s, MANAGER, 0, STARTED, RECOVERING + STARTED_NEXT);
    ExecuteConcat(s1, RECOVERING, STARTED_NEXT);
    VersionConcat(s1, MANAGER, 1, RECOVERING, STARTED_NEXT);
    FirstVersion(s, RUN);
    RecoveredState(s1);
    FirstVersion(Execute(s1, RECOVERING), "q");
  }

  lemma {:induction false} VersionConcat(s: State, manager: ManagerId, version: nat, first: seq<Step>, second: seq<Step>)
    ensures VersionAfter(s, manager, version, first + second) ==
      VersionAfter(Execute(s, first), manager, VersionAfter(s, manager, version, first), second)
    decreases |first|
  {
    if first == [] {
      assert [] + second == second;
    } else {
      assert (first + second)[1..] == first[1..] + second && (first + second)[0] == first[0];
      VersionConcat(Apply(s, first[0]), manager,
        if first[0].Crash? then 0 else if Notifies(s, first[0], manager) then version + 1 else version, first[1..], second);
    }
  }

  /** The first start of a backend that has just come up. */
  lemma FirstVersion(s: State, id: RunId)
    requires s.recovery.None? && s.threads == map[] && s.managers == map[MANAGER := Manager({}, None, false)] && id !in s.used
    ensures
      var steps := [Start(MANAGER, id, SPEC, true, true)];
      var after := Execute(s, steps);
      && VersionAfter(s, MANAGER, 0, steps) == 1
      && MANAGER in after.managers && CurrentResponse(after, MANAGER) == SnapshotOf(Run(id, Running, false, false, []))
  {
    var step := Start(MANAGER, id, SPEC, true, true);
    assert [step][1..] == [];
    assert Execute(s, [step]) == Execute(Apply(s, step), []) == Apply(s, step);
    assert VersionAfter(s, MANAGER, 0, [step]) == VersionAfter(Apply(s, step), MANAGER, 1, []);
  }

  lemma RecoveredState(s: State)
    requires s == Execute(Initial({MANAGER}), STARTED)
    ensures
      var after := Execute(s, RECOVERING);
      && VersionAfter(s, MANAGER, 1, RECOVERING) == 0 && after.recovery.None? && after.threads == map[]
      && after.managers == map[MANAGER := Manager({}, None, false)] && after.used == {RUN}
  {
    StartedState();
    var crashed := Apply(s, Crash(None));
    CrashedState(s);
    var recovered := Apply(crashed, RecoverRecord(RUN));
    assert recovered.recovery == Some({});
    var up := Apply(recovered, Restart);
    var (a, b) := (RECOVERING[1..], RECOVERING[2..]);
    assert a[1..] == b && b[1..] == [];
    assert Execute(s, RECOVERING) == Execute(crashed, a) == Execute(recovered, b) == Execute(up, []) == up;
    assert VersionAfter(s, MANAGER, 1, RECOVERING) == VersionAfter(crashed, MANAGER, 0, a) == VersionAfter(recovered, MANAGER, 0, b)
      == VersionAfter(up, MANAGER, 0, []);
  }

  lemma CrashedState(s: State)
    requires s == Execute(Initial({MANAGER}), STARTED)
    ensures
      var crashed := Apply(s, Crash(None));
      && crashed.recovery == Some({RUN}) && crashed.threads == map[] && crashed.used == {RUN}
      && crashed.managers == map[MANAGER := Manager({}, None, false)]
  {
    StartedState();
    StartedRecord();
    var visited := set id | id in s.durable && ActiveRecord(s.durable[id]);
    assert visited == {RUN};
  }

  lemma StartedRecord()
    ensures
      var s := Execute(Initial({MANAGER}), STARTED);
      s.durable == map[RUN := Known(Running)]
  {
    assert STARTED[1..] == [];
    assert Execute(Initial({MANAGER}), STARTED) == Apply(Initial({MANAGER}), STARTED[0]);
  }

  const PRINTING := STARTED + Locals(TO_HANDLER)
  const PRINT := Local(RUN, Output("text"))
  const ANNOUNCE := Local(RUN, Announce)

  /** Output between its append and its announcement: the answer already shows it, at the old version. */
  lemma OutputIsVisibleEarly(version: nat)
    ensures
      var s := Execute(Initial({MANAGER}), PRINTING);
      && MANAGER in s.managers && MANAGER in Apply(s, PRINT).managers
      && VersionAfter(s, MANAGER, version, [PRINT]) == version
      && CurrentResponse(Apply(s, PRINT), MANAGER) != CurrentResponse(s, MANAGER)
      && VersionAfter(s, MANAGER, version, [PRINT, ANNOUNCE]) == version + 1
  {
    var s := Execute(Initial({MANAGER}), PRINTING);
    ReachableInv(s, {MANAGER}, PRINTING);
    InvIsVisibleOk(s);
    PrintingState();
    OutputVisible(s, RUN, "text", MANAGER);
    StepKeepsManagers(s, PRINT);
    PrintVersions(s, version);
  }

  lemma PrintVersions(s: State, version: nat)
    requires s.recovery.None? && Owns(s, MANAGER, RUN) && Appends(s.threads[RUN])
    ensures VersionAfter(s, MANAGER, version, [PRINT]) == version
    ensures VersionAfter(s, MANAGER, version, [PRINT, ANNOUNCE]) == version + 1
  {
    var next := Apply(s, PRINT);
    assert !Notifies(s, PRINT, MANAGER);
    assert [PRINT][1..] == [] && [PRINT, ANNOUNCE][1..] == [ANNOUNCE] && [ANNOUNCE][1..] == [];
    assert VersionAfter(s, MANAGER, version, [PRINT]) == VersionAfter(next, MANAGER, version, []);
    assert next.threads[RUN].unannounced && Notifies(next, ANNOUNCE, MANAGER);
    assert VersionAfter(s, MANAGER, version, [PRINT, ANNOUNCE]) == VersionAfter(next, MANAGER, version, [ANNOUNCE])
      == VersionAfter(Apply(next, ANNOUNCE), MANAGER, version + 1, []);
  }

  lemma PrintingState()
    ensures
      var s := Execute(Initial({MANAGER}), PRINTING);
      && s.recovery.None? && MANAGER in s.managers && Owns(s, MANAGER, RUN) && Appends(s.threads[RUN])
  {
    var s := Initial({MANAGER});
    StartedState();
    var s1 := Execute(s, STARTED);
    ExecuteConcat(s, STARTED, Locals(TO_HANDLER));
    ExecuteLocals(s1, TO_HANDLER);
    HooksThread(s1.threads[RUN]);
    ReachableInv(Execute(s, PRINTING), {MANAGER}, PRINTING);
    assert ThreadOk(RUN, Execute(s, PRINTING).threads[RUN]);
  }
}
