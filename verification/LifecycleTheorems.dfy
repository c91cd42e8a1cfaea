/** What holds after every sequence of steps from the initial state, and between any two points of it. */
module LifecycleTheorems {
  import opened Wrappers
  import opened RunResources
  import opened Coordinator
  import opened LiveState
  import opened Lifecycle
  import opened LifecycleInvariant

  predicate Reachable(s: State, managers: set<ManagerId>, steps: seq<Step>) {
    s == Execute(Initial(managers), steps)
  }

  lemma ReachableInv(s: State, managers: set<ManagerId>, steps: seq<Step>)
    requires Reachable(s, managers, steps)
    ensures Inv(s)
  {
    InitialInv(managers);
    ExecutionInv(Initial(managers), steps);
  }

  // ---------------------------------------------------------------------------
  // Mutual exclusion
  // ---------------------------------------------------------------------------

  /** A run inside its main command holds its claim, in whatever retry it is. */
  lemma CommandHoldsLease(s: State, managers: set<ManagerId>, steps: seq<Step>, id: RunId)
    requires Reachable(s, managers, steps)
    requires id in s.threads && s.threads[id].pc.Command? && s.threads[id].spec.resources != []
    ensures id in s.table && s.table[id].resources == s.threads[id].spec.resources
  {
    ReachableInv(s, managers, steps);
    assert ThreadOk(id, s.threads[id]);
    assert SameClaim(ClaimOf(id, s.threads[id].spec), s.table[id]);
  }

  /** Two runs with clashing resources are never both inside their main command. */
  lemma MutualExclusion(s: State, managers: set<ManagerId>, steps: seq<Step>, a: RunId, b: RunId)
    requires Reachable(s, managers, steps)
    requires a in s.threads && b in s.threads && a != b
    requires s.threads[a].pc.Command? && s.threads[b].pc.Command?
    ensures !ClaimsConflict(s.threads[a].spec.resources, s.threads[b].spec.resources)
  {
    if s.threads[a].spec.resources != [] && s.threads[b].spec.resources != [] {
      ReachableInv(s, managers, steps);
      CommandHoldsLease(s, managers, steps, a);
      CommandHoldsLease(s, managers, steps, b);
    }
  }

  // ---------------------------------------------------------------------------
  // Durable-first finalization and crash recovery
  // ---------------------------------------------------------------------------

  /** A live-terminal run has a record of the same status or none; until then its record is never evicted
      before the first terminal write; a granted lease is gone only from a live-terminal run. */
  lemma DurableFirst(s: State, managers: set<ManagerId>, steps: seq<Step>, id: RunId)
    requires Reachable(s, managers, steps) && id in s.threads
    ensures !Active(s.threads[id].live.status) && id in s.durable ==> s.durable[id] == Known(s.threads[id].live.status)
    ensures BeforePersist(s.threads[id].pc) ==> id in s.durable && s.durable[id] == Known(Running)
    ensures s.threads[id].granted && id !in s.table ==> !Active(s.threads[id].live.status)
  {
    ReachableInv(s, managers, steps);
    assert ThreadOk(id, s.threads[id]) && RecordOk(id, s.threads[id], s.durable);
  }

  lemma {:induction false} ExecuteConcat(s: State, first: seq<Step>, second: seq<Step>)
    ensures Execute(s, first + second) == Execute(Execute(s, first), second)
    decreases |first|
  {
    if first == [] {
      assert first + second == second;
    } else {
      assert (first + second)[1..] == first[1..] + second;
      ExecuteConcat(Apply(s, first[0]), first[1..], second);
    }
  }

  /** How any later state relates to an earlier one: runs lost in a crash never return, published statuses
      stay, and a run that is still there has only advanced. */
  ghost predicate Follows(s: State, s': State) {
    && s.used <= s'.used
    && (forall id :: id in s'.threads && id in s.used ==> id in s.threads)
    && (forall id :: id in s.published ==> id in s'.published && s'.published[id] == s.published[id])
    && (forall id :: id in s.threads && id in s'.threads ==> LiveAdvances(s.threads[id].live, s'.threads[id].live))
  }

  lemma SameThreadAdvances(s: State, id: RunId)
    requires ThreadsOk(s.threads, s.used, s.durable) && id in s.threads
    ensures LiveAdvances(s.threads[id].live, s.threads[id].live)
  {
  }

  lemma SameThreadsFollow(s: State, s': State)
    requires ThreadsOk(s.threads, s.used, s.durable) && s'.threads == s.threads && s.used == s'.used && s'.published == s.published
    ensures Follows(s, s')
  {
  }

  lemma ReplacedThreadFollows(s: State, s': State, id: RunId, t': Thread)
    requires ThreadsOk(s.threads, s.used, s.durable) && id in s.threads && s'.threads == s.threads[id := t'] && s.used == s'.used
    requires forall i :: i in s.published ==> i in s'.published && s'.published[i] == s.published[i]
    requires LiveAdvances(s.threads[id].live, t'.live)
    ensures Follows(s, s')
  {
  }

  lemma StopFollows(s: State, id: RunId, registered: bool, force: bool, text: string)
    requires ThreadsOk(s.threads, s.used, s.durable)
    ensures Follows(s, StopNext(s, id, registered, force, text))
  {
    var s' := StopNext(s, id, registered, force, text);
    if id in s.threads {
      StopKeepsThreadOk(id, s.threads[id], registered, force, text);
      ReplacedThreadFollows(s, s', id, s'.threads[id]);
    } else {
      SameThreadsFollow(s, s');
    }
  }

  lemma DeliverFollows(s: State, target: RunId, callback: Callback, text: string)
    requires ThreadsOk(s.threads, s.used, s.durable)
    ensures Follows(s, DeliverNext(s, target, callback, text))
  {
    StopFollows(s.(pending := s.pending - {(target, callback)}), target, Registered(s.threads, s.managers, target), callback.AskForceStop?, text);
    SameThreadsFollow(s, s);
  }

  lemma StartFollows(s: State, manager: ManagerId, id: RunId, spec: Spec, created: bool, threadStarts: bool)
    requires ThreadsOk(s.threads, s.used, s.durable)
    ensures Follows(s, StartNext(s, manager, id, spec, created, threadStarts))
  {
    SameThreadsFollow(s, s);
  }

  lemma LocalStepFollows(s: State, id: RunId, local: LocalStep)
    requires ThreadsOk(s.threads, s.used, s.durable) && id in s.threads
    ensures Follows(s, SetThread(s, id, LocalNext(s.threads[id], local, s.clock)))
  {
    var t' := LocalNext(s.threads[id], local, s.clock);
    LocalStepOk(id, s.threads[id], local, s.clock, s.durable);
    ReplacedThreadFollows(s, SetThread(s, id, t'), id, t');
  }

  lemma SharedStepFollows(s: State, step: Step)
    requires ThreadsOk(s.threads, s.used, s.durable) && PublishedOk(s.threads, s.published, s.used, s.durable)
    requires SharedStep(step) && step.id in s.threads
    ensures Follows(s, SharedStepNext(s, step))
  {
    var s' := SharedStepNext(s, step);
    SharedStepThread(s, step);
    if s'.threads == s.threads && s'.published == s.published {
      SameThreadsFollow(s, s');
    } else {
      ReplacedThreadFollows(s, s', step.id, s'.threads[step.id]);
    }
  }

  /** A shared step moves its own thread only, and publishes nothing but that thread's final status. */
  lemma SharedStepThread(s: State, step: Step)
    requires ThreadsOk(s.threads, s.used, s.durable) && PublishedOk(s.threads, s.published, s.used, s.durable)
    requires SharedStep(step) && step.id in s.threads
    ensures
      var s' := SharedStepNext(s, step);
      && s'.used == s.used && step.id in s'.threads
      && (s'.threads == s.threads || s'.threads == s.threads[step.id := s'.threads[step.id]])
      && (forall i :: i in s.published ==> i in s'.published && s'.published[i] == s.published[i])
      && LiveAdvances(s.threads[step.id].live, s'.threads[step.id].live)
  {
    SameThreadAdvances(s, step.id);
    assert ThreadOk(step.id, s.threads[step.id]);
    if step.Publish? && s.threads[step.id].pc.Publishing? {
      PublishThread(s, step.id);
    }
  }

  lemma PublishThread(s: State, id: RunId)
    requires ThreadsOk(s.threads, s.used, s.durable) && PublishedOk(s.threads, s.published, s.used, s.durable)
    requires id in s.threads && s.threads[id].pc.Publishing?
    ensures
      var s' := PublishNext(s, id);
      && (forall i :: i in s.published ==> i in s'.published && s'.published[i] == s.published[i])
      && LiveAdvances(s.threads[id].live, s'.threads[id].live)
  {
    SameThreadAdvances(s, id);
    assert ThreadOk(id, s.threads[id]);
  }

  lemma EnvironmentFollows(s: State, step: Step)
    requires ThreadsOk(s.threads, s.used, s.durable)
    ensures Follows(s, EnvironmentNext(s, step))
  {
    if step.Start? {
      StartFollows(s, step.manager, step.id, step.spec, step.created, step.threadStarts);
    } else if step.Crash? {
      CrashFollows(s, step.halfStarted);
    } else {
      UpkeepLeavesThreads(s, step);
      SameThreadsFollow(s, EnvironmentNext(s, step));
    }
  }

  lemma CrashFollows(s: State, halfStarted: Option<RunId>)
    ensures Follows(s, CrashNext(s, halfStarted))
  {
  }

  lemma UpkeepLeavesThreads(s: State, step: Step)
    requires !step.Start? && !step.Crash?
    ensures
      var s' := EnvironmentNext(s, step);
      s'.threads == s.threads && s'.used == s.used && s'.published == s.published
  {
  }

  /** A step of one thread leaves every other thread alone. */
  lemma OthersStand(s: State, step: Step, id: RunId)
    requires s.recovery.None? && step.Local? && (step.id != id || id !in s.threads)
    ensures Apply(s, step).used == s.used && (id in Apply(s, step).threads <==> id in s.threads)
    ensures id in s.threads ==> Apply(s, step).threads[id] == s.threads[id]
  {
  }

  /** No step reverts a flag, leaves a terminal status, forgets a published status, brings back a lost run,
      or alters a retry that is sealed or no longer last. */
  lemma StepFollows(s: State, step: Step)
    requires Inv(s)
    ensures Follows(s, Apply(s, step))
  {
    if s.recovery.Some? {
      assert RecoveryNext(s, step).threads == s.threads == map[];
    } else if step.Local? {
      if step.id in s.threads { LocalStepFollows(s, step.id, step.local); } else { SameThreadsFollow(s, s); }
    } else if SharedStep(step) {
      if step.id in s.threads { SharedStepFollows(s, step); } else { SameThreadsFollow(s, s); }
    } else if StopStep(step) {
      match step
      case Stop(id, text) => StopFollows(s, id, true, false, text);
      case ForceStop(id, text) => StopFollows(s, id, true, true, text);
      case Deliver(target, callback, text) => DeliverFollows(s, target, callback, text);
    } else {
      EnvironmentFollows(s, step);
    }
  }

  lemma LiveAdvancesTransitive(a: Run, b: Run, c: Run)
    requires LiveAdvances(a, b) && LiveAdvances(b, c)
    ensures LiveAdvances(a, c)
  {
  }

  lemma FollowsTransitive(a: State, b: State, c: State)
    requires Inv(a) && Inv(b) && Follows(a, b) && Follows(b, c)
    ensures Follows(a, c)
  {
    forall id | id in a.threads && id in c.threads ensures LiveAdvances(a.threads[id].live, c.threads[id].live) {
      assert id in a.used && id in b.used && id in b.threads;
      LiveAdvancesTransitive(a.threads[id].live, b.threads[id].live, c.threads[id].live);
    }
  }

  lemma {:induction false} ExecutionFollows(s: State, steps: seq<Step>)
    requires Inv(s)
    ensures Follows(s, Execute(s, steps))
    decreases |steps|
  {
    if steps == [] {
      SameThreadsFollow(s, s);
    } else {
      StepKeepsInv(s, steps[0]);
      StepFollows(s, steps[0]);
      ExecutionFollows(Apply(s, steps[0]), steps[1..]);
      FollowsTransitive(s, Apply(s, steps[0]), Execute(s, steps));
    }
  }

  /** A terminal status once visible live survives everything that follows, crashes at any step included:
      from then on its record, if it still exists, says exactly that status. */
  lemma PublishedSurvives(managers: set<ManagerId>, before: seq<Step>, after: seq<Step>, id: RunId)
    requires
      var s := Execute(Initial(managers), before);
      id in s.threads && !Active(s.threads[id].live.status)
    ensures
      var status := Execute(Initial(managers), before).threads[id].live.status;
      var s' := Execute(Initial(managers), before + after);
      id in s'.durable ==> s'.durable[id] == Known(status)
  {
    var s := Execute(Initial(managers), before);
    ReachableInv(s, managers, before);
    ExecuteConcat(Initial(managers), before, after);
    ExecutionFollows(s, after);
    ExecutionInv(s, after);
  }

  /** When recovery has visited every record it set out to visit, no record claims to be active,
      however many crashes interrupted it. */
  lemma RecoveryLeavesNoActiveRecord(s: State, managers: set<ManagerId>, steps: seq<Step>, id: RunId)
    requires Reachable(s, managers, steps)
    requires s.recovery == Some({}) && id in s.durable
    ensures !ActiveRecord(s.durable[id])
  {
    ReachableInv(s, managers, steps);
  }

  // ---------------------------------------------------------------------------
  // The life of one run
  // ---------------------------------------------------------------------------

  /** Over any stretch of any execution a run only advances: its retry history is append-only, terminal
      statuses are absorbing, stop and force flags never revert and force implies stop. */
  lemma RunOnlyAdvances(managers: set<ManagerId>, before: seq<Step>, after: seq<Step>, id: RunId)
    requires
      id in Execute(Initial(managers), before).threads && id in Execute(Initial(managers), before + after).threads
    ensures
      var earlier := Execute(Initial(managers), before).threads[id].live;
      var later := Execute(Initial(managers), before + after).threads[id].live;
      LiveAdvances(earlier, later) && Numbered(later)
  {
    var s := Execute(Initial(managers), before);
    ReachableInv(s, managers, before);
    ExecuteConcat(Initial(managers), before, after);
    ExecutionFollows(s, after);
    ExecutionInv(s, after);
    assert ThreadOk(id, Execute(s, after).threads[id]);
  }

  /** Stopping a finished run changes no state at all. */
  lemma StopOnFinishedRun(s: State, id: RunId, text: string)
    requires id in s.threads && !Active(s.threads[id].live.status)
    ensures Apply(s, Stop(id, text)) == s && Apply(s, ForceStop(id, text)) == s
  {
  }

  /** The active runs of a manager are at most one. */
  lemma OneActiveRunPerManager(s: State, managers: set<ManagerId>, steps: seq<Step>, a: RunId, b: RunId)
    requires Reachable(s, managers, steps)
    requires a in s.threads && b in s.threads && s.threads[a].spec.manager == s.threads[b].spec.manager
    requires Active(s.threads[a].live.status) && Active(s.threads[b].live.status)
    ensures a == b
  {
    ReachableInv(s, managers, steps);
    assert Registered(s.threads, s.managers, a) && Registered(s.threads, s.managers, b);
  }

  // ---------------------------------------------------------------------------
  // Shutdown
  // ---------------------------------------------------------------------------

  predicate CrashFree(steps: seq<Step>) {
    forall i :: 0 <= i < |steps| ==> !steps[i].Crash?
  }

  /** What is closed stays closed; a closed table and a closed manager gain nothing. */
  ghost predicate Shrinks(s: State, s': State, manager: ManagerId) {
    && (s.closing ==> s'.closing && s'.table.Keys <= s.table.Keys)
    && (manager in s.managers && s.managers[manager].closing ==>
         && manager in s'.managers && s'.managers[manager].closing
         && s'.managers[manager].registered <= s.managers[manager].registered)
  }

  lemma AttemptShrinks(s: State, id: RunId, onConflict: TerminalStatus, manager: ManagerId)
    requires id in s.threads && s.threads[id].pc.Claiming?
    ensures Shrinks(s, AttemptNext(s, id, onConflict), manager)
  {
  }

  lemma SharedStepShrinks(s: State, step: Step, manager: ManagerId)
    requires SharedStep(step) && step.id in s.threads
    ensures Shrinks(s, SharedStepNext(s, step), manager)
  {
    if step.AttemptClaim? && s.threads[step.id].pc.Claiming? {
      AttemptShrinks(s, step.id, step.onConflict, manager);
    }
  }

  lemma EnvironmentShrinks(s: State, step: Step, manager: ManagerId)
    requires !step.Crash?
    ensures Shrinks(s, EnvironmentNext(s, step), manager)
  {
  }

  lemma StepShrinks(s: State, step: Step, manager: ManagerId)
    requires !step.Crash?
    ensures Shrinks(s, Apply(s, step), manager)
  {
    if s.recovery.None? {
      if SharedStep(step) {
        if step.id in s.threads { SharedStepShrinks(s, step, manager); }
      } else if !step.Local? && !StopStep(step) {
        EnvironmentShrinks(s, step, manager);
      }
    }
  }

  /** Once shutdown has begun no lease is granted and no run is added, until the backend restarts. */
  lemma {:induction false} ShutdownOnlyShrinks(s: State, steps: seq<Step>, manager: ManagerId)
    requires CrashFree(steps)
    ensures s.closing ==> Execute(s, steps).closing && Execute(s, steps).table.Keys <= s.table.Keys
    ensures manager in s.managers && s.managers[manager].closing ==>
      && manager in Execute(s, steps).managers && Execute(s, steps).managers[manager].closing
      && Execute(s, steps).managers[manager].registered <= s.managers[manager].registered
    decreases |steps|
  {
    if steps != [] {
      StepShrinks(s, steps[0], manager);
      ShutdownOnlyShrinks(Apply(s, steps[0]), steps[1..], manager);
    }
  }

  // ---------------------------------------------------------------------------
  // Preemption
  // ---------------------------------------------------------------------------

  /** Over all waiting runs together, a holder is asked to stop at most once and to be killed at most once,
      only by a clashing claim of strictly higher priority while preemptible, and the kill never comes
      before the stop nor before the grace period is over. */
  lemma PreemptionProtocol(s: State, managers: set<ManagerId>, steps: seq<Step>, holder: RunId)
    requires Reachable(s, managers, steps)
    ensures ProtocolOk(History(s.requests, holder), holder)
  {
    ReachableInv(s, managers, steps);
  }

  /** A waiting claim never touches a holder of equal or higher priority: it can only be refused or wait. */
  lemma ClaimLeavesEqualPriorityAlone(s: State, id: RunId, onConflict: TerminalStatus, holder: RunId)
    requires Inv(s) && id in s.threads && s.threads[id].pc.Claiming?
    requires holder in s.table && s.table[holder].priority >= s.threads[id].spec.priority && holder != id
    ensures
      var s' := AttemptNext(s, id, onConflict);
      && holder in s'.table && s'.table[holder] == s.table[holder]
      && History(s'.requests, holder) == History(s.requests, holder)
  {
    var t := s.threads[id];
    var claim := ClaimOf(id, t.spec);
    AttemptShapes(s, id, onConflict);
    var outcome := Attempt(s.table, s.closing, claim, t.live.stopRequested, s.clock, Some(t.pc.deadline)).1;
    if outcome.Waiting? {
      WaitingEffect(s.table, claim, s.clock, Some(t.pc.deadline), holder);
      RecordedHistory(s.requests, s.table, outcome.callbacks, claim, s.clock, holder);
    }
  }

  /** A claim that fails or is cancelled leaves the lease table and the request history as they were. */
  lemma RefusedClaimLeavesTable(s: State, id: RunId, onConflict: TerminalStatus)
    requires id in s.threads && s.threads[id].pc.Claiming?
    requires !AttemptNext(s, id, onConflict).threads[id].pc.Claiming? && !AttemptNext(s, id, onConflict).threads[id].pc.Granted?
    ensures AttemptNext(s, id, onConflict).table == s.table && AttemptNext(s, id, onConflict).requests == s.requests
  {
    AttemptShapes(s, id, onConflict);
  }
}
