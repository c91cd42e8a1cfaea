/** The inductive invariant of the run lifecycle, one part per concern, and its preservation by every step. */
module LifecycleInvariant {
  import opened Wrappers
  import opened RunResources
  import opened Coordinator
  import opened LiveState
  import opened Lifecycle

  // ---------------------------------------------------------------------------
  // One thread
  // ---------------------------------------------------------------------------

  /** The loop has not asked for resources yet. */
  predicate BeforeClaim(pc: Pc) {
    pc.Claiming? || ((pc.LoopHead? || pc.Opening? || pc.Hooks?) && pc.round <= 1)
  }

  /** Positions the loop reaches only after the claim was granted. */
  predicate NeedsLease(pc: Pc) {
    pc.Granted? || pc.Command? || pc.Deciding? || pc.Judged? || pc.Concluding? || ((pc.LoopHead? || pc.Opening? || pc.Hooks?) && pc.round >= 2)
    || (pc.Sealing? && pc.next.Again?)
  }

  /** Positions before the thread has tried to write a terminal status. */
  predicate BeforePersist(pc: Pc) {
    InRetry(pc) || pc.LoopHead? || pc.Opening? || pc.Leaving?
  }

  predicate RoundsOk(pc: Pc) {
    && (pc.LoopHead? || pc.Opening? || pc.Hooks? || pc.Command? || pc.Deciding? || pc.Judged? || pc.Concluding? ==> pc.round >= 1)
    && (pc.Sealing? && pc.next.Again? ==> pc.next.round >= 2)
  }

  ghost predicate OwnRetryIsOpenLast(t: Thread) {
    && |t.live.retries| > 0
    && t.position == |t.live.retries| - 1
    && !t.live.retries[t.position].closed
  }

  ghost predicate ThreadOk(id: RunId, t: Thread) {
    && t.live.id == id && Numbered(t.live)
    && (t.live.forceRequested ==> t.live.stopRequested)
    && RoundsOk(t.pc)
    && (InRetry(t.pc) ==> OwnRetryIsOpenLast(t))
    && (!Active(t.live.status) <==> t.pc.Releasing? || t.pc.Done?)
    && (t.granted ==> t.spec.resources != [] && !BeforeClaim(t.pc))
    && (t.pc.Claiming? ==> t.spec.resources != [])
    && (NeedsLease(t.pc) && t.spec.resources != [] ==> t.granted)
    && (t.unannounced ==> Prints(t.pc))
  }

  ghost predicate RecordOk(id: RunId, t: Thread, durable: map<RunId, RecordStatus>) {
    && (BeforePersist(t.pc) ==> id in durable && durable[id] == Known(Running))
    && (t.pc.Upserted? || t.pc.Publishing? ==> id in durable ==> durable[id] == Known(t.pc.status))
  }

  /** What a step of a thread, or a stop request from outside, may do to it short of being granted or publishing. */
  ghost predicate ThreadAdvances(t: Thread, t': Thread) {
    && t'.spec == t.spec && t'.granted == t.granted
    && LiveAdvances(t.live, t'.live)
    && (Active(t.live.status) ==> Active(t'.live.status))
    && (t.pc.Done? <==> t'.pc.Done?)
  }

  lemma AppendLogExtends(run: Run, position: nat, text: string)
    requires Numbered(run) && position == |run.retries| - 1 && !run.retries[position].closed
    ensures Numbered(AppendLog(run, position, text)) && Extends(run.retries, AppendLog(run, position, text).retries)
  {
  }

  lemma BeginRetryExtends(run: Run)
    requires Numbered(run)
    ensures Numbered(BeginRetry(run)) && Extends(run.retries, BeginRetry(run).retries)
  {
  }

  /** Steps that append to, seal or open a retry. */
  predicate TouchesRetries(step: LocalStep) {
    step.OpenRetry? || step.Note? || step.Output? || step.Seal? || step.HandlerEvent? || step.HandlerSeal?
  }

  lemma ControlStepOk(id: RunId, t: Thread, step: LocalStep, clock: real, durable: map<RunId, RecordStatus>)
    requires ThreadOk(id, t) && RecordOk(id, t, durable) && !TouchesRetries(step) && !step.Announce?
    ensures ThreadOk(id, LocalNext(t, step, clock))
    ensures RecordOk(id, LocalNext(t, step, clock), durable)
    ensures ThreadAdvances(t, LocalNext(t, step, clock))
  {
    assert LocalNext(t, step, clock) == t.(pc := LocalNext(t, step, clock).pc);
  }

  lemma AnnounceOk(id: RunId, t: Thread, clock: real, durable: map<RunId, RecordStatus>)
    requires ThreadOk(id, t) && RecordOk(id, t, durable)
    ensures ThreadOk(id, LocalNext(t, Announce, clock))
    ensures RecordOk(id, LocalNext(t, Announce, clock), durable)
    ensures ThreadAdvances(t, LocalNext(t, Announce, clock))
  {
    ExtendsReflexive(t.live.retries);
  }

  lemma LoggingStepOk(id: RunId, t: Thread, step: LocalStep, clock: real, durable: map<RunId, RecordStatus>)
    requires ThreadOk(id, t) && RecordOk(id, t, durable) && (step.Note? || step.Output?)
    ensures ThreadOk(id, LocalNext(t, step, clock))
    ensures RecordOk(id, LocalNext(t, step, clock), durable)
    ensures ThreadAdvances(t, LocalNext(t, step, clock))
  {
    if InRetry(t.pc) {
      if step.Note? {
        AppendEventExtends(t.live, step.text);
      } else {
        AppendLogExtends(t.live, t.position, step.text);
      }
    }
  }

  lemma OpeningStepOk(id: RunId, t: Thread, step: LocalStep, clock: real, durable: map<RunId, RecordStatus>)
    requires ThreadOk(id, t) && RecordOk(id, t, durable) && (step.OpenRetry? || step.HandlerEvent?)
    ensures ThreadOk(id, LocalNext(t, step, clock))
    ensures RecordOk(id, LocalNext(t, step, clock), durable)
    ensures ThreadAdvances(t, LocalNext(t, step, clock))
  {
    if step.OpenRetry? {
      BeginRetryExtends(t.live);
    } else {
      AppendEventExtends(t.live, step.text);
    }
  }

  lemma SealStepOk(id: RunId, t: Thread, durable: map<RunId, RecordStatus>)
    requires ThreadOk(id, t) && RecordOk(id, t, durable)
    ensures ThreadOk(id, LocalNext(t, Seal, 0.0))
    ensures RecordOk(id, LocalNext(t, Seal, 0.0), durable)
    ensures ThreadAdvances(t, LocalNext(t, Seal, 0.0))
  {
    if t.pc.Sealing? {
      SealLastExtends(t.live, t.pc.retryStatus);
    }
  }

  lemma HandlerSealStepOk(id: RunId, t: Thread, durable: map<RunId, RecordStatus>)
    requires ThreadOk(id, t) && RecordOk(id, t, durable)
    ensures ThreadOk(id, LocalNext(t, HandlerSeal, 0.0))
    ensures RecordOk(id, LocalNext(t, HandlerSeal, 0.0), durable)
    ensures ThreadAdvances(t, LocalNext(t, HandlerSeal, 0.0))
  {
    if t.pc.HandlerSealing? && Active(t.live.status) {
      HandlerSealed(id, t);
    }
  }

  lemma HandlerSealed(id: RunId, t: Thread)
    requires ThreadOk(id, t) && t.pc.HandlerSealing? && Active(t.live.status)
    ensures ThreadOk(id, LocalNext(t, HandlerSeal, 0.0)) && ThreadAdvances(t, LocalNext(t, HandlerSeal, 0.0))
  {
    if HasOpenRetry(t.live) {
      SealLastExtends(t.live, Failed);
      HandlerSealedOk(id, t, SealRetry(t.live, |t.live.retries| - 1, Failed));
    } else {
      ExtendsReflexive(t.live.retries);
      HandlerSealedOk(id, t, t.live);
    }
  }

  lemma HandlerSealedOk(id: RunId, t: Thread, live: Run)
    requires ThreadOk(id, t) && t.pc.HandlerSealing? && Active(t.live.status)
    requires Numbered(live) && Extends(t.live.retries, live.retries) && live == t.live.(retries := live.retries)
    ensures
      var t' := t.(live := live, pc := Persisting(Failed, 0, true));
      ThreadOk(id, t') && ThreadAdvances(t, t')
  {
  }

  lemma LocalStepOk(id: RunId, t: Thread, step: LocalStep, clock: real, durable: map<RunId, RecordStatus>)
    requires ThreadOk(id, t) && RecordOk(id, t, durable)
    ensures ThreadOk(id, LocalNext(t, step, clock))
    ensures RecordOk(id, LocalNext(t, step, clock), durable)
    ensures ThreadAdvances(t, LocalNext(t, step, clock))
  {
    if step.Note? || step.Output? {
      LoggingStepOk(id, t, step, clock, durable);
    } else if step.OpenRetry? || step.HandlerEvent? {
      OpeningStepOk(id, t, step, clock, durable);
    } else if step.Seal? {
      SealStepOk(id, t, durable);
    } else if step.HandlerSeal? {
      HandlerSealStepOk(id, t, durable);
    } else if step.Announce? {
      AnnounceOk(id, t, clock, durable);
    } else {
      ControlStepOk(id, t, step, clock, durable);
    }
  }

  // ---------------------------------------------------------------------------
  // The whole system, one part per concern
  // ---------------------------------------------------------------------------

  ghost predicate ThreadsOk(threads: map<RunId, Thread>, used: set<RunId>, durable: map<RunId, RecordStatus>) {
    forall id :: id in threads ==> id in used && ThreadOk(id, threads[id]) && RecordOk(id, threads[id], durable)
  }

  predicate Holds(t: Thread) {
    t.granted && !t.pc.Done?
  }

  /** A lease is held exactly from the grant to the release, and no two held leases clash. */
  ghost predicate TableOk(threads: map<RunId, Thread>, table: Table) {
    && (forall id :: id in table <==> id in threads && Holds(threads[id]))
    && (forall id :: id in table ==> SameClaim(ClaimOf(id, threads[id].spec), table[id]))
    && Exclusion(table)
  }

  /** A status published live is terminal, is the run's live status, and is what its record says if there is one. */
  ghost predicate PublishedOk(threads: map<RunId, Thread>, published: map<RunId, Status>, used: set<RunId>, durable: map<RunId, RecordStatus>) {
    && (forall id :: id in published ==>
         id in used && !Active(published[id]) && (id in durable ==> durable[id] == Known(published[id])))
    && (forall id :: id in threads ==> (id in published <==> !Active(threads[id].live.status)))
    && (forall id :: id in threads && id in published ==> threads[id].live.status == published[id])
  }

  /** A manager's registered runs are its own; the active ones are at most its current run. */
  ghost predicate ManagersOk(threads: map<RunId, Thread>, managers: map<ManagerId, Manager>) {
    && (forall m, id :: m in managers && id in managers[m].registered ==>
         && id in threads && threads[id].spec.manager == m
         && (Active(threads[id].live.status) ==> managers[m].current == Some(id)))
    && (forall id :: id in threads && Active(threads[id].live.status) ==> Registered(threads, managers, id))
  }

  ghost predicate RecoveryOk(threads: map<RunId, Thread>, table: Table, durable: map<RunId, RecordStatus>, used: set<RunId>, recovery: Option<set<RunId>>) {
    && durable.Keys <= used
    && (recovery.Some? ==>
         && threads == map[] && table == map[]
         && forall id :: id in recovery.value <==> id in durable && ActiveRecord(durable[id]))
  }

  ghost predicate RequestOk(request: Request, id: RunId) {
    && request.holder.runId == id && request.claim.runId != id
    && ClaimsConflict(request.claim.resources, request.holder.resources)
    && request.holder.preemptible
    && request.holder.priority < request.claim.priority
  }

  /** At most one stop, then at most one force, and force only after the grace period. */
  ghost predicate ProtocolOk(history: seq<Request>, id: RunId) {
    && |history| <= 2
    && (forall i :: 0 <= i < |history| ==> RequestOk(history[i], id))
    && (|history| >= 1 ==> history[0].kind == AskStop)
    && (|history| == 2 ==>
         && history[1].kind == AskForceStop && history[1].holder.forceAfter.Some?
         && history[1].at - history[0].at >= history[1].holder.forceAfter.value)
  }

  /** The marks on a held lease are exactly its history. */
  ghost predicate MarksMatch(holder: Lease, history: seq<Request>) {
    && (holder.stopRequestedAt.Some? <==> |history| >= 1)
    && (holder.forceRequested <==> |history| >= 2)
    && (|history| >= 1 ==> holder.stopRequestedAt == Some(history[0].at))
  }

  ghost predicate HistoriesOk(table: Table, requests: map<RunId, seq<Request>>) {
    && (forall id :: id in requests ==> ProtocolOk(requests[id], id))
    && (forall id :: id in table ==> MarksMatch(table[id], History(requests, id)))
  }

  /** Only runs that were granted their claim have a history. */
  ghost predicate RequestedOk(threads: map<RunId, Thread>, requests: map<RunId, seq<Request>>, used: set<RunId>) {
    forall id :: History(requests, id) != [] ==> id in used && (id in threads ==> threads[id].granted)
  }

  ghost predicate Inv(s: State) {
    && ThreadsOk(s.threads, s.used, s.durable)
    && TableOk(s.threads, s.table)
    && PublishedOk(s.threads, s.published, s.used, s.durable)
    && ManagersOk(s.threads, s.managers)
    && RecoveryOk(s.threads, s.table, s.durable, s.used, s.recovery)
    && HistoriesOk(s.table, s.requests)
    && RequestedOk(s.threads, s.requests, s.used)
  }

  // ---------------------------------------------------------------------------
  // Replacing one thread
  // ---------------------------------------------------------------------------

  lemma ReplaceKeepsTable(threads: map<RunId, Thread>, table: Table, id: RunId, t': Thread)
    requires TableOk(threads, table) && id in threads
    requires t'.spec == threads[id].spec && Holds(t') == Holds(threads[id])
    ensures TableOk(threads[id := t'], table)
  {
  }

  lemma ReplaceKeepsPublished(threads: map<RunId, Thread>, published: map<RunId, Status>, used: set<RunId>, durable: map<RunId, RecordStatus>, id: RunId, t': Thread)
    requires PublishedOk(threads, published, used, durable) && id in threads
    requires t'.live.status == threads[id].live.status || (Active(threads[id].live.status) && Active(t'.live.status))
    ensures PublishedOk(threads[id := t'], published, used, durable)
  {
  }

  lemma ReplaceKeepsManagers(threads: map<RunId, Thread>, managers: map<ManagerId, Manager>, id: RunId, t': Thread)
    requires ManagersOk(threads, managers) && id in threads
    requires t'.spec == threads[id].spec && (Active(t'.live.status) ==> Active(threads[id].live.status))
    ensures ManagersOk(threads[id := t'], managers)
  {
  }

  lemma ReplaceKeepsRequested(threads: map<RunId, Thread>, requests: map<RunId, seq<Request>>, used: set<RunId>, id: RunId, t': Thread)
    requires RequestedOk(threads, requests, used) && id in threads && (threads[id].granted ==> t'.granted)
    ensures RequestedOk(threads[id := t'], requests, used)
  {
  }

  lemma ReplaceKeepsThreads(threads: map<RunId, Thread>, used: set<RunId>, durable: map<RunId, RecordStatus>, id: RunId, t': Thread)
    requires ThreadsOk(threads, used, durable) && id in threads && ThreadOk(id, t') && RecordOk(id, t', durable)
    ensures ThreadsOk(threads[id := t'], used, durable)
  {
  }

  /** The part of an advance that the other concerns look at. */
  predicate ThreadKeeps(t: Thread, t': Thread) {
    && t'.spec == t.spec && t'.granted == t.granted && (t.pc.Done? <==> t'.pc.Done?)
    && (t'.live.status == t.live.status || (Active(t.live.status) && Active(t'.live.status)))
  }

  lemma ReplaceKeepsInv(s: State, id: RunId, t': Thread)
    requires Inv(s) && id in s.threads && ThreadKeeps(s.threads[id], t')
    requires ThreadOk(id, t') && RecordOk(id, t', s.durable)
    ensures Inv(SetThread(s, id, t'))
  {
    ReplaceKeepsThreads(s.threads, s.used, s.durable, id, t');
    ReplaceKeepsTable(s.threads, s.table, id, t');
    ReplaceKeepsPublished(s.threads, s.published, s.used, s.durable, id, t');
    ReplaceKeepsManagers(s.threads, s.managers, id, t');
    ReplaceKeepsRequested(s.threads, s.requests, s.used, id, t');
    assert s.recovery.None?;
  }

  /** Replacing one thread by an advanced one keeps every part of the invariant. */
  lemma ThreadAdvanceKeepsInv(s: State, id: RunId, t': Thread)
    requires Inv(s) && id in s.threads
    requires ThreadOk(id, t') && RecordOk(id, t', s.durable) && ThreadAdvances(s.threads[id], t')
    ensures Inv(SetThread(s, id, t'))
  {
    assert ThreadKeeps(s.threads[id], t');
    ReplaceKeepsInv(s, id, t');
  }

  // ---------------------------------------------------------------------------
  // Stop requests and delivered callbacks
  // ---------------------------------------------------------------------------

  lemma StopKeepsThreadOk(id: RunId, t: Thread, registered: bool, force: bool, text: string)
    requires ThreadOk(id, t)
    ensures
      var t' := t.(live := StopRequested(t.live, registered, force, text));
      ThreadOk(id, t') && ThreadAdvances(t, t')
  {
    StopSectionsAdvance(t.live, text);
    AppendEventExtends(t.live, text);
  }

  lemma StopKeepsInv(s: State, id: RunId, registered: bool, force: bool, text: string)
    requires Inv(s)
    ensures Inv(StopNext(s, id, registered, force, text))
  {
    if id in s.threads {
      StopKeepsThreadOk(id, s.threads[id], registered, force, text);
      ThreadAdvanceKeepsInv(s, id, StopNext(s, id, registered, force, text).threads[id]);
    }
  }

  // ---------------------------------------------------------------------------
  // Claims
  // ---------------------------------------------------------------------------

  lemma GrantKeepsTable(threads: map<RunId, Thread>, table: Table, id: RunId, t': Thread)
    requires TableOk(threads, table) && id in threads && !threads[id].granted
    requires t'.spec == threads[id].spec && Holds(t')
    requires Conflicts(table, ClaimOf(id, t'.spec)) == {}
    ensures TableOk(threads[id := t'], table[id := ClaimOf(id, t'.spec)])
  {
    AttemptKeepsExclusion(table, false, ClaimOf(id, t'.spec), false, 0.0, None);
  }

  lemma GrantedThreadOk(id: RunId, t: Thread, durable: map<RunId, RecordStatus>)
    requires ThreadOk(id, t) && RecordOk(id, t, durable) && t.pc.Claiming?
    ensures
      var t' := t.(pc := Granted, granted := true);
      !t.granted && ThreadOk(id, t') && RecordOk(id, t', durable)
  {
  }

  lemma GrantKeepsInv(s: State, id: RunId)
    requires Inv(s) && id in s.threads && s.threads[id].pc.Claiming?
    requires Conflicts(s.table, ClaimOf(id, s.threads[id].spec)) == {}
    ensures
      var t := s.threads[id];
      Inv(SetThread(s, id, t.(pc := Granted, granted := true)).(table := s.table[id := ClaimOf(id, t.spec)]))
  {
    var t' := s.threads[id].(pc := Granted, granted := true);
    GrantedThreadOk(id, s.threads[id], s.durable);
    assert History(s.requests, id) == [];
    ReplaceKeepsThreads(s.threads, s.used, s.durable, id, t');
    GrantKeepsTable(s.threads, s.table, id, t');
    ReplaceKeepsPublished(s.threads, s.published, s.used, s.durable, id, t');
    ReplaceKeepsManagers(s.threads, s.managers, id, t');
    ReplaceKeepsRequested(s.threads, s.requests, s.used, id, t');
  }

  lemma RecordedHistory(requests: map<RunId, seq<Request>>, table: Table, callbacks: map<RunId, Callback>, claim: Lease, at: real, id: RunId)
    ensures History(Recorded(requests, table, callbacks, claim, at), id) ==
      History(requests, id) + if id in callbacks && id in table then [Request(callbacks[id], table[id], claim, at)] else []
  {
  }

  lemma PreemptKeepsHistory(holder: Lease, history: seq<Request>, claim: Lease, now: real)
    requires ProtocolOk(history, holder.runId) && MarksMatch(holder, history)
    requires RequestOk(Request(NoCallback, holder, claim, now), holder.runId)
    ensures
      var (holder', callback) := Preempt(holder, now);
      var history' := history + if callback == NoCallback then [] else [Request(callback, holder, claim, now)];
      ProtocolOk(history', holder.runId) && MarksMatch(holder', history')
  {
  }

  lemma WaitingKeepsHistory(table: Table, requests: map<RunId, seq<Request>>, claim: Lease, now: real, deadline: Option<real>, callbacks: map<RunId, Callback>, id: RunId)
    requires HistoriesOk(table, requests) && id in table && table[id].runId == id
    requires Attempt(table, false, claim, false, now, deadline).1 == Waiting(callbacks)
    ensures
      var (table', requests') := (Attempt(table, false, claim, false, now, deadline).0, Recorded(requests, table, callbacks, claim, now));
      ProtocolOk(History(requests', id), id) && id in table' && MarksMatch(table'[id], History(requests', id))
  {
    RecordedHistory(requests, table, callbacks, claim, now, id);
    WaitingEffect(table, claim, now, deadline, id);
    if id in Preempted(table, claim) {
      PreemptKeepsHistory(table[id], History(requests, id), claim, now);
    }
  }

  lemma WaitingKeepsHistories(table: Table, requests: map<RunId, seq<Request>>, claim: Lease, now: real, deadline: Option<real>, callbacks: map<RunId, Callback>)
    requires HistoriesOk(table, requests) && (forall i :: i in table ==> table[i].runId == i)
    requires Attempt(table, false, claim, false, now, deadline).1 == Waiting(callbacks)
    ensures HistoriesOk(Attempt(table, false, claim, false, now, deadline).0, Recorded(requests, table, callbacks, claim, now))
  {
    var table' := Attempt(table, false, claim, false, now, deadline).0;
    var requests' := Recorded(requests, table, callbacks, claim, now);
    AttemptOutcome(table, false, claim, false, now, deadline);
    forall id | id in requests' ensures ProtocolOk(requests'[id], id) {
      RecordedHistory(requests, table, callbacks, claim, now, id);
      if id in table {
        WaitingKeepsHistory(table, requests, claim, now, deadline, callbacks, id);
      }
    }
    forall id | id in table' ensures MarksMatch(table'[id], History(requests', id)) {
      WaitingKeepsHistory(table, requests, claim, now, deadline, callbacks, id);
    }
  }

  lemma WaitingKeepsTable(threads: map<RunId, Thread>, table: Table, claim: Lease, now: real, deadline: Option<real>)
    requires TableOk(threads, table) && Attempt(table, false, claim, false, now, deadline).1.Waiting?
    ensures TableOk(threads, Attempt(table, false, claim, false, now, deadline).0)
  {
    AttemptOutcome(table, false, claim, false, now, deadline);
    AttemptKeepsExclusion(table, false, claim, false, now, deadline);
  }

  lemma WaitingKeepsRequested(threads: map<RunId, Thread>, table: Table, requests: map<RunId, seq<Request>>, used: set<RunId>, callbacks: map<RunId, Callback>, claim: Lease, now: real)
    requires TableOk(threads, table) && RequestedOk(threads, requests, used) && threads.Keys <= used
    ensures RequestedOk(threads, Recorded(requests, table, callbacks, claim, now), used)
  {
  }

  lemma WaitingKeepsInv(s: State, claim: Lease, deadline: Option<real>)
    requires Inv(s) && s.recovery.None?
    requires Attempt(s.table, false, claim, false, s.clock, deadline).1.Waiting?
    ensures
      var (table, outcome) := Attempt(s.table, false, claim, false, s.clock, deadline);
      Inv(Waited(s, table, outcome.callbacks, claim))
  {
    var outcome := Attempt(s.table, false, claim, false, s.clock, deadline).1;
    assert s.threads.Keys <= s.used;
    WaitingKeepsTable(s.threads, s.table, claim, s.clock, deadline);
    WaitingKeepsHistories(s.table, s.requests, claim, s.clock, deadline, outcome.callbacks);
    WaitingKeepsRequested(s.threads, s.table, s.requests, s.used, outcome.callbacks, claim, s.clock);
  }

  /** A claim that ends without a grant leaves the claiming position and touches nothing else. */
  lemma LeaveClaimKeepsInv(s: State, id: RunId, pc: Pc)
    requires Inv(s) && id in s.threads && s.threads[id].pc.Claiming?
    requires pc.Handling? || (pc.Sealing? && pc.next.Complete?)
    ensures Inv(SetThread(s, id, s.threads[id].(pc := pc)))
  {
    assert ThreadOk(id, s.threads[id]) && RecordOk(id, s.threads[id], s.durable);
    ReplaceKeepsInv(s, id, s.threads[id].(pc := pc));
  }

  /** What a pass of `acquire` does to its own thread. */
  lemma AttemptThread(s: State, id: RunId, onConflict: TerminalStatus)
    requires id in s.threads && s.threads[id].pc.Claiming?
    ensures
      var (t, t') := (s.threads[id], AttemptNext(s, id, onConflict).threads[id]);
      && t' == t.(pc := t'.pc, granted := t'.granted)
      && (t'.pc == t.pc || t'.pc.Granted? || t'.pc.Handling? || (t'.pc.Sealing? && t'.pc.next.Complete?))
  {
    var t := s.threads[id];
    var (table, outcome) := Attempt(s.table, s.closing, ClaimOf(id, t.spec), t.live.stopRequested, s.clock, Some(t.pc.deadline));
    assert AttemptNext(s, id, onConflict).threads[id] ==
      if outcome.Acquired? then t.(pc := Granted, granted := true)
      else if outcome.Waiting? then t else t.(pc := RefusedClaim(outcome, onConflict));
  }

  /** The three shapes of the state after one pass of `acquire`. */
  lemma AttemptShapes(s: State, id: RunId, onConflict: TerminalStatus)
    requires id in s.threads && s.threads[id].pc.Claiming?
    ensures
      var t := s.threads[id];
      var claim := ClaimOf(id, t.spec);
      var (table, outcome) := Attempt(s.table, s.closing, claim, t.live.stopRequested, s.clock, Some(t.pc.deadline));
      var s' := AttemptNext(s, id, onConflict);
      if outcome.Acquired? then
        && Conflicts(s.table, claim) == {}
        && s' == SetThread(s, id, t.(pc := Granted, granted := true)).(table := s.table[id := claim])
      else if outcome.Waiting? then
        && Attempt(s.table, false, claim, false, s.clock, Some(t.pc.deadline)) == (table, outcome)
        && s' == Waited(s, table, outcome.callbacks, claim)
      else
        s' == SetThread(s, id, t.(pc := RefusedClaim(outcome, onConflict)))
  {
  }

  lemma AttemptKeepsInv(s: State, id: RunId, onConflict: TerminalStatus)
    requires Inv(s) && s.recovery.None? && id in s.threads && s.threads[id].pc.Claiming?
    ensures Inv(AttemptNext(s, id, onConflict))
  {
    AttemptShapes(s, id, onConflict);
    var t := s.threads[id];
    var outcome := Attempt(s.table, s.closing, ClaimOf(id, t.spec), t.live.stopRequested, s.clock, Some(t.pc.deadline)).1;
    if outcome.Acquired? {
      GrantKeepsInv(s, id);
    } else if outcome.Waiting? {
      WaitingKeepsInv(s, ClaimOf(id, t.spec), Some(t.pc.deadline));
    } else {
      LeaveClaimKeepsInv(s, id, RefusedClaim(outcome, onConflict));
    }
  }

  // ---------------------------------------------------------------------------
  // Finalization
  // ---------------------------------------------------------------------------

  lemma UpsertKeepsThreads(threads: map<RunId, Thread>, used: set<RunId>, durable: map<RunId, RecordStatus>, id: RunId)
    requires ThreadsOk(threads, used, durable) && id in threads && threads[id].pc.Persisting?
    ensures
      var pc := threads[id].pc;
      ThreadsOk(threads[id := threads[id].(pc := Upserted(pc.status, pc.failures, pc.handler))], used, durable[id := Known(pc.status)])
  {
  }

  lemma UpsertKeepsInv(s: State, id: RunId)
    requires Inv(s) && s.recovery.None? && id in s.threads && s.threads[id].pc.Persisting?
    ensures Inv(UpsertNext(s, id))
  {
    var t := s.threads[id];
    var t' := t.(pc := Upserted(t.pc.status, t.pc.failures, t.pc.handler));
    UpsertKeepsThreads(s.threads, s.used, s.durable, id);
    ReplaceKeepsTable(s.threads, s.table, id, t');
    UpsertKeepsPublished(s.threads, s.published, s.used, s.durable, id, t', Known(t.pc.status));
    ReplaceKeepsManagers(s.threads, s.managers, id, t');
    ReplaceKeepsRequested(s.threads, s.requests, s.used, id, t');
  }

  lemma UpsertKeepsPublished(threads: map<RunId, Thread>, published: map<RunId, Status>, used: set<RunId>, durable: map<RunId, RecordStatus>, id: RunId, t': Thread, status: RecordStatus)
    requires PublishedOk(threads, published, used, durable) && id in threads && Active(threads[id].live.status) && t'.live == threads[id].live
    ensures PublishedOk(threads[id := t'], published, used, durable[id := status])
  {
  }

  lemma PublishKeepsPublished(threads: map<RunId, Thread>, published: map<RunId, Status>, used: set<RunId>, durable: map<RunId, RecordStatus>, id: RunId, t': Thread)
    requires PublishedOk(threads, published, used, durable) && id in threads && id in used
    requires !Active(t'.live.status) && (id in durable ==> durable[id] == Known(t'.live.status))
    ensures PublishedOk(threads[id := t'], published[id := t'.live.status], used, durable)
  {
  }

  lemma PublishKeepsInv(s: State, id: RunId)
    requires Inv(s) && s.recovery.None? && id in s.threads && s.threads[id].pc.Publishing?
    ensures Inv(PublishNext(s, id))
  {
    var t := s.threads[id];
    assert ThreadOk(id, t) && RecordOk(id, t, s.durable);
    var t' := t.(live := Finish(t.live, t.pc.status), pc := Releasing);
    assert ThreadOk(id, t') && RecordOk(id, t', s.durable);
    ReplaceKeepsThreads(s.threads, s.used, s.durable, id, t');
    ReplaceKeepsTable(s.threads, s.table, id, t');
    PublishKeepsPublished(s.threads, s.published, s.used, s.durable, id, t');
    ReplaceKeepsManagers(s.threads, s.managers, id, t');
    ReplaceKeepsRequested(s.threads, s.requests, s.used, id, t');
  }

  lemma ReleaseKeepsTable(threads: map<RunId, Thread>, table: Table, id: RunId)
    requires TableOk(threads, table) && id in threads
    ensures TableOk(threads[id := threads[id].(pc := Done)], table - {id})
  {
  }

  lemma ReleaseKeepsInv(s: State, id: RunId)
    requires Inv(s) && s.recovery.None? && id in s.threads && s.threads[id].pc.Releasing?
    ensures Inv(ReleaseNext(s, id))
  {
    var t' := s.threads[id].(pc := Done);
    assert ThreadOk(id, t') && RecordOk(id, t', s.durable);
    ReplaceKeepsThreads(s.threads, s.used, s.durable, id, t');
    ReleaseKeepsTable(s.threads, s.table, id);
    ReplaceKeepsPublished(s.threads, s.published, s.used, s.durable, id, t');
    ReplaceKeepsManagers(s.threads, s.managers, id, t');
    ReplaceKeepsRequested(s.threads, s.requests, s.used, id, t');
  }

  // ---------------------------------------------------------------------------
  // Managers
  // ---------------------------------------------------------------------------

  lemma WithoutTerminalKeepsManagers(threads: map<RunId, Thread>, managers: map<ManagerId, Manager>, manager: ManagerId)
    requires ManagersOk(threads, managers) && manager in managers
    ensures ManagersOk(threads, managers[manager := WithoutTerminal(managers[manager], ActiveRuns(threads))])
    ensures
      var m := WithoutTerminal(managers[manager], ActiveRuns(threads));
      m.current.None? || m.current.value !in m.registered ==> m.registered == {}
  {
  }

  lemma RegisterKeepsManagers(threads: map<RunId, Thread>, managers: map<ManagerId, Manager>, id: RunId, t: Thread)
    requires ManagersOk(threads, managers) && id !in threads && t.spec.manager in managers
    requires managers[t.spec.manager].registered == {}
    ensures ManagersOk(threads[id := t], managers[t.spec.manager := Manager({id}, Some(id), managers[t.spec.manager].closing)])
  {
  }

  lemma StartKeepsInv(s: State, manager: ManagerId, id: RunId, spec: Spec, created: bool, threadStarts: bool)
    requires Inv(s) && s.recovery.None?
    ensures Inv(StartNext(s, manager, id, spec, created, threadStarts))
  {
    if manager in s.managers && id !in s.used && spec.manager == manager && !s.managers[manager].closing {
      WithoutTerminalKeepsManagers(s.threads, s.managers, manager);
      var m := WithoutTerminal(s.managers[manager], ActiveRuns(s.threads));
      if created && !(m.current.Some? && m.current.value in m.registered) {
        var t := Thread(spec, Run(id, Running, false, false, []), if threadStarts then LoopHead(1) else Handling, 0, false, false);
        assert ThreadOk(id, t);
        RegisterKeepsManagers(s.threads, s.managers[manager := m], id, t);
        assert m.registered + {id} == {id};
        var managers' := s.managers[manager := Manager(m.registered + {id}, Some(id), m.closing)];
        assert managers' == s.managers[manager := m][manager := Manager({id}, Some(id), m.closing)];
        StartedKeepsInv(s, id, t, managers');
      } else {
        ManagersKeepInv(s, s.managers[manager := m]);
      }
    }
  }

  lemma ManagersKeepInv(s: State, managers: map<ManagerId, Manager>)
    requires Inv(s) && ManagersOk(s.threads, managers)
    ensures Inv(s.(managers := managers))
  {
  }

  lemma StartedKeepsInv(s: State, id: RunId, t: Thread, managers: map<ManagerId, Manager>)
    requires Inv(s) && id !in s.used && s.recovery.None? && ManagersOk(s.threads[id := t], managers)
    requires ThreadOk(id, t) && Active(t.live.status) && !t.granted && (t.pc.LoopHead? || t.pc.Handling?)
    ensures Inv(s.(managers := managers, threads := s.threads[id := t], durable := s.durable[id := Known(Running)], used := s.used + {id}))
  {
    StartedThreads(s, id, t);
  }

  lemma StartedThreads(s: State, id: RunId, t: Thread)
    requires Inv(s) && id !in s.used && s.recovery.None?
    requires ThreadOk(id, t) && Active(t.live.status) && !t.granted && (t.pc.LoopHead? || t.pc.Handling?)
    ensures
      var (threads, durable, used) := (s.threads[id := t], s.durable[id := Known(Running)], s.used + {id});
      && ThreadsOk(threads, used, durable) && TableOk(threads, s.table) && PublishedOk(threads, s.published, used, durable)
      && RecoveryOk(threads, s.table, durable, used, s.recovery) && RequestedOk(threads, s.requests, used)
  {
    assert id !in s.threads && id !in s.published;
  }

  lemma DiscardKeepsInv(s: State, id: RunId)
    requires Inv(s)
    ensures Inv(DiscardNext(s, id))
  {
    var s' := DiscardNext(s, id);
    forall i | i in s.threads && Active(s.threads[i].live.status) ensures Registered(s.threads, s'.managers, i) {
      assert Registered(s.threads, s.managers, i);
    }
  }

  lemma CloseManagerKeepsManagers(threads: map<RunId, Thread>, managers: map<ManagerId, Manager>, manager: ManagerId)
    requires ManagersOk(threads, managers) && manager in managers
    ensures ManagersOk(threads, managers[manager := managers[manager].(closing := true)])
  {
  }

  // ---------------------------------------------------------------------------
  // Store, shutdown, crash and recovery
  // ---------------------------------------------------------------------------

  lemma EvictKeepsInv(s: State, ids: set<RunId>)
    requires Inv(s) && s.recovery.None?
    ensures Inv(s.(durable := Evicted(s.durable, ids)))
  {
  }

  lemma CrashKeepsInv(s: State, halfStarted: Option<RunId>)
    requires Inv(s)
    ensures Inv(CrashNext(s, halfStarted))
  {
  }

  lemma RecoveryKeepsInv(s: State, step: Step)
    requires Inv(s) && s.recovery.Some?
    ensures Inv(RecoveryNext(s, step))
  {
  }

  lemma LocalStepKeepsInv(s: State, id: RunId, local: LocalStep)
    requires Inv(s) && id in s.threads
    ensures Inv(SetThread(s, id, LocalNext(s.threads[id], local, s.clock)))
  {
    LocalStepOk(id, s.threads[id], local, s.clock, s.durable);
    ThreadAdvanceKeepsInv(s, id, LocalNext(s.threads[id], local, s.clock));
  }

  lemma SharedStepKeepsInv(s: State, step: Step)
    requires Inv(s) && s.recovery.None? && SharedStep(step) && step.id in s.threads
    ensures Inv(SharedStepNext(s, step))
  {
    match step
    case AttemptClaim(id, onConflict) => if s.threads[id].pc.Claiming? { AttemptKeepsInv(s, id, onConflict); }
    case WriteMetadata(id) => assert RecordOk(id, s.threads[id], s.durable);
    case Upsert(id) => if s.threads[id].pc.Persisting? { UpsertKeepsInv(s, id); }
    case Publish(id) => if s.threads[id].pc.Publishing? { PublishKeepsInv(s, id); }
    case Release(id) => if s.threads[id].pc.Releasing? { ReleaseKeepsInv(s, id); }
  }

  lemma StopStepKeepsInv(s: State, step: Step)
    requires Inv(s) && StopStep(step)
    ensures Inv(StopStepNext(s, step))
  {
    match step
    case Stop(id, text) => StopKeepsInv(s, id, true, false, text);
    case ForceStop(id, text) => StopKeepsInv(s, id, true, true, text);
    case Deliver(target, callback, text) =>
      var delivered := s.(pending := s.pending - {(target, callback)});
      StopKeepsInv(delivered, target, Registered(s.threads, s.managers, target), callback.AskForceStop?, text);
  }

  lemma EnvironmentKeepsInv(s: State, step: Step)
    requires Inv(s) && s.recovery.None?
    ensures Inv(EnvironmentNext(s, step))
  {
    match step
    case Start(manager, id, spec, created, threadStarts) => StartKeepsInv(s, manager, id, spec, created, threadStarts);
    case DiscardTerminal(id) => DiscardKeepsInv(s, id);
    case Evict(ids) => EvictKeepsInv(s, ids);
    case CloseManager(manager) =>
      if manager in s.managers { CloseManagerKeepsManagers(s.threads, s.managers, manager); }
    case Crash(halfStarted) => CrashKeepsInv(s, halfStarted);
    case _ =>
  }

  /** Every step of any run, of its surroundings, of a crash and of recovery keeps the invariant. */
  lemma StepKeepsInv(s: State, step: Step)
    requires Inv(s)
    ensures Inv(Apply(s, step))
  {
    if s.recovery.Some? {
      RecoveryKeepsInv(s, step);
    } else if step.Local? {
      if step.id in s.threads { LocalStepKeepsInv(s, step.id, step.local); }
    } else if SharedStep(step) {
      if step.id in s.threads { SharedStepKeepsInv(s, step); }
    } else if StopStep(step) {
      StopStepKeepsInv(s, step);
    } else {
      EnvironmentKeepsInv(s, step);
    }
  }

  lemma InitialInv(managers: set<ManagerId>)
    ensures Inv(Initial(managers))
  {
  }

  /** The invariant holds after every sequence of steps. */
  lemma {:induction false} ExecutionInv(s: State, steps: seq<Step>)
    requires Inv(s)
    ensures Inv(Execute(s, steps))
    decreases |steps|
  {
    if steps != [] {
      StepKeepsInv(s, steps[0]);
      ExecutionInv(Apply(s, steps[0]), steps[1..]);
    }
  }
}
