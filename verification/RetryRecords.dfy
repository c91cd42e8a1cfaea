/** What is recorded of each retry: open ones are running, closed ones carry the status decided for them. */
module RetryRecords {
  import opened Wrappers
  import opened LiveState
  import opened Lifecycle
  import opened LifecycleInvariant
  import opened LifecycleTheorems
  import opened RunEndings
  import opened RecordedRun

  /** Open retries are running and closed ones are not; an active run is stopping exactly if a stop was requested. */
  ghost predicate StatusesOk(run: Run) {
    && (forall i :: 0 <= i < |run.retries| ==> (run.retries[i].closed <==> run.retries[i].status !in {Running, Stopping}))
    && (forall i :: 0 <= i < |run.retries| && !run.retries[i].closed ==> run.retries[i].status == Running)
    && (run.status == Running ==> !run.stopRequested) && (run.status == Stopping ==> run.stopRequested)
  }

  /** Nothing is closed or given a status, but a retry may have been opened and texts added. */
  ghost predicate SameSeals(before: seq<Retry>, after: seq<Retry>) {
    && |before| <= |after| <= |before| + 1
    && (forall i :: 0 <= i < |before| ==> after[i].closed == before[i].closed && after[i].status == before[i].status)
    && (forall i :: |before| <= i < |after| ==> !after[i].closed && after[i].status == Running)
  }

  lemma EventSeals(run: Run, text: string)
    ensures SameSeals(run.retries, AppendEvent(run, text).retries)
    ensures HasOpenRetry(run) ==> |AppendEvent(run, text).retries| == |run.retries|
  {
  }

  lemma StopSeals(run: Run, registered: bool, force: bool, text: string)
    ensures
      var after := StopRequested(run, registered, force, text);
      && SameSeals(run.retries, after.retries) && (HasOpenRetry(run) ==> |after.retries| == |run.retries|)
      && (run.stopRequested ==> after.stopRequested)
      && (StatusesOk(run) ==> StatusesOk(after))
  {
    EventSeals(run, text);
  }

  // ---------------------------------------------------------------------------
  // The retries of a run and the decisions about them
  // ---------------------------------------------------------------------------

  /** The status of a retry with this decision: its own, or stopped where the loop has turned a failure into a stop. */
  predicate SealedAs(status: Status, verdict: Verdict, stopped: bool) {
    status == verdict.retryStatus || (verdict.retryStatus == Failed && stopped && status == Stopped)
  }

  /** The retry the thread is deciding about. */
  predicate Undecided(pc: Pc) {
    pc.Judged? || pc.Concluding?
  }

  /** The retries of the decisions are the run's, in order. */
  ghost predicate PositionsOk(positions: seq<nat>, judged: seq<Verdict>, retries: seq<Retry>) {
    && |positions| == |judged|
    && (forall k :: 0 <= k < |positions| ==> positions[k] < |retries|)
    && (forall j, k :: 0 <= j < k < |positions| ==> positions[j] < positions[k])
  }

  /** Each decision's retry is sealed as decided; only the last may still be open, or have been sealed by the handler. */
  ghost predicate SealsOk(judged: seq<Verdict>, positions: seq<nat>, live: Run, handled: bool) {
    forall k :: 0 <= k < |positions| && positions[k] < |live.retries| && k < |judged| ==>
      var retry := live.retries[positions[k]];
      if retry.closed then SealedAs(retry.status, judged[k], live.stopRequested) || (handled && k == |judged| - 1 && retry.status == Failed)
      else k == |judged| - 1 && positions[k] == |live.retries| - 1
  }

  predicate AllClosed(positions: seq<nat>, retries: seq<Retry>) {
    forall k :: 0 <= k < |positions| && positions[k] < |retries| ==> retries[positions[k]].closed
  }

  /** Where the thread stands with the retry of its last decision. */
  ghost predicate StandsOk(t: Thread, trail: Trail) {
    var n := |trail.positions|;
    && (t.pc.LoopHead? || t.pc.Opening? || t.pc.Leaving? ==> AllClosed(trail.positions, t.live.retries))
    && (InRetry(t.pc) && !Undecided(t.pc) && !t.pc.Sealing? ==> AllClosed(trail.positions, t.live.retries))
    && (Undecided(t.pc) ==> n > 0 && trail.positions[n - 1] == t.position && n == |trail.judged|
                            && SealedAs(t.pc.verdict.retryStatus, trail.judged[n - 1], t.live.stopRequested))
    && (t.pc.Sealing? && n > 0 && !AllClosed(trail.positions, t.live.retries) ==>
          trail.positions[n - 1] == t.position && n == |trail.judged| && SealedAs(t.pc.retryStatus, trail.judged[n - 1], t.live.stopRequested))
    && ((t.pc.Persisting? || t.pc.Upserted?) && !t.pc.handler ==> AllClosed(trail.positions, t.live.retries))
  }

  ghost predicate RetriesOk(t: Thread, trail: Trail, handled: bool) {
    && StatusesOk(t.live) && PositionsOk(trail.positions, trail.judged, t.live.retries)
    && SealsOk(trail.judged, trail.positions, t.live, handled) && StandsOk(t, trail)
    && (StillLooping(t.pc) ==> !handled) && ((t.pc.Persisting? || t.pc.Upserted?) ==> t.pc.handler == handled)
    && (t.pc.Publishing? || t.pc.Releasing? || t.pc.Done? ==> handled || AllClosed(trail.positions, t.live.retries))
  }

  // ---------------------------------------------------------------------------
  // One step of the thread
  // ---------------------------------------------------------------------------

  predicate WritesRetries(step: LocalStep) {
    step.OpenRetry? || step.Note? || step.Output? || step.HandlerEvent?
  }

  predicate Seals(step: LocalStep) {
    step.Seal? || step.HandlerSeal?
  }

  /** Positions after which no retry is decided or sealed any more. */
  predicate StillLooping(pc: Pc) {
    InRetry(pc) || pc.LoopHead? || pc.Opening? || pc.Leaving? || pc.Handling? || pc.HandlerSealing?
  }

  lemma QuietLive(id: RunId, t: Thread, step: LocalStep, clock: real)
    requires ThreadOk(id, t) && !WritesRetries(step) && !Seals(step) && !DecisionStep(step)
    ensures
      var t' := LocalNext(t, step, clock);
      && t'.live == t.live && t'.position == t.position && !(t.pc.Deciding? && t'.pc.Judged?)
      && (StillLooping(t'.pc) ==> StillLooping(t.pc) || ((t.pc.Persisting? || t.pc.Upserted?) && !t.pc.handler))
      && (t'.pc.Publishing? || t'.pc.Releasing? || t'.pc.Done? ==> t'.pc == t.pc || t.pc.Upserted?)
  {
  }

  lemma QuietStands(id: RunId, t: Thread, step: LocalStep, clock: real, trail: Trail)
    requires ThreadOk(id, t) && StandsOk(t, trail) && !WritesRetries(step) && !Seals(step) && !DecisionStep(step)
    ensures StandsOk(LocalNext(t, step, clock), trail)
  {
    QuietLive(id, t, step, clock);
  }

  lemma QuietRetries(id: RunId, t: Thread, step: LocalStep, clock: real, trail: Trail, handled: bool)
    requires ThreadOk(id, t) && RetriesOk(t, trail, handled) && !WritesRetries(step) && !Seals(step) && !DecisionStep(step)
    ensures
      var t' := LocalNext(t, step, clock);
      RetriesOk(t', LocalTrail(trail, t, t', step), handled)
  {
    var t' := LocalNext(t, step, clock);
    QuietLive(id, t, step, clock);
    QuietStands(id, t, step, clock, trail);
    SameStands(t', trail, LocalTrail(trail, t, t', step));
  }

  lemma SameStands(t: Thread, trail: Trail, trail': Trail)
    requires StandsOk(t, trail) && trail'.judged == trail.judged && trail'.positions == trail.positions
    ensures StandsOk(t, trail')
  {
  }

  /** The retry decided about is the last one, and no earlier decision is about it. */
  lemma NextPosition(t: Thread, trail: Trail, verdict: Verdict, handled: bool)
    requires RetriesOk(t, trail, handled) && !handled && AllClosed(trail.positions, t.live.retries) && OwnRetryIsOpenLast(t)
    ensures PositionsOk(trail.positions + [t.position], trail.judged + [verdict], t.live.retries)
    ensures SealsOk(trail.judged + [verdict], trail.positions + [t.position], t.live, false)
  {
    forall k | 0 <= k < |trail.positions| ensures trail.positions[k] < t.position {
      assert t.live.retries[trail.positions[k]].closed;
    }
    var (judged, positions) := (trail.judged + [verdict], trail.positions + [t.position]);
    forall k | 0 <= k < |positions| && positions[k] < |t.live.retries| && k < |judged|
      ensures
        var retry := t.live.retries[positions[k]];
        if retry.closed then SealedAs(retry.status, judged[k], t.live.stopRequested)
        else k == |judged| - 1 && positions[k] == |t.live.retries| - 1
    {
      if k < |trail.positions| { assert t.live.retries[trail.positions[k]].closed; }
    }
  }

  lemma JudgingRetries(id: RunId, t: Thread, step: LocalStep, clock: real, trail: Trail, handled: bool)
    requires ThreadOk(id, t) && RetriesOk(t, trail, handled) && (step.Evaluate? || step.NoResult?)
    ensures
      var t' := LocalNext(t, step, clock);
      RetriesOk(t', LocalTrail(trail, t, t', step), handled)
  {
    var t' := LocalNext(t, step, clock);
    if t.pc.Deciding? && !t.unannounced {
      NextPosition(t, trail, t'.pc.verdict, handled);
      assert LocalTrail(trail, t, t', step) == trail.(judged := trail.judged + [t'.pc.verdict], positions := trail.positions + [t.position]);
    }
  }

  lemma DecidedRetries(id: RunId, t: Thread, step: LocalStep, clock: real, trail: Trail, handled: bool)
    requires ThreadOk(id, t) && RetriesOk(t, trail, handled) && (step.Decide? || step.Conclude?) && Plain(t, step)
    ensures
      var t' := LocalNext(t, step, clock);
      RetriesOk(t', LocalTrail(trail, t, t', step), handled)
  {
    var t' := LocalNext(t, step, clock);
    assert t'.live == t.live && t'.position == t.position && LocalTrail(trail, t, t', step) == trail;
  }

  /** Opening a retry and adding texts leave every decision's retry as it is. */
  lemma SameSealsOk(judged: seq<Verdict>, positions: seq<nat>, live: Run, live': Run, handled: bool)
    requires PositionsOk(positions, judged, live.retries) && SealsOk(judged, positions, live, handled)
    requires SameSeals(live.retries, live'.retries) && (live.stopRequested ==> live'.stopRequested)
    requires AllClosed(positions, live.retries) || |live'.retries| == |live.retries|
    ensures PositionsOk(positions, judged, live'.retries) && SealsOk(judged, positions, live', handled)
    ensures AllClosed(positions, live'.retries) <==> AllClosed(positions, live.retries)
  {
    forall k | 0 <= k < |positions| ensures live'.retries[positions[k]].closed == live.retries[positions[k]].closed {
    }
  }

  /** An open decided retry is the last one. */
  lemma OpenIsLast(t: Thread, trail: Trail, handled: bool)
    requires RetriesOk(t, trail, handled)
    ensures AllClosed(trail.positions, t.live.retries) || HasOpenRetry(t.live)
  {
  }

  lemma WrittenRetries(id: RunId, t: Thread, step: LocalStep, clock: real, trail: Trail, handled: bool)
    requires ThreadOk(id, t) && RetriesOk(t, trail, handled) && WritesRetries(step)
    ensures
      var t' := LocalNext(t, step, clock);
      RetriesOk(t', LocalTrail(trail, t, t', step), handled)
  {
    var t' := LocalNext(t, step, clock);
    OpenIsLast(t, trail, handled);
    WrittenSeals(t, step, clock);
    SameSealsOk(trail.judged, trail.positions, t.live, t'.live, handled);
    WrittenStands(id, t, step, clock, trail);
  }

  lemma WrittenStands(id: RunId, t: Thread, step: LocalStep, clock: real, trail: Trail)
    requires ThreadOk(id, t) && StandsOk(t, trail) && WritesRetries(step)
    requires AllClosed(trail.positions, LocalNext(t, step, clock).live.retries) <==> AllClosed(trail.positions, t.live.retries)
    requires LocalNext(t, step, clock).live.stopRequested == t.live.stopRequested
    ensures
      var t' := LocalNext(t, step, clock);
      StandsOk(t', trail) && LocalTrail(trail, t, t', step) == trail
      && (StillLooping(t'.pc) ==> StillLooping(t.pc))
      && (t'.pc.Persisting? || t'.pc.Upserted? || t'.pc.Publishing? || t'.pc.Releasing? || t'.pc.Done? ==> t'.pc == t.pc)
  {
  }

  lemma WrittenSeals(t: Thread, step: LocalStep, clock: real)
    requires WritesRetries(step) && (InRetry(t.pc) ==> OwnRetryIsOpenLast(t))
    ensures
      var t' := LocalNext(t, step, clock);
      && SameSeals(t.live.retries, t'.live.retries) && (StatusesOk(t.live) ==> StatusesOk(t'.live))
      && t'.live.stopRequested == t.live.stopRequested
      && (HasOpenRetry(t.live) && !step.OpenRetry? ==> |t'.live.retries| == |t.live.retries|)
  {
    match step
    case Note(text) => EventSeals(t.live, text);
    case HandlerEvent(text) => EventSeals(t.live, text);
    case _ =>
  }

  /** Sealing gives the thread's own retry, if it is open, the status decided for it, and touches no other. */
  lemma SealWritesDecision(id: RunId, t: Thread, clock: real)
    requires ThreadOk(id, t) && t.pc.Sealing? && !t.unannounced
    ensures
      var t' := LocalNext(t, Seal, clock);
      && t.position < |t.live.retries| == |t'.live.retries| && !t.live.retries[t.position].closed
      && t'.live.retries[t.position].closed && t'.live.retries[t.position].status == t.pc.retryStatus
      && (forall i :: 0 <= i < |t.live.retries| && i != t.position ==> t'.live.retries[i] == t.live.retries[i])
      && t'.live == t.live.(retries := t'.live.retries)
  {
    SealRetryWrites(t.live, t.position, t.pc.retryStatus);
  }

  /** The handler seals the retry that is still open, if there is one, as failed. */
  lemma HandlerSealsAsFailed(t: Thread, clock: real)
    requires t.pc.HandlerSealing? && Active(t.live.status) && !t.unannounced
    ensures
      var t' := LocalNext(t, HandlerSeal, clock);
      var last := |t.live.retries| - 1;
      && |t'.live.retries| == |t.live.retries| && t'.live == t.live.(retries := t'.live.retries)
      && (HasOpenRetry(t.live) ==> t'.live.retries[last].closed && t'.live.retries[last].status == Failed)
      && (forall i :: 0 <= i < |t.live.retries| && (i != last || t.live.retries[i].closed) ==> t'.live.retries[i] == t.live.retries[i])
  {
  }

  lemma SealedRetries(id: RunId, t: Thread, clock: real, trail: Trail, handled: bool)
    requires ThreadOk(id, t) && RetriesOk(t, trail, handled)
    ensures
      var t' := LocalNext(t, Seal, clock);
      RetriesOk(t', LocalTrail(trail, t, t', Seal), handled)
  {
    if t.pc.Sealing? && !t.unannounced {
      SealWritesDecision(id, t, clock);
      SealedPosition(t, LocalNext(t, Seal, clock), trail, handled);
    }
  }

  lemma SealedPosition(t: Thread, t': Thread, trail: Trail, handled: bool)
    requires RetriesOk(t, trail, handled) && t.pc.Sealing? && t.position < |t.live.retries| == |t'.live.retries| && !t.live.retries[t.position].closed
    requires t'.live.retries[t.position].closed && t'.live.retries[t.position].status == t.pc.retryStatus
    requires forall i :: 0 <= i < |t.live.retries| && i != t.position ==> t'.live.retries[i] == t.live.retries[i]
    requires t'.live == t.live.(retries := t'.live.retries) && (t'.pc.LoopHead? || t'.pc.Leaving?)
    ensures RetriesOk(t', trail, handled)
  {
    var n := |trail.positions|;
    forall k | 0 <= k < n ensures t'.live.retries[trail.positions[k]].closed {
      if !t.live.retries[trail.positions[k]].closed {
        assert k == n - 1 && trail.positions[k] == t.position;
      }
    }
  }

  lemma HandlerSealedRetries(id: RunId, t: Thread, clock: real, trail: Trail, handled: bool)
    requires ThreadOk(id, t) && RetriesOk(t, trail, handled)
    ensures
      var t' := LocalNext(t, HandlerSeal, clock);
      var takes := t.pc.HandlerSealing? && Active(t.live.status);
      RetriesOk(t', LocalTrail(trail, t, t', HandlerSeal), handled || takes)
  {
    if t.pc.HandlerSealing? && Active(t.live.status) {
      var t' := LocalNext(t, HandlerSeal, clock);
      HandlerSealsAsFailed(t, clock);
      forall k | 0 <= k < |trail.positions| && t'.live.retries[trail.positions[k]].closed && !t.live.retries[trail.positions[k]].closed
        ensures k == |trail.judged| - 1 && t'.live.retries[trail.positions[k]].status == Failed
      {
      }
    }
  }

  lemma LocalRetries(id: RunId, t: Thread, step: LocalStep, clock: real, trail: Trail, handled: bool)
    requires ThreadOk(id, t) && RetriesOk(t, trail, handled) && Plain(t, step)
    ensures
      var t' := LocalNext(t, step, clock);
      var takes := step.HandlerSeal? && t.pc.HandlerSealing? && Active(t.live.status);
      RetriesOk(t', LocalTrail(trail, t, t', step), handled || takes)
  {
    if WritesRetries(step) {
      WrittenRetries(id, t, step, clock, trail, handled);
    } else if step.Seal? {
      SealedRetries(id, t, clock, trail, handled);
    } else if step.HandlerSeal? {
      HandlerSealedRetries(id, t, clock, trail, handled);
    } else if step.Evaluate? || step.NoResult? {
      JudgingRetries(id, t, step, clock, trail, handled);
    } else if step.Decide? || step.Conclude? {
      DecidedRetries(id, t, step, clock, trail, handled);
    } else {
      QuietRetries(id, t, step, clock, trail, handled);
    }
  }

  /** Whatever its callbacks do, no step of a thread leaves a closed retry running or an open one not running. */
  lemma LocalStatuses(id: RunId, t: Thread, step: LocalStep, clock: real)
    requires ThreadOk(id, t) && StatusesOk(t.live)
    ensures StatusesOk(LocalNext(t, step, clock).live)
  {
    if WritesRetries(step) {
      WrittenSeals(t, step, clock);
    } else if step.Seal? {
      if t.pc.Sealing? && !t.unannounced { SealWritesDecision(id, t, clock); }
    } else if step.HandlerSeal? {
      if t.pc.HandlerSealing? && Active(t.live.status) { HandlerSealsAsFailed(t, clock); }
    } else if !DecisionStep(step) {
      QuietLive(id, t, step, clock);
    }
  }

  // ---------------------------------------------------------------------------
  // Every execution
  // ---------------------------------------------------------------------------

  ghost predicate ThreadRetriesOk(t: Thread, trail: Trail, handled: bool, plain: bool) {
    StatusesOk(t.live) && (plain ==> RetriesOk(t, trail, handled))
  }

  ghost predicate RunRetriesOk(s: State, id: RunId, trail: Trail, handled: bool, plain: bool) {
    && (id in s.threads ==> ThreadRetriesOk(s.threads[id], trail, handled, plain))
    && (id !in s.used ==> trail == NO_TRAIL && !handled)
  }

  lemma OwnStepRetries(s: State, step: Step, trail: Trail, handled: bool, plain: bool)
    requires s.recovery.None? && step.Local? && step.id in s.threads && ThreadOk(step.id, s.threads[step.id])
    requires ThreadRetriesOk(s.threads[step.id], trail, handled, plain)
    ensures
      var s' := Apply(s, step);
      && step.id in s'.threads
      && ThreadRetriesOk(s'.threads[step.id], TrailStep(trail, s, step, step.id), handled || HandlerTakes(s, step, step.id),
                         plain && Plain(s.threads[step.id], step.local))
  {
    var t := s.threads[step.id];
    LocalStatuses(step.id, t, step.local, s.clock);
    if plain && Plain(t, step.local) { LocalRetries(step.id, t, step.local, s.clock, trail, handled); }
  }

  lemma LocalStepRetries(s: State, step: Step, id: RunId, trail: Trail, handled: bool, plain: bool)
    requires ThreadsOk(s.threads, s.used, s.durable) && s.recovery.None? && step.Local? && RunRetriesOk(s, id, trail, handled, plain)
    ensures RunRetriesOk(Apply(s, step), id, TrailStep(trail, s, step, id), handled || HandlerTakes(s, step, id), plain && PlainStep(s, step, id))
  {
    if step.id == id && id in s.threads {
      OwnStepRetries(s, step, trail, handled, plain);
    } else {
      StrangerStepRetries(s, step, id, trail, handled, plain);
    }
  }

  lemma StrangerStepRetries(s: State, step: Step, id: RunId, trail: Trail, handled: bool, plain: bool)
    requires s.recovery.None? && step.Local? && !(step.id == id && id in s.threads) && RunRetriesOk(s, id, trail, handled, plain)
    ensures RunRetriesOk(Apply(s, step), id, trail, handled, plain)
    ensures TrailStep(trail, s, step, id) == trail && !HandlerTakes(s, step, id) && PlainStep(s, step, id)
  {
  }

  lemma ClaimRetries(s: State, id: RunId, onConflict: TerminalStatus, trail: Trail, handled: bool, plain: bool)
    requires id in s.threads && s.threads[id].pc.Claiming? && ThreadRetriesOk(s.threads[id], trail, handled, plain)
    ensures ThreadRetriesOk(AttemptNext(s, id, onConflict).threads[id], trail, handled, plain)
  {
    AttemptThread(s, id, onConflict);
    ClaimedRetries(s.threads[id], AttemptNext(s, id, onConflict).threads[id], trail, handled, plain);
  }

  lemma ClaimedRetries(t: Thread, t': Thread, trail: Trail, handled: bool, plain: bool)
    requires ThreadRetriesOk(t, trail, handled, plain) && t.pc.Claiming? && t'.live == t.live && t'.position == t.position
    requires t'.pc == t.pc || t'.pc.Granted? || t'.pc.Handling? || (t'.pc.Sealing? && t'.pc.next.Complete?)
    ensures ThreadRetriesOk(t', trail, handled, plain)
  {
  }

  lemma SharedRetries(s: State, step: Step, trail: Trail, handled: bool, plain: bool)
    requires SharedStep(step) && step.id in s.threads && ThreadOk(step.id, s.threads[step.id])
    requires ThreadRetriesOk(s.threads[step.id], trail, handled, plain)
    ensures
      var s' := SharedStepNext(s, step);
      step.id in s'.threads && ThreadRetriesOk(s'.threads[step.id], trail, handled, plain)
  {
    match step
    case AttemptClaim(id, onConflict) => if s.threads[id].pc.Claiming? { ClaimRetries(s, id, onConflict, trail, handled, plain); }
    case WriteMetadata(id) =>
    case Upsert(id) => if s.threads[id].pc.Persisting? { UpsertRetries(s, id, trail, handled, plain); }
    case Publish(id) => if s.threads[id].pc.Publishing? { PublishRetries(s, id, trail, handled, plain); }
    case Release(id) =>
  }

  lemma UpsertRetries(s: State, id: RunId, trail: Trail, handled: bool, plain: bool)
    requires id in s.threads && s.threads[id].pc.Persisting? && ThreadRetriesOk(s.threads[id], trail, handled, plain)
    ensures id in UpsertNext(s, id).threads && ThreadRetriesOk(UpsertNext(s, id).threads[id], trail, handled, plain)
  {
    var t := s.threads[id];
    assert UpsertNext(s, id).threads[id] == t.(pc := Upserted(t.pc.status, t.pc.failures, t.pc.handler));
  }

  lemma PublishRetries(s: State, id: RunId, trail: Trail, handled: bool, plain: bool)
    requires id in s.threads && s.threads[id].pc.Publishing? && ThreadRetriesOk(s.threads[id], trail, handled, plain)
    ensures id in PublishNext(s, id).threads && ThreadRetriesOk(PublishNext(s, id).threads[id], trail, handled, plain)
  {
    PublishedThread(s, id);
    FinishedRetries(s.threads[id], PublishNext(s, id).threads[id], trail, handled, plain);
  }

  lemma PublishedThread(s: State, id: RunId)
    requires id in s.threads && s.threads[id].pc.Publishing?
    ensures
      var t := s.threads[id];
      && id in PublishNext(s, id).threads
      && PublishNext(s, id).threads[id] ==
           if Active(t.live.status) then t.(live := Finish(t.live, t.pc.status), pc := Releasing) else t.(pc := Done)
  {
  }

  lemma FinishedRetries(t: Thread, t': Thread, trail: Trail, handled: bool, plain: bool)
    requires ThreadRetriesOk(t, trail, handled, plain) && t.pc.Publishing? && (t'.pc.Releasing? || t'.pc.Done?)
    requires t'.live == t.live.(status := t'.live.status) && (t'.live.status == t.live.status || !Active(t'.live.status))
    ensures ThreadRetriesOk(t', trail, handled, plain)
  {
  }

  lemma SharedStepRetries(s: State, step: Step, id: RunId, trail: Trail, handled: bool, plain: bool)
    requires ThreadsOk(s.threads, s.used, s.durable) && PublishedOk(s.threads, s.published, s.used, s.durable)
    requires SharedStep(step) && step.id in s.threads && RunRetriesOk(s, id, trail, handled, plain)
    ensures RunRetriesOk(SharedStepNext(s, step), id, trail, handled, plain)
  {
    SharedStepThread(s, step);
    assert ThreadOk(step.id, s.threads[step.id]);
    if step.id == id { SharedRetries(s, step, trail, handled, plain); }
  }

  lemma StoppedRetries(t: Thread, registered: bool, force: bool, text: string, trail: Trail, handled: bool, plain: bool)
    requires ThreadRetriesOk(t, trail, handled, plain) && (InRetry(t.pc) ==> OwnRetryIsOpenLast(t))
    ensures ThreadRetriesOk(t.(live := StopRequested(t.live, registered, force, text)), trail, handled, plain)
  {
    var live := StopRequested(t.live, registered, force, text);
    StopSeals(t.live, registered, force, text);
    if plain {
      OpenIsLast(t, trail, handled);
      SameSealsOk(trail.judged, trail.positions, t.live, live, handled);
    }
  }

  lemma StopNextRetries(s: State, target: RunId, registered: bool, force: bool, text: string, id: RunId, trail: Trail, handled: bool, plain: bool)
    requires ThreadsOk(s.threads, s.used, s.durable) && RunRetriesOk(s, id, trail, handled, plain)
    ensures RunRetriesOk(StopNext(s, target, registered, force, text), id, trail, handled, plain)
  {
    if target == id && id in s.threads {
      assert ThreadOk(id, s.threads[id]);
      StoppedRetries(s.threads[id], registered, force, text, trail, handled, plain);
    }
  }

  lemma OtherStepRetries(s: State, step: Step, id: RunId, trail: Trail, handled: bool, plain: bool)
    requires ThreadsOk(s.threads, s.used, s.durable) && RunRetriesOk(s, id, trail, handled, plain)
    requires s.recovery.None? && !step.Local? && !SharedStep(step)
    ensures RunRetriesOk(Apply(s, step), id, trail, handled, plain)
  {
    match step
    case Stop(target, text) => StopNextRetries(s, target, true, false, text, id, trail, handled, plain);
    case ForceStop(target, text) => StopNextRetries(s, target, true, true, text, id, trail, handled, plain);
    case Deliver(target, callback, text) =>
      StopNextRetries(s.(pending := s.pending - {(target, callback)}), target, Registered(s.threads, s.managers, target),
                      callback.AskForceStop?, text, id, trail, handled, plain);
    case _ => EnvironmentRetries(s, step, id, trail, handled, plain);
  }

  lemma EnvironmentRetries(s: State, step: Step, id: RunId, trail: Trail, handled: bool, plain: bool)
    requires RunRetriesOk(s, id, trail, handled, plain) && !step.Local? && !SharedStep(step) && !StopStep(step)
    ensures RunRetriesOk(EnvironmentNext(s, step), id, trail, handled, plain)
  {
    if step.Start? {
      StartedRetries(s, step, id, trail, handled, plain);
    } else if !step.Crash? {
      UpkeepLeavesThreads(s, step);
    }
  }

  lemma StartedRetries(s: State, step: Step, id: RunId, trail: Trail, handled: bool, plain: bool)
    requires RunRetriesOk(s, id, trail, handled, plain) && step.Start?
    ensures RunRetriesOk(EnvironmentNext(s, step), id, trail, handled, plain)
  {
  }

  lemma StepRetries(s: State, step: Step, id: RunId, trail: Trail, handled: bool, plain: bool)
    requires ThreadsOk(s.threads, s.used, s.durable) && PublishedOk(s.threads, s.published, s.used, s.durable)
    requires (s.recovery.Some? ==> s.threads == map[]) && RunRetriesOk(s, id, trail, handled, plain)
    ensures RunRetriesOk(Apply(s, step), id, TrailStep(trail, s, step, id), handled || HandlerTakes(s, step, id), plain && PlainStep(s, step, id))
  {
    if s.recovery.Some? {
      RecoveryRetries(s, step, id, trail, handled, plain);
    } else if step.Local? {
      LocalStepRetries(s, step, id, trail, handled, plain);
    } else {
      OutsideSteps(s, step, id, trail);
      if SharedStep(step) {
        if step.id in s.threads { SharedStepRetries(s, step, id, trail, handled, plain); }
      } else {
        OtherStepRetries(s, step, id, trail, handled, plain);
      }
    }
  }

  /** What is not a step of the thread itself is neither a decision nor a takeover, and nothing without the run it is of. */
  lemma OutsideSteps(s: State, step: Step, id: RunId, trail: Trail)
    requires s.recovery.None? && !step.Local?
    ensures TrailStep(trail, s, step, id) == trail && !HandlerTakes(s, step, id)
    ensures SharedStep(step) ==> Apply(s, step) == if step.id in s.threads then SharedStepNext(s, step) else s
  {
  }

  lemma RecoveryRetries(s: State, step: Step, id: RunId, trail: Trail, handled: bool, plain: bool)
    requires s.recovery.Some? && s.threads == map[] && RunRetriesOk(s, id, trail, handled, plain)
    ensures RunRetriesOk(Apply(s, step), id, TrailStep(trail, s, step, id), handled || HandlerTakes(s, step, id), plain && PlainStep(s, step, id))
  {
  }

  lemma {:induction false} ExecutionRetries(s: State, steps: seq<Step>, id: RunId, trail: Trail, handled: bool, plain: bool)
    requires Inv(s) && RunRetriesOk(s, id, trail, handled, plain)
    ensures RunRetriesOk(Execute(s, steps), id, TrailOf(trail, s, steps, id), handled || Handled(s, steps, id), plain && PlainRun(s, steps, id))
    decreases |steps|
  {
    if steps != [] {
      StepRetries(s, steps[0], id, trail, handled, plain);
      StepKeepsInv(s, steps[0]);
      ExecutionRetries(Apply(s, steps[0]), steps[1..], id, TrailStep(trail, s, steps[0], id), handled || HandlerTakes(s, steps[0], id),
                       plain && PlainStep(s, steps[0], id));
    }
  }

  /** In every reachable state an open retry is running and a closed one has a final status, and an active run is
      stopping exactly if a stop was requested. */
  lemma RetryStatuses(managers: set<ManagerId>, steps: seq<Step>, id: RunId, i: nat)
    requires id in Execute(Initial(managers), steps).threads
    ensures
      var live := Execute(Initial(managers), steps).threads[id].live;
      && (live.status == Running ==> !live.stopRequested) && (live.status == Stopping ==> live.stopRequested)
      && (i < |live.retries| ==> if live.retries[i].closed then live.retries[i].status !in {Running, Stopping} else live.retries[i].status == Running)
  {
    InitialInv(managers);
    ExecutionRetries(Initial(managers), steps, id, NO_TRAIL, false, true);
  }

  /** In every execution whose callbacks leave decisions as they are, the retry of the k-th decision is sealed with the
      status decided, or as stopped where the loop has turned its failure into a stop, or as failed if the exception
      handler took the run over before it was sealed; only the retry of the last decision can still be open. */
  lemma RetriesAreSealedAsDecided(managers: set<ManagerId>, steps: seq<Step>, id: RunId, k: nat)
    requires id in Execute(Initial(managers), steps).threads && PlainRun(Initial(managers), steps, id)
    requires k < |TrailOf(NO_TRAIL, Initial(managers), steps, id).judged|
    ensures
      var live := Execute(Initial(managers), steps).threads[id].live;
      var trail := TrailOf(NO_TRAIL, Initial(managers), steps, id);
      && |trail.positions| == |trail.judged| && trail.positions[k] < |live.retries|
      && (k > 0 ==> trail.positions[k - 1] < trail.positions[k])
      && (!live.retries[trail.positions[k]].closed ==> k == |trail.judged| - 1)
      && (live.retries[trail.positions[k]].closed ==>
            var status := live.retries[trail.positions[k]].status;
            || status == trail.judged[k].retryStatus
            || (status == Stopped && trail.judged[k].retryStatus == Failed && live.stopRequested)
            || (status == Failed && k == |trail.judged| - 1 && Handled(Initial(managers), steps, id)))
  {
    InitialInv(managers);
    ExecutionRetries(Initial(managers), steps, id, NO_TRAIL, false, true);
  }

  /** Once the loop of such a run has left without the handler, every decision's retry is sealed. */
  lemma ConcludedRetriesAreSealed(managers: set<ManagerId>, steps: seq<Step>, id: RunId, k: nat)
    requires Concluded(managers, steps, id) && k < |TrailOf(NO_TRAIL, Initial(managers), steps, id).judged|
    ensures
      var live := Execute(Initial(managers), steps).threads[id].live;
      var positions := TrailOf(NO_TRAIL, Initial(managers), steps, id).positions;
      k < |positions| && positions[k] < |live.retries| && live.retries[positions[k]].closed
  {
    InitialInv(managers);
    ExecutionRetries(Initial(managers), steps, id, NO_TRAIL, false, true);
    FinishedThread(managers, steps, id);
  }
}
