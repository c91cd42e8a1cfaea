/** Every orderly sequence of decisions is that of some execution: the loop reaches each of them, in its own retry, and the
    last one is recorded. */
module DecidedRuns {
  import opened Wrappers
  import opened LiveState
  import opened Lifecycle
  import opened LifecycleInvariant
  import opened LifecycleTheorems
  import opened RunEndings
  import opened RecordedRun
  import Policy
  import ScheduledRun

  /** What the thread does in one round that comes to this decision. */
  function RoundSteps(round: nat, verdict: Verdict): seq<LocalStep> {
    [CheckLoop, OpenRetry, Proceed(0.0)] + (if round == 1 then [EnterCommand] else [])
    + [EndCommand, Evaluate(verdict, false), Decide(None), Conclude(None), Seal]
  }

  function LoopSteps(round: nat, verdicts: seq<Verdict>): seq<LocalStep>
    decreases |verdicts|
  {
    if verdicts == [] then [] else RoundSteps(round, verdicts[0]) + LoopSteps(round + 1, verdicts[1..])
  }

  /** All decisions but the last ask for another retry, and there is room for them. */
  predicate Feasible(verdicts: seq<Verdict>, maxRetries: nat) {
    && 0 < |verdicts| <= maxRetries
    && forall k :: 0 <= k < |verdicts| ==> (verdicts[k].again <==> k < |verdicts| - 1)
  }

  function SpecFor(maxRetries: nat): Spec {
    Spec(MANAGER, 0, [], None, true, maxRetries)
  }

  /** The run as it is when nothing but these decisions has happened. */
  function RunAfter(verdicts: seq<Verdict>): Run {
    Run(RUN, Running, false, false,
        seq(|verdicts|, k requires 0 <= k < |verdicts| =>
          Retry(RetryId(RUN, k + 1), RUN, k + 1, verdicts[k].retryStatus, [], true)))
  }

  predicate AtHead(t: Thread, round: nat, verdicts: seq<Verdict>, maxRetries: nat) {
    t.pc == LoopHead(round) && t.live == RunAfter(verdicts) && t.spec == SpecFor(maxRetries) && !t.unannounced
  }

  // ---------------------------------------------------------------------------
  // Trails of local steps
  // ---------------------------------------------------------------------------

  function LocalsTrail(trail: Trail, t: Thread, locals: seq<LocalStep>, clock: real): Trail
    decreases |locals|
  {
    if locals == [] then trail
    else
      var next := LocalNext(t, locals[0], clock);
      LocalsTrail(LocalTrail(trail, t, next, locals[0]), next, locals[1..], clock)
  }

  lemma {:induction false} LocalsNextConcat(t: Thread, first: seq<LocalStep>, second: seq<LocalStep>, clock: real, trail: Trail)
    ensures LocalsNext(t, first + second, clock) == LocalsNext(LocalsNext(t, first, clock), second, clock)
    ensures LocalsTrail(trail, t, first + second, clock) == LocalsTrail(LocalsTrail(trail, t, first, clock), LocalsNext(t, first, clock), second, clock)
    decreases |first|
  {
    if first == [] {
      assert first + second == second;
    } else {
      assert (first + second)[1..] == first[1..] + second && (first + second)[0] == first[0];
      var next := LocalNext(t, first[0], clock);
      LocalsNextConcat(next, first[1..], second, clock, LocalTrail(trail, t, next, first[0]));
    }
  }

  /** Steps that leave the decisions alone and are not the handler's. */
  predicate PlainLocals(locals: seq<LocalStep>) {
    forall i :: 0 <= i < |locals| ==>
      && !locals[i].StartDecision? && !locals[i].HandlerSeal?
      && (locals[i].Decide? ==> locals[i].updated.None?) && (locals[i].Conclude? ==> locals[i].finish.None?)
  }

  lemma {:induction false} TrailOfLocals(trail: Trail, s: State, locals: seq<LocalStep>)
    requires s.recovery.None? && RUN in s.threads && PlainLocals(locals)
    ensures TrailOf(trail, s, Locals(locals), RUN) == LocalsTrail(trail, s.threads[RUN], locals, s.clock)
    ensures PlainRun(s, Locals(locals), RUN) && !Handled(s, Locals(locals), RUN)
    decreases |locals|
  {
    if locals != [] {
      var next := SetThread(s, RUN, LocalNext(s.threads[RUN], locals[0], s.clock));
      assert Locals(locals)[1..] == Locals(locals[1..]) && Apply(s, Locals(locals)[0]) == next;
      TrailOfLocals(TrailStep(trail, s, Locals(locals)[0], RUN), next, locals[1..]);
    }
  }

  lemma {:induction false} TrailConcat(trail: Trail, s: State, first: seq<Step>, second: seq<Step>)
    ensures TrailOf(trail, s, first + second, RUN) == TrailOf(TrailOf(trail, s, first, RUN), Execute(s, first), second, RUN)
    ensures PlainRun(s, first + second, RUN) <==> PlainRun(s, first, RUN) && PlainRun(Execute(s, first), second, RUN)
    ensures Handled(s, first + second, RUN) <==> Handled(s, first, RUN) || Handled(Execute(s, first), second, RUN)
    decreases |first|
  {
    if first == [] {
      assert first + second == second;
    } else {
      assert (first + second)[1..] == first[1..] + second && (first + second)[0] == first[0];
      TrailConcat(TrailStep(trail, s, first[0], RUN), Apply(s, first[0]), first[1..], second);
    }
  }

  // ---------------------------------------------------------------------------
  // One round, and all of them
  // ---------------------------------------------------------------------------

  lemma OpeningRuns(t: Thread, round: nat, verdicts: seq<Verdict>, maxRetries: nat)
    requires AtHead(t, round, verdicts, maxRetries) && round == |verdicts| + 1 <= maxRetries
    ensures
      var opening := [CheckLoop, OpenRetry, Proceed(0.0)] + (if round == 1 then [EnterCommand] else []);
      var t' := LocalsNext(t, opening, 0.0);
      && t'.pc == Command(round) && t'.live == BeginRetry(t.live) && t'.spec == t.spec && !t'.unannounced && t'.position == |verdicts|
      && forall trail :: LocalsTrail(trail, t, opening, 0.0) == trail
  {
    var one := LocalNext(t, CheckLoop, 0.0);
    var two := LocalNext(one, OpenRetry, 0.0);
    var three := LocalNext(two, Proceed(0.0), 0.0);
    var first := [CheckLoop, OpenRetry, Proceed(0.0)];
    assert first[1..] == [OpenRetry, Proceed(0.0)] && first[1..][1..] == [Proceed(0.0)] && [Proceed(0.0)][1..] == [];
    assert LocalsNext(t, first, 0.0) == LocalsNext(one, first[1..], 0.0) == LocalsNext(two, [Proceed(0.0)], 0.0)
      == LocalsNext(three, [], 0.0) == three;
    forall trail ensures LocalsTrail(trail, t, first, 0.0) == trail {
      assert LocalsTrail(trail, t, first, 0.0) == LocalsTrail(trail, one, first[1..], 0.0)
        == LocalsTrail(trail, two, [Proceed(0.0)], 0.0) == LocalsTrail(trail, three, [], 0.0);
    }
    if round == 1 {
      EnteringRuns(t, three, first);
    } else {
      assert first + [] == first;
    }
  }

  lemma EnteringRuns(t: Thread, three: Thread, first: seq<LocalStep>)
    requires LocalsNext(t, first, 0.0) == three && three.pc.Granted? && !three.live.stopRequested && !three.unannounced
    requires forall trail :: LocalsTrail(trail, t, first, 0.0) == trail
    ensures LocalsNext(t, first + [EnterCommand], 0.0) == three.(pc := Command(1))
    ensures forall trail :: LocalsTrail(trail, t, first + [EnterCommand], 0.0) == trail
  {
    assert [EnterCommand][1..] == [];
    forall trail ensures LocalsTrail(trail, t, first + [EnterCommand], 0.0) == trail {
      LocalsNextConcat(t, first, [EnterCommand], 0.0, trail);
      assert LocalsTrail(trail, three, [EnterCommand], 0.0) == LocalsTrail(trail, three.(pc := Command(1)), [], 0.0);
    }
    LocalsNextConcat(t, first, [EnterCommand], 0.0, NO_TRAIL);
    assert LocalsNext(three, [EnterCommand], 0.0) == LocalsNext(three.(pc := Command(1)), [], 0.0);
  }

  lemma JudgingRuns(t: Thread, round: nat, verdict: Verdict, trail: Trail)
    requires t.pc == Command(round) && !t.live.stopRequested && !t.unannounced
    ensures
      var judging := [EndCommand, Evaluate(verdict, false), Decide(None)];
      && LocalsNext(t, judging, 0.0) == t.(pc := Concluding(round, verdict))
      && LocalsTrail(trail, t, judging, 0.0) == trail.(judged := trail.judged + [verdict], positions := trail.positions + [t.position])
  {
    var judging := [EndCommand, Evaluate(verdict, false), Decide(None)];
    var (one, two) := (judging[1..], judging[2..]);
    assert one[1..] == two && two == [Decide(None)] && two[1..] == [];
    var (ended, judged, concluding) := (t.(pc := Deciding(round)), t.(pc := Judged(round, verdict)), t.(pc := Concluding(round, verdict)));
    var next := trail.(judged := trail.judged + [verdict], positions := trail.positions + [t.position]);
    assert LocalNext(t, judging[0], 0.0) == ended && LocalNext(ended, one[0], 0.0) == judged && LocalNext(judged, two[0], 0.0) == concluding;
    assert LocalsNext(t, judging, 0.0) == LocalsNext(ended, one, 0.0) == LocalsNext(judged, two, 0.0) == LocalsNext(concluding, [], 0.0);
    assert LocalsTrail(trail, t, judging, 0.0) == LocalsTrail(trail, ended, one, 0.0) == LocalsTrail(next, judged, two, 0.0)
      == LocalsTrail(next, concluding, [], 0.0) == next;
  }

  lemma SealingRuns(t: Thread, round: nat, verdict: Verdict, trail: Trail)
    requires t.pc == Concluding(round, verdict) && !t.live.stopRequested && !t.unannounced && t.position < |t.live.retries|
    requires verdict.again ==> round < t.spec.maxRetries
    ensures
      && LocalsNext(t, [Conclude(None), Seal], 0.0) ==
           t.(pc := if verdict.again then LoopHead(round + 1) else Leaving(CompletionOf(verdict)),
              live := SealRetry(t.live, t.position, verdict.retryStatus))
      && LocalsTrail(trail, t, [Conclude(None), Seal], 0.0) == trail
  {
    var sealing := LocalNext(t, Conclude(None), 0.0);
    var sealed := LocalNext(sealing, Seal, 0.0);
    assert [Conclude(None), Seal][1..] == [Seal] && [Seal][1..] == [];
    assert LocalsNext(t, [Conclude(None), Seal], 0.0) == LocalsNext(sealing, [Seal], 0.0) == LocalsNext(sealed, [], 0.0) == sealed;
    assert LocalsTrail(trail, t, [Conclude(None), Seal], 0.0) == LocalsTrail(trail, sealing, [Seal], 0.0) == LocalsTrail(trail, sealed, [], 0.0);
  }

  lemma DecidingRuns(t: Thread, round: nat, verdict: Verdict, trail: Trail)
    requires t.pc == Command(round) && !t.live.stopRequested && !t.unannounced && t.position < |t.live.retries|
    requires verdict.again ==> round < t.spec.maxRetries
    ensures
      var deciding := [EndCommand, Evaluate(verdict, false), Decide(None), Conclude(None), Seal];
      && LocalsNext(t, deciding, 0.0) == t.(pc := if verdict.again then LoopHead(round + 1) else Leaving(CompletionOf(verdict)),
                                             live := SealRetry(t.live, t.position, verdict.retryStatus))
      && LocalsTrail(trail, t, deciding, 0.0) == trail.(judged := trail.judged + [verdict], positions := trail.positions + [t.position])
  {
    var judging := [EndCommand, Evaluate(verdict, false), Decide(None)];
    var next := trail.(judged := trail.judged + [verdict], positions := trail.positions + [t.position]);
    JudgingRuns(t, round, verdict, trail);
    SealingRuns(t.(pc := Concluding(round, verdict)), round, verdict, next);
    LocalsNextConcat(t, judging, [Conclude(None), Seal], 0.0, trail);
    assert [EndCommand, Evaluate(verdict, false), Decide(None), Conclude(None), Seal] == judging + [Conclude(None), Seal];
  }

  /** One round adds its decision, its sealed retry, and nothing else. */
  lemma RoundRuns(t: Thread, verdicts: seq<Verdict>, verdict: Verdict, maxRetries: nat, trail: Trail)
    requires AtHead(t, |verdicts| + 1, verdicts, maxRetries) && |verdicts| < maxRetries && (verdict.again ==> |verdicts| + 1 < maxRetries)
    ensures
      var round := |verdicts| + 1;
      var t' := LocalsNext(t, RoundSteps(round, verdict), 0.0);
      && t'.live == RunAfter(verdicts + [verdict]) && t'.spec == t.spec && !t'.unannounced
      && t'.pc == (if verdict.again then LoopHead(round + 1) else Leaving(CompletionOf(verdict)))
      && LocalsTrail(trail, t, RoundSteps(round, verdict), 0.0) ==
           trail.(judged := trail.judged + [verdict], positions := trail.positions + [|verdicts|])
  {
    var round := |verdicts| + 1;
    var opening := [CheckLoop, OpenRetry, Proceed(0.0)] + (if round == 1 then [EnterCommand] else []);
    var deciding := [EndCommand, Evaluate(verdict, false), Decide(None), Conclude(None), Seal];
    assert RoundSteps(round, verdict) == opening + deciding;
    OpeningRuns(t, round, verdicts, maxRetries);
    LocalsNextConcat(t, opening, deciding, 0.0, trail);
    DecidingRuns(LocalsNext(t, opening, 0.0), round, verdict, trail);
    SealedRun(verdicts, verdict);
  }

  lemma SealedRun(verdicts: seq<Verdict>, verdict: Verdict)
    ensures SealRetry(BeginRetry(RunAfter(verdicts)), |verdicts|, verdict.retryStatus) == RunAfter(verdicts + [verdict])
  {
    var sealed := SealRetry(BeginRetry(RunAfter(verdicts)), |verdicts|, verdict.retryStatus);
    assert sealed.retries == RunAfter(verdicts + [verdict]).retries;
  }

  function Positions(from: nat, count: nat): seq<nat> {
    seq(count, k requires 0 <= k < count => from + k)
  }

  lemma {:induction false} LoopRuns(t: Thread, done: seq<Verdict>, verdicts: seq<Verdict>, maxRetries: nat, trail: Trail)
    requires AtHead(t, |done| + 1, done, maxRetries) && |done| < maxRetries && Feasible(verdicts, maxRetries - |done|)
    ensures
      var steps := LoopSteps(|done| + 1, verdicts);
      var t' := LocalsNext(t, steps, 0.0);
      && t'.live == RunAfter(done + verdicts) && t'.spec == t.spec && !t'.unannounced
      && t'.pc == Leaving(CompletionOf(verdicts[|verdicts| - 1]))
      && LocalsTrail(trail, t, steps, 0.0) ==
           trail.(judged := trail.judged + verdicts, positions := trail.positions + Positions(|done|, |verdicts|))
    decreases |verdicts|
  {
    var (first, rest) := (RoundSteps(|done| + 1, verdicts[0]), LoopSteps(|done| + 2, verdicts[1..]));
    var next := LocalsNext(t, first, 0.0);
    var after := trail.(judged := trail.judged + [verdicts[0]], positions := trail.positions + [|done|]);
    RoundRuns(t, done, verdicts[0], maxRetries, trail);
    LocalsNextConcat(t, first, rest, 0.0, trail);
    JoinedTrails(trail, verdicts, |done|);
    if |verdicts| == 1 {
      assert rest == [] && done + verdicts == done + [verdicts[0]];
    } else {
      LoopRuns(next, done + [verdicts[0]], verdicts[1..], maxRetries, after);
      assert (done + [verdicts[0]]) + verdicts[1..] == done + verdicts;
    }
  }

  lemma JoinedTrails(trail: Trail, verdicts: seq<Verdict>, from: nat)
    requires verdicts != []
    ensures (trail.judged + [verdicts[0]]) + verdicts[1..] == trail.judged + verdicts
    ensures (trail.positions + [from]) + Positions(from + 1, |verdicts| - 1) == trail.positions + Positions(from, |verdicts|)
    ensures |verdicts| == 1 ==> Positions(from, 1) == [from] && verdicts == [verdicts[0]]
  {
    assert [from] + Positions(from + 1, |verdicts| - 1) == Positions(from, |verdicts|);
    assert [verdicts[0]] + verdicts[1..] == verdicts;
  }

  // ---------------------------------------------------------------------------
  // The whole execution
  // ---------------------------------------------------------------------------

  function StartSteps(maxRetries: nat): seq<Step> {
    [Start(MANAGER, RUN, SpecFor(maxRetries), true, true)]
  }

  lemma StartRuns(maxRetries: nat)
    ensures
      var s := Execute(Initial({MANAGER}), StartSteps(maxRetries));
      && s.recovery.None? && s.clock == 0.0
      && RUN in s.threads && AtHead(s.threads[RUN], 1, [], maxRetries)
    ensures TrailOf(NO_TRAIL, Initial({MANAGER}), StartSteps(maxRetries), RUN) == NO_TRAIL
    ensures PlainRun(Initial({MANAGER}), StartSteps(maxRetries), RUN) && !Handled(Initial({MANAGER}), StartSteps(maxRetries), RUN)
  {
    var s := Initial({MANAGER});
    assert StartSteps(maxRetries)[1..] == [];
    var next := Apply(s, StartSteps(maxRetries)[0]);
    assert Execute(s, StartSteps(maxRetries)) == Execute(next, []) == next;
    assert RunAfter([]) == Run(RUN, Running, false, false, []);
    assert TrailOf(NO_TRAIL, s, StartSteps(maxRetries), RUN) == TrailOf(NO_TRAIL, next, [], RUN);
    assert PlainRun(next, [], RUN) && !Handled(next, [], RUN);
  }

  lemma LeaveRuns(t: Thread, trail: Trail)
    requires t.pc.Leaving? && Active(t.live.status) && !t.live.stopRequested && !t.unannounced
    ensures LocalsNext(t, [Leave], 0.0) == t.(pc := Persisting(t.pc.status, 0, false))
    ensures LocalsTrail(trail, t, [Leave], 0.0) == trail.(left := Some(Departure(t.pc.status, false)))
  {
    assert [Leave][1..] == [];
    var left := LocalNext(t, Leave, 0.0);
    assert LocalsNext(t, [Leave], 0.0) == LocalsNext(left, [], 0.0);
    assert LocalsTrail(trail, t, [Leave], 0.0) == LocalsTrail(LocalTrail(trail, t, left, Leave), left, [], 0.0);
  }

  lemma FinishRuns(s: State, trail: Trail)
    requires s.recovery.None? && RUN in s.threads && s.threads[RUN].pc.Persisting? && !s.threads[RUN].unannounced
    ensures TrailOf(trail, s, FINISH, RUN) == trail && PlainRun(s, FINISH, RUN) && !Handled(s, FINISH, RUN)
  {
    var one := Apply(s, Upsert(RUN));
    var two := Apply(one, Local(RUN, SyncSucceeds));
    assert FINISH[1..] == [Local(RUN, SyncSucceeds), Publish(RUN)] && FINISH[1..][1..] == [Publish(RUN)] && [Publish(RUN)][1..] == [];
    assert one.threads[RUN].pc.Upserted?;
    assert TrailOf(trail, s, FINISH, RUN) == TrailOf(trail, one, FINISH[1..], RUN) == TrailOf(trail, two, [Publish(RUN)], RUN)
      == TrailOf(trail, Apply(two, Publish(RUN)), [], RUN);
    assert PlainRun(two, [Publish(RUN)], RUN) && PlainRun(one, FINISH[1..], RUN);
    assert !Handled(two, [Publish(RUN)], RUN) && !Handled(one, FINISH[1..], RUN);
  }

  function DecidedSteps(verdicts: seq<Verdict>, maxRetries: nat): seq<Step> {
    StartSteps(maxRetries) + (Locals(LoopSteps(1, verdicts) + [Leave]) + FINISH)
  }

  lemma {:induction false} LoopStepsArePlain(round: nat, verdicts: seq<Verdict>)
    ensures PlainLocals(LoopSteps(round, verdicts))
    decreases |verdicts|
  {
    if verdicts != [] {
      LoopStepsArePlain(round + 1, verdicts[1..]);
      RoundIsPlain(round, verdicts[0]);
      PlainJoined(RoundSteps(round, verdicts[0]), LoopSteps(round + 1, verdicts[1..]));
    }
  }

  lemma RoundIsPlain(round: nat, verdict: Verdict)
    ensures PlainLocals(RoundSteps(round, verdict))
  {
  }

  lemma PlainJoined(first: seq<LocalStep>, second: seq<LocalStep>)
    requires PlainLocals(first) && PlainLocals(second)
    ensures PlainLocals(first + second)
  {
  }

  /** The state before the status is written. */
  lemma LoopState(verdicts: seq<Verdict>, maxRetries: nat)
    requires Feasible(verdicts, maxRetries)
    ensures
      var started := Execute(Initial({MANAGER}), StartSteps(maxRetries));
      var locals := LoopSteps(1, verdicts) + [Leave];
      var s := Execute(started, Locals(locals));
      && s.recovery.None? && RUN in s.threads && s.threads[RUN].live == RunAfter(verdicts) && !s.threads[RUN].unannounced
      && s.threads[RUN].pc == Persisting(CompletionOf(verdicts[|verdicts| - 1]), 0, false)
      && TrailOf(NO_TRAIL, started, Locals(locals), RUN) ==
           Trail(verdicts, Positions(0, |verdicts|), Some(Departure(CompletionOf(verdicts[|verdicts| - 1]), false)))
      && PlainRun(started, Locals(locals), RUN) && !Handled(started, Locals(locals), RUN)
  {
    StartRuns(maxRetries);
    var started := Execute(Initial({MANAGER}), StartSteps(maxRetries));
    var locals := LoopSteps(1, verdicts) + [Leave];
    LoopLeaves(started.threads[RUN], verdicts, maxRetries);
    ExecuteLocals(started, locals);
    TrailOfLocals(NO_TRAIL, started, locals);
  }

  lemma LoopLeaves(t: Thread, verdicts: seq<Verdict>, maxRetries: nat)
    requires AtHead(t, 1, [], maxRetries) && Feasible(verdicts, maxRetries)
    ensures
      var (locals, status) := (LoopSteps(1, verdicts) + [Leave], CompletionOf(verdicts[|verdicts| - 1]));
      var left := LocalsNext(t, locals, 0.0);
      && left.live == RunAfter(verdicts) && !left.unannounced && left.pc == Persisting(status, 0, false) && PlainLocals(locals)
      && LocalsTrail(NO_TRAIL, t, locals, 0.0) == Trail(verdicts, Positions(0, |verdicts|), Some(Departure(status, false)))
  {
    var loop := LoopSteps(1, verdicts);
    LoopRuns(t, [], verdicts, maxRetries, NO_TRAIL);
    assert [] + verdicts == verdicts && [] + Positions(0, |verdicts|) == Positions(0, |verdicts|);
    LocalsNextConcat(t, loop, [Leave], 0.0, NO_TRAIL);
    LeaveRuns(LocalsNext(t, loop, 0.0), LocalsTrail(NO_TRAIL, t, loop, 0.0));
    LoopStepsArePlain(1, verdicts);
    PlainJoined(loop, [Leave]);
  }

  /** The trail of the whole execution. */
  lemma DecidedTrail(verdicts: seq<Verdict>, maxRetries: nat)
    requires Feasible(verdicts, maxRetries)
    ensures
      var (s, steps) := (Initial({MANAGER}), DecidedSteps(verdicts, maxRetries));
      && TrailOf(NO_TRAIL, s, steps, RUN) ==
           Trail(verdicts, Positions(0, |verdicts|), Some(Departure(CompletionOf(verdicts[|verdicts| - 1]), false)))
      && PlainRun(s, steps, RUN) && !Handled(s, steps, RUN)
  {
    var (s, starting, locals) := (Initial({MANAGER}), StartSteps(maxRetries), Locals(LoopSteps(1, verdicts) + [Leave]));
    StartRuns(maxRetries);
    LoopState(verdicts, maxRetries);
    var started := Execute(s, starting);
    var looped := Execute(started, locals);
    FinishRuns(looped, TrailOf(NO_TRAIL, started, locals, RUN));
    TrailConcat(NO_TRAIL, started, locals, FINISH);
    TrailConcat(NO_TRAIL, s, starting, locals + FINISH);
  }

  /** For every orderly sequence of decisions within the limit there is an execution that reaches exactly these, gives each
      its own retry with the status decided, and records the status of the last one. */
  lemma EveryDecisionIsReached(verdicts: seq<Verdict>, maxRetries: nat)
    requires Feasible(verdicts, maxRetries)
    ensures
      var steps := DecidedSteps(verdicts, maxRetries);
      var s := Execute(Initial({MANAGER}), steps);
      && Concluded({MANAGER}, steps, RUN) && TrailOf(NO_TRAIL, Initial({MANAGER}), steps, RUN).judged == verdicts
      && s.threads[RUN].live.status == CompletionOf(verdicts[|verdicts| - 1])
      && RUN in s.durable && s.durable[RUN] == Known(s.threads[RUN].live.status)
      && |s.threads[RUN].live.retries| == |verdicts|
      && forall k :: 0 <= k < |verdicts| ==>
           s.threads[RUN].live.retries[k].closed && s.threads[RUN].live.retries[k].status == verdicts[k].retryStatus
  {
    var (s, starting, locals) := (Initial({MANAGER}), StartSteps(maxRetries), Locals(LoopSteps(1, verdicts) + [Leave]));
    LoopState(verdicts, maxRetries);
    DecidedTrail(verdicts, maxRetries);
    ExecuteConcat(s, starting, locals + FINISH);
    ExecuteConcat(Execute(s, starting), locals, FINISH);
    FinishState(Execute(Execute(s, starting), locals));
  }

  function VerdictsOf(decisions: seq<ScheduledRun.Decision>): (verdicts: seq<Verdict>)
    ensures |verdicts| == |decisions| && forall k :: 0 <= k < |decisions| ==> verdicts[k] == VerdictOf(decisions[k])
  {
    seq(|decisions|, k requires 0 <= k < |decisions| => VerdictOf(decisions[k]))
  }

  lemma RoundsAreFeasible(slot: Policy.Slot, stats: Policy.DailyStats, outcomes: seq<ScheduledRun.Outcome>, maxRetries: nat)
    requires maxRetries >= 1
    requires
      var rounds := ScheduledRun.RunOf(slot, stats, outcomes, maxRetries);
      rounds != [] && !rounds[|rounds| - 1].decision.continueRetry
    ensures Feasible(VerdictsOf(ScheduledRun.Decisions(ScheduledRun.RunOf(slot, stats, outcomes, maxRetries))), maxRetries)
  {
    var rounds := ScheduledRun.RunOf(slot, stats, outcomes, maxRetries);
    forall k | 0 <= k < |rounds| ensures rounds[k].decision.continueRetry <==> k < |rounds| - 1 {
      if k < |rounds| - 1 { ScheduledRun.NotLastGoesOn(slot, ScheduledRun.Begin(slot, stats), outcomes, 1, maxRetries, k); }
    }
    if |rounds| > 1 { ScheduledRun.RunGoesOn(slot, stats, outcomes, maxRetries, |rounds| - 2); }
  }

  /** Every scheduled run whose last decision ends it is that of an execution, and recorded with the status that decision
      gives it. */
  lemma ScheduledRunIsReached(slot: Policy.Slot, stats: Policy.DailyStats, outcomes: seq<ScheduledRun.Outcome>, maxRetries: nat)
    requires maxRetries >= 1
    requires
      var rounds := ScheduledRun.RunOf(slot, stats, outcomes, maxRetries);
      rounds != [] && !rounds[|rounds| - 1].decision.continueRetry
    ensures
      var decisions := ScheduledRun.Decisions(ScheduledRun.RunOf(slot, stats, outcomes, maxRetries));
      var steps := DecidedSteps(VerdictsOf(decisions), maxRetries);
      && Concluded({MANAGER}, steps, RUN) && Reaches({MANAGER}, steps, RUN, decisions)
      && Execute(Initial({MANAGER}), steps).threads[RUN].live.status == CompletionOf(VerdictOf(decisions[|decisions| - 1]))
  {
    RoundsAreFeasible(slot, stats, outcomes, maxRetries);
    EveryDecisionIsReached(VerdictsOf(ScheduledRun.Decisions(ScheduledRun.RunOf(slot, stats, outcomes, maxRetries))), maxRetries);
  }
}
