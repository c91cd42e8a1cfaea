/** One scheduled run from slot to final status: what each retry plans, and what is counted for the day. */
module ScheduledRun {
  import opened Wrappers
  import opened Policy
  import opened SchedulerState

  /** What the process and the log of one retry come to; `stopped` says that the process was stopped, or a stop had been
      requested when the callback looked, and `late` that one has been requested since. */
  datatype Outcome = Outcome(returnedZero: bool, stopped: bool, timedOut: bool, statuses: Statuses, late: bool)

  datatype RetryStatus = RetrySucceeded | RetryFailed | RetryStopped

  /** The run before its next retry: the ids planned for it, and what the run has achieved. */
  datatype Progress = Progress(plan: seq<string>, succeeded: set<string>, stats: DailyStats)

  datatype Decision = Decision(retryStatus: RetryStatus, runStatus: Option<FinalStatus>, continueRetry: bool, next: seq<string>)

  /** The collector answers for exactly the planned ids. */
  function Reported(plan: seq<string>, outcome: Outcome): Statuses {
    map id | id in plan :: StatusOf(outcome.statuses, id)
  }

  function Successes(statuses: Statuses): set<string> {
    set id | id in statuses && statuses[id] == Succeeded
  }

  function RetryStatusOf(outcome: Outcome, statuses: Statuses): RetryStatus {
    if outcome.timedOut then RetryFailed
    else if outcome.stopped then RetryStopped
    else if outcome.returnedZero && forall id :: id in statuses ==> statuses[id] == Succeeded then RetrySucceeded
    else RetryFailed
  }

  predicate Known(slot: Slot, id: string) {
    exists p :: p in slot.policies && p.id == id
  }

  /** The planned tasks the log mentioned; a task it never mentioned is not counted at all. */
  function CountedIds(slot: Slot, statuses: Statuses): set<string> {
    set id | id in statuses && statuses[id] != Missing && Known(slot, id)
  }

  function StatsAfter(stats: DailyStats, slot: Slot, statuses: Statuses): DailyStats {
    Recorded(stats, CountedIds(slot, statuses), statuses)
  }

  /** What the callback decides about a retry. */
  function Evaluate(slot: Slot, before: Progress, outcome: Outcome, round: nat, maxRetries: nat): (Progress, Decision) {
    var statuses := Reported(before.plan, outcome);
    var retryStatus := RetryStatusOf(outcome, statuses);
    var succeeded := before.succeeded + Successes(statuses);
    var stats := StatsAfter(before.stats, slot, statuses);
    var next := if retryStatus == RetryStopped then [] else RetryTaskIds(slot, stats, statuses, succeeded);
    var willRetry := next != [] && round < maxRetries;
    var runStatus :=
      if retryStatus == RetryStopped then Some(FinalStopped)
      else if next == [] then Some(Worth(slot, stats, statuses, succeeded))
      else if !willRetry then Some(FinalFailed)
      else None;
    (Progress(next, succeeded, stats), Decision(retryStatus, runStatus, willRetry, next))
  }

  /** The manager looks at the stop itself, and has the last word. */
  predicate Overruled(outcome: Outcome) {
    outcome.stopped || outcome.late
  }

  function Overruling(decision: Decision, overruled: bool): Decision {
    if overruled then Decision(RetryStopped, Some(FinalStopped), false, decision.next) else decision
  }

  /** What becomes of a retry: the callback's decision, unless the manager overrules it. */
  function Judged(slot: Slot, before: Progress, outcome: Outcome, round: nat, maxRetries: nat): (Progress, Decision) {
    var (after, decision) := Evaluate(slot, before, outcome, round, maxRetries);
    (after, Overruling(decision, Overruled(outcome)))
  }

  function Begin(slot: Slot, stats: DailyStats): Progress {
    Progress(Selected(slot.policies, slot.entry, stats), {}, stats)
  }

  /** One evaluated retry. */
  datatype Round = Round(before: Progress, outcome: Outcome, after: Progress, decision: Decision)

  /** The rounds of a run for as long as its decisions go on and outcomes arrive. */
  function Rounds(slot: Slot, start: Progress, outcomes: seq<Outcome>, round: nat, maxRetries: nat): seq<Round>
    decreases |outcomes|
  {
    if outcomes == [] then []
    else
      var (after, decision) := Judged(slot, start, outcomes[0], round, maxRetries);
      [Round(start, outcomes[0], after, decision)] +
        if decision.continueRetry then Rounds(slot, after, outcomes[1..], round + 1, maxRetries) else []
  }

  function RunOf(slot: Slot, stats: DailyStats, outcomes: seq<Outcome>, maxRetries: nat): seq<Round> {
    if Selected(slot.policies, slot.entry, stats) == [] then [] else Rounds(slot, Begin(slot, stats), outcomes, 1, maxRetries)
  }

  function Last(start: Progress, rounds: seq<Round>): Progress {
    if rounds == [] then start else rounds[|rounds| - 1].after
  }

  /** Round by round: each outcome is judged with its number and the progress so far, and there is a next round exactly if
      the decision goes on and there is another outcome. */
  lemma {:induction false} RoundsExactly(slot: Slot, start: Progress, outcomes: seq<Outcome>, round: nat, maxRetries: nat, i: nat)
    ensures
      var rounds := Rounds(slot, start, outcomes, round, maxRetries);
      && |rounds| <= |outcomes| && (outcomes != [] ==> rounds != [] && rounds[0].before == start)
      && (i < |rounds| ==>
            && rounds[i].outcome == outcomes[i]
            && (rounds[i].after, rounds[i].decision) == Judged(slot, rounds[i].before, outcomes[i], round + i, maxRetries)
            && (i + 1 < |rounds| <==> rounds[i].decision.continueRetry && i + 1 < |outcomes|)
            && (i + 1 < |rounds| ==> rounds[i + 1].before == rounds[i].after))
    decreases |outcomes|
  {
    if outcomes != [] {
      var (after, decision) := Judged(slot, start, outcomes[0], round, maxRetries);
      if decision.continueRetry {
        RoundsExactly(slot, after, outcomes[1..], round + 1, maxRetries, if i == 0 then 0 else i - 1);
      }
    }
  }

  /** What the callback makes of a retry: a success exactly if the process returned 0, was neither stopped nor timed out, and
      the log says that every planned task succeeded; stopped exactly if it was stopped and not timed out. */
  lemma RetryStatusExactly(plan: seq<string>, outcome: Outcome)
    ensures
      var status := RetryStatusOf(outcome, Reported(plan, outcome));
      && (status == RetrySucceeded <==>
            && outcome.returnedZero && !outcome.stopped && !outcome.timedOut
            && forall id :: id in plan ==> id in outcome.statuses && outcome.statuses[id] == Succeeded)
      && (status == RetryStopped <==> outcome.stopped && !outcome.timedOut)
  {
    var statuses := Reported(plan, outcome);
    assert forall id :: id in plan ==> id in statuses && statuses[id] == StatusOf(outcome.statuses, id);
  }

  /** What is counted for the day: a run for every planned task of a policy that the log mentions, a success for those that
      succeeded. */
  lemma CountedExactly(stats: DailyStats, slot: Slot, plan: seq<string>, outcome: Outcome, id: string)
    ensures
      var (before, after) := (StatsOf(stats, id), StatsOf(StatsAfter(stats, slot, Reported(plan, outcome)), id));
      var mentioned := id in plan && (exists p :: p in slot.policies && p.id == id) && id in outcome.statuses && outcome.statuses[id] != Missing;
      && after.runs == before.runs + (if mentioned then 1 else 0)
      && after.successes == before.successes + (if mentioned && outcome.statuses[id] == Succeeded then 1 else 0)
  {
    var statuses := Reported(plan, outcome);
    RecordedExactly(stats, CountedIds(slot, statuses), statuses, id);
  }

  // ---------------------------------------------------------------------------
  // The plan only shrinks
  // ---------------------------------------------------------------------------

  /** No policy asks for this task to run again once it has succeeded. */
  ghost predicate Ordinary(slot: Slot, id: string) {
    forall p :: p in slot.policies && p.id == id ==> !p.retryEvenSuccess
  }

  /** Nothing in the rest of the run can make the policy a retry cause while its task is not planned. */
  predicate Settled(policy: TaskPolicy, slot: Slot, progress: Progress) {
    || policy.id !in slot.entry.taskIds || !policy.important
    || policy.id in progress.succeeded
    || (!policy.unlimitedRuns && !Pressing(policy, slot, progress.stats))
  }

  /** The task is planned unless it is settled, and not planned once it has succeeded. */
  ghost predicate PlanOk(slot: Slot, progress: Progress, id: string) {
    && (id !in progress.plan ==> forall p :: p in slot.policies && p.id == id ==> Settled(p, slot, progress))
    && (id in progress.succeeded ==> id !in progress.plan)
  }

  lemma BeginPlanOk(slot: Slot, stats: DailyStats, id: string)
    ensures PlanOk(slot, Begin(slot, stats), id)
  {
  }

  /** Counting never lowers a task's successes, and raises those of a known task that succeeded. */
  lemma CountedStats(stats: DailyStats, slot: Slot, statuses: Statuses, id: string)
    ensures StatsOf(StatsAfter(stats, slot, statuses), id).successes ==
      StatsOf(stats, id).successes + if id in Successes(statuses) && Known(slot, id) then 1 else 0
  {
  }

  lemma SettledStays(policy: TaskPolicy, slot: Slot, before: Progress, after: Progress)
    requires Settled(policy, slot, before) && before.succeeded <= after.succeeded
    requires StatsOf(before.stats, policy.id).successes <= StatsOf(after.stats, policy.id).successes
    ensures Settled(policy, slot, after)
  {
  }

  /** A policy that is not a cause after a retry is settled, and one settled without being planned is no cause. */
  lemma SettledAgainstCause(policy: TaskPolicy, slot: Slot, before: Progress, outcome: Outcome)
    ensures
      var statuses := Reported(before.plan, outcome);
      var succeeded := before.succeeded + Successes(statuses);
      var stats := StatsAfter(before.stats, slot, statuses);
      && (!IsRetryCause(policy, slot, stats, statuses, succeeded) ==> Settled(policy, slot, Progress([], succeeded, stats)))
      && (policy.id !in before.plan && Settled(policy, slot, before) ==> !IsRetryCause(policy, slot, stats, statuses, succeeded))
  {
  }

  /** What an ordinary task needs to be planned again. */
  lemma PlannedIsCause(slot: Slot, stats: DailyStats, statuses: Statuses, succeeded: set<string>, id: string)
    requires Ordinary(slot, id)
    ensures id in RetryTaskIds(slot, stats, statuses, succeeded) <==> id in Causes(slot, stats, statuses, succeeded)
  {
  }

  lemma EvaluatePlans(slot: Slot, before: Progress, outcome: Outcome, round: nat, maxRetries: nat, id: string)
    requires PlanOk(slot, before, id) && Ordinary(slot, id)
    ensures
      var after := Judged(slot, before, outcome, round, maxRetries).0;
      && (id in after.plan ==> id in before.plan && id !in after.succeeded)
      && (!Overruled(outcome) ==>
           id !in after.plan ==> forall p :: p in slot.policies && p.id == id ==> Settled(p, slot, after))
  {
    var statuses := Reported(before.plan, outcome);
    var succeeded := before.succeeded + Successes(statuses);
    var stats := StatsAfter(before.stats, slot, statuses);
    PlannedIsCause(slot, stats, statuses, succeeded, id);
    var after := Judged(slot, before, outcome, round, maxRetries).0;
    forall p | p in slot.policies && p.id == id
      ensures IsRetryCause(p, slot, stats, statuses, succeeded) ==> id in before.plan && id !in succeeded
      ensures !IsRetryCause(p, slot, stats, statuses, succeeded) ==> Settled(p, slot, after)
    {
      SettledAgainstCause(p, slot, before, outcome);
    }
  }

  lemma EvaluateKeepsPlanOk(slot: Slot, before: Progress, outcome: Outcome, round: nat, maxRetries: nat, id: string)
    requires PlanOk(slot, before, id) && Ordinary(slot, id)
    requires Judged(slot, before, outcome, round, maxRetries).1.continueRetry
    ensures PlanOk(slot, Judged(slot, before, outcome, round, maxRetries).0, id)
  {
  }

  /** A task planned after the round was planned for it, and has not succeeded by its end. */
  predicate PlansOnlyUndone(r: Round, id: string) {
    id in r.after.plan ==> id in r.before.plan && id !in r.after.succeeded
  }

  predicate Chained(rounds: seq<Round>) {
    forall k :: 0 <= k < |rounds| - 1 ==> rounds[k + 1].before == rounds[k].after
  }

  lemma {:induction false} RoundsChain(slot: Slot, start: Progress, outcomes: seq<Outcome>, round: nat, maxRetries: nat)
    ensures
      var rounds := Rounds(slot, start, outcomes, round, maxRetries);
      Chained(rounds) && (rounds != [] ==> rounds[0].before == start)
    decreases |outcomes|
  {
    if outcomes != [] {
      RoundsChain(slot, Judged(slot, start, outcomes[0], round, maxRetries).0, outcomes[1..], round + 1, maxRetries);
    }
  }

  lemma {:induction false} RoundPlans(slot: Slot, start: Progress, outcomes: seq<Outcome>, round: nat, maxRetries: nat, i: nat, id: string)
    requires PlanOk(slot, start, id) && Ordinary(slot, id)
    requires i < |Rounds(slot, start, outcomes, round, maxRetries)|
    ensures PlansOnlyUndone(Rounds(slot, start, outcomes, round, maxRetries)[i], id)
    decreases |outcomes|
  {
    var after := Judged(slot, start, outcomes[0], round, maxRetries).0;
    if i == 0 {
      EvaluatePlans(slot, start, outcomes[0], round, maxRetries, id);
    } else {
      LaterRound(slot, start, outcomes, round, maxRetries, i);
      EvaluateKeepsPlanOk(slot, start, outcomes[0], round, maxRetries, id);
      RoundPlans(slot, after, outcomes[1..], round + 1, maxRetries, i - 1, id);
    }
  }

  /** A round after the first is a round of the rest of the run. */
  lemma LaterRound(slot: Slot, start: Progress, outcomes: seq<Outcome>, round: nat, maxRetries: nat, i: nat)
    requires 1 <= i < |Rounds(slot, start, outcomes, round, maxRetries)|
    ensures
      var (after, decision) := Judged(slot, start, outcomes[0], round, maxRetries);
      var rest := Rounds(slot, after, outcomes[1..], round + 1, maxRetries);
      decision.continueRetry && i - 1 < |rest| && Rounds(slot, start, outcomes, round, maxRetries)[i] == rest[i - 1]
  {
  }

  lemma {:induction false} UndoneOver(rounds: seq<Round>, i: nat, j: nat, id: string)
    requires Chained(rounds) && i < j < |rounds| && id in rounds[j].before.plan
    requires forall k :: 0 <= k < |rounds| ==> PlansOnlyUndone(rounds[k], id)
    ensures id in rounds[i].before.plan && id !in rounds[i].after.succeeded
    decreases j
  {
    assert rounds[j - 1 + 1].before == rounds[j - 1].after && PlansOnlyUndone(rounds[j - 1], id);
    if j > i + 1 {
      UndoneOver(rounds, i, j - 1, id);
    }
  }

  /** From retry to retry the planned ordinary tasks only shrink, and none is planned after it has succeeded in the run. */
  lemma PlansOnlyShrink(slot: Slot, stats: DailyStats, outcomes: seq<Outcome>, maxRetries: nat, i: nat, j: nat, id: string)
    requires i < j < |RunOf(slot, stats, outcomes, maxRetries)| && Ordinary(slot, id)
    ensures
      var rounds := RunOf(slot, stats, outcomes, maxRetries);
      id in rounds[j].before.plan ==> id in rounds[i].before.plan && id !in rounds[i].after.succeeded
  {
    var rounds := RunOf(slot, stats, outcomes, maxRetries);
    BeginPlanOk(slot, stats, id);
    RoundsChain(slot, Begin(slot, stats), outcomes, 1, maxRetries);
    forall k | 0 <= k < |rounds| ensures PlansOnlyUndone(rounds[k], id) {
      RoundPlans(slot, Begin(slot, stats), outcomes, 1, maxRetries, k, id);
    }
    if id in rounds[j].before.plan {
      UndoneOver(rounds, i, j, id);
    }
  }

  /** Every retry after the first plans every enabled important task that asks to rerun, whether it has succeeded or not. */
  lemma RerunsAreAlwaysPlanned(slot: Slot, stats: DailyStats, outcomes: seq<Outcome>, maxRetries: nat, i: nat, policy: TaskPolicy)
    requires 1 <= i < |RunOf(slot, stats, outcomes, maxRetries)|
    requires policy in slot.policies && policy.important && policy.retryEvenSuccess && policy.id in slot.entry.taskIds
    ensures policy.id in RunOf(slot, stats, outcomes, maxRetries)[i].before.plan
  {
    RerunsPlannedIn(slot, Begin(slot, stats), outcomes, 1, maxRetries, i, policy);
  }

  lemma {:induction false} RerunsPlannedIn(slot: Slot, start: Progress, outcomes: seq<Outcome>, round: nat, maxRetries: nat, i: nat, policy: TaskPolicy)
    requires 1 <= i < |Rounds(slot, start, outcomes, round, maxRetries)|
    requires policy in slot.policies && policy.important && policy.retryEvenSuccess && policy.id in slot.entry.taskIds
    ensures policy.id in Rounds(slot, start, outcomes, round, maxRetries)[i].before.plan
    decreases |outcomes|
  {
    var (after, decision) := Judged(slot, start, outcomes[0], round, maxRetries);
    LaterRound(slot, start, outcomes, round, maxRetries, i);
    if i > 1 {
      RerunsPlannedIn(slot, after, outcomes[1..], round + 1, maxRetries, i - 1, policy);
    } else {
      RerunIsNext(slot, start, outcomes[0], round, maxRetries, policy);
      FirstRound(slot, after, outcomes[1..], round + 1, maxRetries);
    }
  }

  lemma RerunIsNext(slot: Slot, before: Progress, outcome: Outcome, round: nat, maxRetries: nat, policy: TaskPolicy)
    requires Judged(slot, before, outcome, round, maxRetries).1.continueRetry
    requires policy in slot.policies && policy.important && policy.retryEvenSuccess && policy.id in slot.entry.taskIds
    ensures policy.id in Judged(slot, before, outcome, round, maxRetries).0.plan
  {
    var statuses := Reported(before.plan, outcome);
    RetriedExactly(slot, StatsAfter(before.stats, slot, statuses), statuses, before.succeeded + Successes(statuses));
  }

  // ---------------------------------------------------------------------------
  // The end of a run
  // ---------------------------------------------------------------------------

  /** A retry is recorded as stopped, and ends the run as stopped, exactly if the manager saw a stop, whatever the callback
      made of it; and a run that is not stopped and has nothing left to retry is worth at least a soft failure. */
  lemma NothingToRetryNeverFails(slot: Slot, before: Progress, outcome: Outcome, round: nat, maxRetries: nat)
    ensures
      var (after, decision) := Judged(slot, before, outcome, round, maxRetries);
      && (decision.continueRetry <==> decision.runStatus.None?)
      && (decision.retryStatus == RetryStopped <==> Overruled(outcome))
      && (decision.runStatus == Some(FinalStopped) <==> Overruled(outcome))
      && (decision.runStatus == Some(FinalFailed) <==> !Overruled(outcome) && decision.next != [] && round >= maxRetries)
  {
    var statuses := Reported(before.plan, outcome);
    RetrySetAgreesWithFinalStatus(slot, StatsAfter(before.stats, slot, statuses), statuses, before.succeeded + Successes(statuses));
  }

  /** What the callback decides by itself: a stop ends the run as stopped and plans nothing; else the plan is what is to be
      retried, the run goes on exactly if that is something and there is room, and fails exactly if there is none. */
  lemma CallbackDecides(slot: Slot, before: Progress, outcome: Outcome, round: nat, maxRetries: nat)
    ensures
      var (after, decision) := Evaluate(slot, before, outcome, round, maxRetries);
      var statuses := Reported(before.plan, outcome);
      var stopped := outcome.stopped && !outcome.timedOut;
      && after.succeeded == before.succeeded + (set id | id in before.plan && id in outcome.statuses && outcome.statuses[id] == Succeeded)
      && after.plan == decision.next
      && decision.next == (if stopped then [] else RetryTaskIds(slot, after.stats, statuses, after.succeeded))
      && (decision.continueRetry <==> decision.next != [] && round < maxRetries)
      && (decision.runStatus == Some(FinalStopped) <==> stopped)
      && (decision.runStatus == Some(FinalFailed) <==> decision.next != [] && round >= maxRetries)
      && (decision.runStatus == None <==> decision.continueRetry)
  {
    var statuses := Reported(before.plan, outcome);
    RetrySetAgreesWithFinalStatus(slot, StatsAfter(before.stats, slot, statuses), statuses, before.succeeded + Successes(statuses));
  }

  /** A retry that was stopped and then timed out is a failure to the callback, which may plan another one or call the run
      a success; the manager records it as stopped all the same. */
  lemma TimedOutStopIsStopped(slot: Slot, before: Progress, outcome: Outcome, round: nat, maxRetries: nat)
    requires outcome.stopped && outcome.timedOut
    ensures Evaluate(slot, before, outcome, round, maxRetries).1.retryStatus == RetryFailed
    ensures Evaluate(slot, before, outcome, round, maxRetries).1.runStatus != Some(FinalStopped)
    ensures Judged(slot, before, outcome, round, maxRetries).1.runStatus == Some(FinalStopped)
  {
  }

  /** A decision either gives the run its status or goes on, and it goes on only after a failed retry and within the limit. */
  predicate EndsOrGoesOn(decision: Decision, round: nat, maxRetries: nat) {
    && (decision.continueRetry <==> decision.runStatus.None?)
    && (decision.continueRetry ==> decision.retryStatus == RetryFailed && round < maxRetries)
  }

  /** Every task is planned unless nothing can make it a retry cause. */
  ghost predicate AllSettled(slot: Slot, progress: Progress) {
    forall p :: p in slot.policies ==> p.id in progress.plan || Settled(p, slot, progress)
  }

  lemma BeginAllSettled(slot: Slot, stats: DailyStats)
    ensures AllSettled(slot, Begin(slot, stats))
  {
    forall p | p in slot.policies ensures p.id in Begin(slot, stats).plan || Settled(p, slot, Begin(slot, stats)) {
      assert SkippedFor(p, slot.entry, stats) == {} ==> p.id in Begin(slot, stats).plan;
    }
  }

  lemma JudgedAllSettled(slot: Slot, before: Progress, outcome: Outcome, round: nat, maxRetries: nat)
    requires Judged(slot, before, outcome, round, maxRetries).1.continueRetry
    ensures AllSettled(slot, Judged(slot, before, outcome, round, maxRetries).0)
  {
    var after := Judged(slot, before, outcome, round, maxRetries).0;
    var statuses := Reported(before.plan, outcome);
    forall p | p in slot.policies ensures p.id in after.plan || Settled(p, slot, after) {
      SettledAgainstCause(p, slot, before, outcome);
      assert IsRetryCause(p, slot, after.stats, statuses, after.succeeded) ==> p.id in Causes(slot, after.stats, statuses, after.succeeded);
    }
  }

  /** A run goes on only after a failed retry: if every planned task succeeded, no other one is a cause. */
  lemma GoesOnAfterFailure(slot: Slot, before: Progress, outcome: Outcome, round: nat, maxRetries: nat)
    requires AllSettled(slot, before)
    ensures EndsOrGoesOn(Judged(slot, before, outcome, round, maxRetries).1, round, maxRetries)
  {
    NothingToRetryNeverFails(slot, before, outcome, round, maxRetries);
    var statuses := Reported(before.plan, outcome);
    var (after, decision) := Judged(slot, before, outcome, round, maxRetries);
    if forall id :: id in statuses ==> statuses[id] == Succeeded {
      forall p | p in slot.policies ensures !IsRetryCause(p, slot, after.stats, statuses, after.succeeded) {
        SettledAgainstCause(p, slot, before, outcome);
      }
      assert Causes(slot, after.stats, statuses, after.succeeded) == {};
    }
  }

  lemma FirstRound(slot: Slot, start: Progress, outcomes: seq<Outcome>, round: nat, maxRetries: nat)
    requires outcomes != []
    ensures
      var (after, decision) := Judged(slot, start, outcomes[0], round, maxRetries);
      var rounds := Rounds(slot, start, outcomes, round, maxRetries);
      rounds != [] && rounds[0] == Round(start, outcomes[0], after, decision)
  {
  }

  lemma LaterSettled(slot: Slot, start: Progress, outcomes: seq<Outcome>, round: nat, maxRetries: nat, i: nat)
    requires 1 <= i < |Rounds(slot, start, outcomes, round, maxRetries)|
    ensures
      var after := Judged(slot, start, outcomes[0], round, maxRetries).0;
      var rest := Rounds(slot, after, outcomes[1..], round + 1, maxRetries);
      AllSettled(slot, after) && i - 1 < |rest| && Rounds(slot, start, outcomes, round, maxRetries)[i] == rest[i - 1]
  {
    LaterRound(slot, start, outcomes, round, maxRetries, i);
    JudgedAllSettled(slot, start, outcomes[0], round, maxRetries);
  }

  lemma {:induction false} RoundGoesOn(slot: Slot, start: Progress, outcomes: seq<Outcome>, round: nat, maxRetries: nat, i: nat)
    requires AllSettled(slot, start) && i < |Rounds(slot, start, outcomes, round, maxRetries)|
    ensures EndsOrGoesOn(Rounds(slot, start, outcomes, round, maxRetries)[i].decision, round + i, maxRetries)
    decreases |outcomes|
  {
    if i == 0 {
      FirstRound(slot, start, outcomes, round, maxRetries);
      GoesOnAfterFailure(slot, start, outcomes[0], round, maxRetries);
    } else {
      LaterSettled(slot, start, outcomes, round, maxRetries, i);
      RoundGoesOn(slot, Judged(slot, start, outcomes[0], round, maxRetries).0, outcomes[1..], round + 1, maxRetries, i - 1);
    }
  }

  lemma RunGoesOn(slot: Slot, stats: DailyStats, outcomes: seq<Outcome>, maxRetries: nat, i: nat)
    requires i < |RunOf(slot, stats, outcomes, maxRetries)|
    ensures EndsOrGoesOn(RunOf(slot, stats, outcomes, maxRetries)[i].decision, i + 1, maxRetries)
  {
    BeginAllSettled(slot, stats);
    RoundGoesOn(slot, Begin(slot, stats), outcomes, 1, maxRetries, i);
  }

  /** Every retry but the last asked for the next one. */
  lemma {:induction false} NotLastGoesOn(slot: Slot, start: Progress, outcomes: seq<Outcome>, round: nat, maxRetries: nat, i: nat)
    requires i + 1 < |Rounds(slot, start, outcomes, round, maxRetries)|
    ensures Rounds(slot, start, outcomes, round, maxRetries)[i].decision.continueRetry
    decreases |outcomes|
  {
    LaterRound(slot, start, outcomes, round, maxRetries, i + 1);
    if i == 0 {
      FirstRound(slot, start, outcomes, round, maxRetries);
    } else {
      LaterRound(slot, start, outcomes, round, maxRetries, i);
      NotLastGoesOn(slot, Judged(slot, start, outcomes[0], round, maxRetries).0, outcomes[1..], round + 1, maxRetries, i - 1);
    }
  }

  function Decisions(rounds: seq<Round>): (decisions: seq<Decision>)
    ensures |decisions| == |rounds| && forall k :: 0 <= k < |rounds| ==> decisions[k] == rounds[k].decision
  {
    seq(|rounds|, k requires 0 <= k < |rounds| => rounds[k].decision)
  }

  /** Only important tasks are retried, so a run that needed a second retry never ends as a soft failure. */
  lemma RetriesAreNeverSoft(slot: Slot, stats: DailyStats, outcomes: seq<Outcome>, maxRetries: nat, i: nat)
    requires 1 <= i < |RunOf(slot, stats, outcomes, maxRetries)|
    requires forall p, q :: p in slot.policies && q in slot.policies && p.id == q.id ==> p == q
    ensures RunOf(slot, stats, outcomes, maxRetries)[i].decision.runStatus != Some(FinalSoftFailed)
  {
    RetriedAreImportant(slot, Begin(slot, stats), outcomes, 1, maxRetries, i);
  }

  lemma {:induction false} RetriedAreImportant(slot: Slot, start: Progress, outcomes: seq<Outcome>, round: nat, maxRetries: nat, i: nat)
    requires 1 <= i < |Rounds(slot, start, outcomes, round, maxRetries)|
    requires forall p, q :: p in slot.policies && q in slot.policies && p.id == q.id ==> p == q
    ensures Rounds(slot, start, outcomes, round, maxRetries)[i].decision.runStatus != Some(FinalSoftFailed)
    decreases |outcomes|
  {
    var (after, decision) := Judged(slot, start, outcomes[0], round, maxRetries);
    var rest := Rounds(slot, after, outcomes[1..], round + 1, maxRetries);
    assert Rounds(slot, start, outcomes, round, maxRetries)[1..] == rest;
    if i > 1 {
      RetriedAreImportant(slot, after, outcomes[1..], round + 1, maxRetries, i - 1);
    } else {
      PlanIsImportant(slot, start, outcomes[0], round, maxRetries);
      ImportantPlanIsHard(slot, after, outcomes[1], round + 1, maxRetries);
    }
  }

  lemma PlanIsImportant(slot: Slot, before: Progress, outcome: Outcome, round: nat, maxRetries: nat)
    ensures
      var plan := Judged(slot, before, outcome, round, maxRetries).0.plan;
      forall id :: id in plan ==> exists p :: p in slot.policies && p.id == id && p.important
  {
  }

  lemma ImportantPlanIsHard(slot: Slot, before: Progress, outcome: Outcome, round: nat, maxRetries: nat)
    requires forall id :: id in before.plan ==> exists p :: p in slot.policies && p.id == id && p.important
    requires forall p, q :: p in slot.policies && q in slot.policies && p.id == q.id ==> p == q
    ensures Judged(slot, before, outcome, round, maxRetries).1.runStatus != Some(FinalSoftFailed)
  {
  }

  /** The day needs this task to succeed in this very slot. */
  predicate MustSucceed(policy: TaskPolicy, slot: Slot, stats: DailyStats) {
    policy.important && policy.id in slot.entry.taskIds && (policy.unlimitedRuns || Pressing(policy, slot, stats))
  }

  predicate SucceedsIn(outcome: Outcome, id: string) {
    StatusOf(outcome.statuses, id) == Succeeded
  }

  /** The retry was not stopped, every task that had to succeed did, and some unimportant selected task did not. */
  predicate FailsSoftly(slot: Slot, stats: DailyStats, outcome: Outcome) {
    && !Overruled(outcome)
    && (forall p :: p in slot.policies && MustSucceed(p, slot, stats) ==> SucceedsIn(outcome, p.id))
    && (exists p :: p in slot.policies && !p.important && SkippedFor(p, slot.entry, stats) == {} && !SucceedsIn(outcome, p.id))
  }

  /** The first retry leaves nothing to retry exactly if every task that must succeed does. */
  lemma NoCauseAtFirst(slot: Slot, stats: DailyStats, outcome: Outcome)
    requires forall p, q :: p in slot.policies && q in slot.policies && p.id == q.id ==> p == q
    ensures
      var statuses := Reported(Begin(slot, stats).plan, outcome);
      Causes(slot, StatsAfter(stats, slot, statuses), statuses, Successes(statuses)) == {} <==>
        forall p :: p in slot.policies && MustSucceed(p, slot, stats) ==> SucceedsIn(outcome, p.id)
  {
    var statuses := Reported(Begin(slot, stats).plan, outcome);
    var after := StatsAfter(stats, slot, statuses);
    forall p | p in slot.policies
      ensures IsRetryCause(p, slot, after, statuses, Successes(statuses)) <==> MustSucceed(p, slot, stats) && !SucceedsIn(outcome, p.id)
    {
      CauseAtFirst(slot, stats, outcome, p);
    }
    var causes := Causes(slot, after, statuses, Successes(statuses));
    assert forall p :: p in slot.policies && IsRetryCause(p, slot, after, statuses, Successes(statuses)) ==> p.id in causes;
  }

  lemma CauseAtFirst(slot: Slot, stats: DailyStats, outcome: Outcome, policy: TaskPolicy)
    requires policy in slot.policies
    requires forall p :: p in slot.policies && p.id == policy.id ==> p == policy
    ensures
      var statuses := Reported(Begin(slot, stats).plan, outcome);
      IsRetryCause(policy, slot, StatsAfter(stats, slot, statuses), statuses, Successes(statuses)) <==>
        MustSucceed(policy, slot, stats) && !SucceedsIn(outcome, policy.id)
  {
    var statuses := Reported(Begin(slot, stats).plan, outcome);
    CountedStats(stats, slot, statuses, policy.id);
    if MustSucceed(policy, slot, stats) {
      assert SkippedFor(policy, slot.entry, stats) == {};
      assert policy.id in Begin(slot, stats).plan;
    }
  }

  /** A run ends soft failed exactly if its first retry, which was not stopped, brought every task that had to succeed
      to success and left some unimportant selected task without; later retries never matter. */
  lemma SoftFailedExactly(slot: Slot, stats: DailyStats, outcomes: seq<Outcome>, maxRetries: nat)
    requires forall p, q :: p in slot.policies && q in slot.policies && p.id == q.id ==> p == q
    requires outcomes != [] && Selected(slot.policies, slot.entry, stats) != []
    ensures
      var rounds := RunOf(slot, stats, outcomes, maxRetries);
      rounds != [] &&
      (rounds[|rounds| - 1].decision.runStatus == Some(FinalSoftFailed) <==> FailsSoftly(slot, stats, outcomes[0]))
  {
    var rounds := RunOf(slot, stats, outcomes, maxRetries);
    var start := Begin(slot, stats);
    FirstRoundSoft(slot, stats, outcomes[0], maxRetries);
    assert rounds[0].decision == Judged(slot, start, outcomes[0], 1, maxRetries).1;
    if |rounds| > 1 {
      RetriesAreNeverSoft(slot, stats, outcomes, maxRetries, |rounds| - 1);
      assert rounds[0].decision.continueRetry;
    }
  }

  lemma LastIsSoftExactly(slot: Slot, stats: DailyStats, outcomes: seq<Outcome>, maxRetries: nat)
    requires forall p, q :: p in slot.policies && q in slot.policies && p.id == q.id ==> p == q
    requires Decisions(RunOf(slot, stats, outcomes, maxRetries)) != []
    ensures
      var decisions := Decisions(RunOf(slot, stats, outcomes, maxRetries));
      outcomes != [] && (decisions[|decisions| - 1].runStatus == Some(FinalSoftFailed) <==> FailsSoftly(slot, stats, outcomes[0]))
  {
    assert RunOf(slot, stats, outcomes, maxRetries) != [];
    SoftFailedExactly(slot, stats, outcomes, maxRetries);
  }

  lemma FirstRoundSoft(slot: Slot, stats: DailyStats, outcome: Outcome, maxRetries: nat)
    requires forall p, q :: p in slot.policies && q in slot.policies && p.id == q.id ==> p == q
    ensures
      var decision := Judged(slot, Begin(slot, stats), outcome, 1, maxRetries).1;
      decision.runStatus == Some(FinalSoftFailed) <==> FailsSoftly(slot, stats, outcome)
  {
    var statuses := Reported(Begin(slot, stats).plan, outcome);
    var after := StatsAfter(stats, slot, statuses);
    assert {} + Successes(statuses) == Successes(statuses);
    NoCauseAtFirst(slot, stats, outcome);
    RetrySetAgreesWithFinalStatus(slot, after, statuses, Successes(statuses));
    RetryTaskIdsAre(slot, after, statuses, Successes(statuses));
    SoftAtFirst(slot, stats, outcome);
  }

  lemma SoftAtFirst(slot: Slot, stats: DailyStats, outcome: Outcome)
    requires forall p, q :: p in slot.policies && q in slot.policies && p.id == q.id ==> p == q
    ensures
      var statuses := Reported(Begin(slot, stats).plan, outcome);
      (exists p :: p in slot.policies && SoftFails(p, slot, statuses)) <==>
        exists p :: p in slot.policies && !p.important && SkippedFor(p, slot.entry, stats) == {} && !SucceedsIn(outcome, p.id)
  {
    var statuses := Reported(Begin(slot, stats).plan, outcome);
    forall p | p in slot.policies
      ensures SoftFails(p, slot, statuses) <==> !p.important && SkippedFor(p, slot.entry, stats) == {} && !SucceedsIn(outcome, p.id)
    {
    }
  }

  /** A slot with an important and an unimportant task, both without a limit. */
  function TwoTasks(): Slot {
    var entry := ScheduleEntry("e", true, ["a", "b"]);
    Slot([TaskPolicy("a", true, true, 0, false), TaskPolicy("b", false, true, 0, false)], entry, [entry])
  }

  const BothFail := Outcome(false, false, false, map["a" := Failed, "b" := Failed], false)
  const ASucceeds := Outcome(true, false, false, map["a" := Succeeded], false)

  lemma BothPlanned()
    ensures Begin(TwoTasks(), map[]) == Progress(["a", "b"], {}, map[])
  {
    assert TwoTasks().policies[1..][1..] == [];
  }

  lemma OnlyARetried(stats: DailyStats, statuses: Statuses)
    requires StatusOf(statuses, "a") == Failed
    ensures RetryTaskIds(TwoTasks(), stats, statuses, {}) == ["a"]
  {
    var slot := TwoTasks();
    var a, b := slot.policies[0], slot.policies[1];
    assert IsRetryCause(a, slot, stats, statuses, {}) && !IsRetryCause(b, slot, stats, statuses, {});
    assert !RerunsOnRetry(a, slot) && !RerunsOnRetry(b, slot);
    assert forall p :: p in slot.policies <==> p == a || p == b;
    assert Causes(slot, stats, statuses, {}) == {"a"} && Reruns(slot) == {};
    assert {} + {"a"} == {"a"};
    assert slot.policies[1..] == [b] && [b][1..] == [];
    assert IdsIn([b], {"a"}) == [];
    assert IdsIn(slot.policies, {"a"}) == ["a"] + IdsIn([b], {"a"});
  }

  lemma BothFailAtFirst()
    ensures
      var (after, decision) := Judged(TwoTasks(), Begin(TwoTasks(), map[]), BothFail, 1, 2);
      decision.continueRetry && after.plan == ["a"] && after.succeeded == {}
  {
    BothPlanned();
    var statuses := Reported(["a", "b"], BothFail);
    assert "a" in ["a", "b"] && StatusOf(statuses, "a") == Failed;
    assert {} + Successes(statuses) == {};
    OnlyARetried(StatsAfter(map[], TwoTasks(), statuses), statuses);
  }

  lemma ASucceedsAlone(before: Progress)
    requires before.plan == ["a"] && before.succeeded == {}
    ensures
      var (after, decision) := Judged(TwoTasks(), before, ASucceeds, 2, 2);
      decision.runStatus == Some(FinalSucceeded) && after.succeeded == {"a"}
  {
    var slot := TwoTasks();
    var statuses := Reported(["a"], ASucceeds);
    var stats := StatsAfter(before.stats, slot, statuses);
    assert statuses == map["a" := Succeeded] && {} + Successes(statuses) == {"a"};
    var a, b := slot.policies[0], slot.policies[1];
    assert forall p :: p in slot.policies <==> p == a || p == b;
    RetryTaskIdsAre(slot, stats, statuses, {"a"});
    assert Causes(slot, stats, statuses, {"a"}) == {};
    assert !FailsRun(a, slot, stats, {"a"}) && !FailsRun(b, slot, stats, {"a"}) && !SoftFails(a, slot, statuses) && !SoftFails(b, slot, statuses);
  }

  /** An important task that failed is retried alone, and then the failure of the unimportant one is forgotten: the run
      ends succeeded though that task never did. */
  lemma SoftFailureForgotten()
    ensures
      var rounds := RunOf(TwoTasks(), map[], [BothFail, ASucceeds], 2);
      && |rounds| == 2 && rounds[0].before.plan == ["a", "b"] && rounds[1].before.plan == ["a"]
      && rounds[1].decision.runStatus == Some(FinalSucceeded) && "b" !in rounds[1].after.succeeded
  {
    var slot := TwoTasks();
    BothPlanned();
    BothFailAtFirst();
    var second := Judged(slot, Begin(slot, map[]), BothFail, 1, 2).0;
    ASucceedsAlone(second);
    assert [BothFail, ASucceeds][1..] == [ASucceeds];
    assert |Rounds(slot, second, [ASucceeds], 2, 2)| == 1;
  }
}
