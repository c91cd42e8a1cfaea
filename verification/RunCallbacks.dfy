/** The retry policies as the run manager calls them: what `evaluate_retry` remembers between retries. */
module RunCallbacks {
  import opened Wrappers
  import opened Policy
  import opened SchedulerState
  import opened ScheduledRun
  import ManualRun

  /** The ids in their order, each once, that belong to the set. */
  method DistinctIn(ids: seq<string>, allowed: set<string>) returns (distinct: seq<string>)
    ensures forall i, j :: 0 <= i < j < |distinct| ==> distinct[i] != distinct[j]
    ensures IdSet(distinct) == IdSet(ids) * allowed
  {
    distinct := [];
    for k := 0 to |ids|
      invariant forall i, j :: 0 <= i < j < |distinct| ==> distinct[i] != distinct[j]
      invariant forall id :: id in distinct <==> id in ids[..k] && id in allowed
    {
      if ids[k] in allowed && ids[k] !in distinct {
        distinct := distinct + [ids[k]];
      }
    }
    assert ids[..|ids|] == ids;
  }

  class ScheduledMaaRunCallbacks {
    const slot: Slot
    const scheduleId: string
    const store: SchedulerStateStore
    var runSuccessfulTaskIds: set<string>

    constructor (slot: Slot, scheduleId: string, store: SchedulerStateStore)
      ensures this.slot == slot && this.scheduleId == scheduleId && this.store == store && runSuccessfulTaskIds == {}
    {
      this.slot, this.scheduleId, this.store := slot, scheduleId, store;
      runSuccessfulTaskIds := {};
    }

    method EvaluateRetry(planned: seq<string>, outcome: Outcome, gameDay: string, round: nat, maxRetries: nat) returns (decision: Decision)
      modifies this, store`schedules
      ensures
        var before := Progress(planned, old(runSuccessfulTaskIds), old(store.StatsFor(scheduleId, gameDay)));
        (Progress(decision.next, runSuccessfulTaskIds, store.StatsFor(scheduleId, gameDay)), decision) ==
          Evaluate(slot, before, outcome, round, maxRetries)
    {
      var statuses := Reported(planned, outcome);
      var retryStatus := if outcome.returnedZero && forall id :: id in statuses ==> statuses[id] == Succeeded then RetrySucceeded else RetryFailed;
      if outcome.stopped { retryStatus := RetryStopped; }
      if outcome.timedOut { retryStatus := RetryFailed; }

      runSuccessfulTaskIds := runSuccessfulTaskIds + Successes(statuses);
      var counted := DistinctIn(planned, CountedIds(slot, statuses));
      assert IdSet(counted) == CountedIds(slot, statuses);
      store.UpdateDailyStats(scheduleId, gameDay, counted, statuses);
      var stats := store.StatsFor(scheduleId, gameDay);

      var next: seq<string> := [];
      if retryStatus != RetryStopped {
        next := RetryTasks(slot, stats, statuses, runSuccessfulTaskIds);
      }
      var willRetry := next != [] && round < maxRetries && retryStatus != RetryStopped;
      var runStatus := None;
      if retryStatus == RetryStopped {
        runStatus := Some(FinalStopped);
      } else if next == [] {
        var status := FinalStatusOf(slot, stats, statuses, runSuccessfulTaskIds);
        runStatus := Some(status);
      } else if !willRetry {
        runStatus := Some(FinalFailed);
      }
      return Decision(retryStatus, runStatus, willRetry, next);
    }
  }

  class ManualMaaRunCallbacks {
    const selectedTaskIds: seq<string>
    var runSuccessfulTaskIds: set<string>

    constructor (selectedTaskIds: seq<string>)
      ensures this.selectedTaskIds == selectedTaskIds && runSuccessfulTaskIds == {}
    {
      this.selectedTaskIds := selectedTaskIds;
      runSuccessfulTaskIds := {};
    }

    method EvaluateRetry(planned: seq<string>, outcome: Outcome, round: nat, maxRetries: nat) returns (decision: Decision)
      modifies this
      ensures
        var before := ManualRun.ManualProgress(planned, old(runSuccessfulTaskIds));
        (ManualRun.ManualProgress(decision.next, runSuccessfulTaskIds), decision) ==
          ManualRun.EvaluateManual(selectedTaskIds, before, outcome, round, maxRetries)
    {
      var statuses := Reported(planned, outcome);
      runSuccessfulTaskIds := runSuccessfulTaskIds + Successes(statuses);

      var retryStatus := if outcome.returnedZero && forall id :: id in statuses ==> statuses[id] == Succeeded then RetrySucceeded else RetryFailed;
      if outcome.stopped { retryStatus := RetryStopped; }
      if outcome.timedOut { retryStatus := RetryFailed; }

      var next: seq<string> := [];
      if retryStatus != RetryStopped {
        next := RetryUnfinishedTaskIds(selectedTaskIds, statuses, runSuccessfulTaskIds);
      }
      var willRetry := next != [] && round < maxRetries && retryStatus != RetryStopped;
      var runStatus := None;
      if retryStatus == RetryStopped {
        runStatus := Some(FinalStopped);
      } else if next == [] {
        runStatus := Some(FinalSucceeded);
      } else if !willRetry {
        runStatus := Some(FinalFailed);
      }
      return Decision(retryStatus, runStatus, willRetry, next);
    }
  }
}
