/** The scheduler's durable state: daily counters per schedule, game day and task, and the slots already triggered. */
module SchedulerState {
  import opened Policy

  datatype Trigger = Trigger(scheduleId: string, entryId: string, gameDay: string, runId: string)

  /** One more run of a task. */
  function Counted(stats: TaskStats, status: TaskStatus): TaskStats {
    TaskStats(stats.successes + (if status == Succeeded then 1 else 0), stats.runs + 1)
  }

  /** The counters of a day after one retry has been recorded for these tasks. */
  function Recorded(stats: DailyStats, taskIds: set<string>, statuses: Statuses): DailyStats {
    map id | id in stats.Keys + taskIds ::
      if id in taskIds
      then Counted(StatsOf(stats, id), StatusOf(statuses, id)) else stats[id]
  }

  /** A retry adds one run to each of its tasks and one success to those that succeeded, and leaves the others alone. */
  lemma RecordedExactly(stats: DailyStats, taskIds: set<string>, statuses: Statuses, id: string)
    ensures
      var (before, after) := (StatsOf(stats, id), StatsOf(Recorded(stats, taskIds, statuses), id));
      && after.runs == before.runs + (if id in taskIds then 1 else 0)
      && after.successes == before.successes + (if id in taskIds && id in statuses && statuses[id] == Succeeded then 1 else 0)
  {
  }

  function IdSet(ids: seq<string>): set<string> {
    set id | id in ids
  }

  /** `values[-limit:]`: a limit of 0 keeps everything, a negative one drops from the front. */
  function LastItems<T>(values: seq<T>, limit: int): seq<T> {
    if limit > 0 then (if |values| <= limit then values else values[|values| - limit..])
    else if |values| <= -limit then []
    else values[-limit..]
  }

  predicate SameSlot(trigger: Trigger, scheduleId: string, entryId: string, gameDay: string) {
    trigger.scheduleId == scheduleId && trigger.entryId == entryId && trigger.gameDay == gameDay
  }

  predicate Triggered(triggers: seq<Trigger>, scheduleId: string, entryId: string, gameDay: string) {
    exists t :: t in triggers && SameSlot(t, scheduleId, entryId, gameDay)
  }

  /** A slot has been triggered exactly if some record carries its schedule, its entry and its day. */
  lemma TriggeredExactly(triggers: seq<Trigger>, scheduleId: string, entryId: string, gameDay: string)
    ensures Triggered(triggers, scheduleId, entryId, gameDay) <==> exists i ::
      0 <= i < |triggers| && triggers[i] == Trigger(scheduleId, entryId, gameDay, triggers[i].runId)
  {
    if i :| 0 <= i < |triggers| && triggers[i] == Trigger(scheduleId, entryId, gameDay, triggers[i].runId) {
      assert triggers[i] in triggers && SameSlot(triggers[i], scheduleId, entryId, gameDay);
    }
  }

  ghost predicate TriggeredOnce(triggers: seq<Trigger>) {
    forall i, j :: 0 <= i < j < |triggers| ==> !SameSlot(triggers[i], triggers[j].scheduleId, triggers[j].entryId, triggers[j].gameDay)
  }

  function Marked(triggers: seq<Trigger>, trigger: Trigger, limit: int): seq<Trigger> {
    if Triggered(triggers, trigger.scheduleId, trigger.entryId, trigger.gameDay) then triggers
    else LastItems(triggers + [trigger], limit)
  }

  /** A marked slot is known as triggered, unless a negative limit has dropped the new record at once;
      the limit bounds the records only when it is positive; no slot is ever recorded twice. */
  lemma MarkedIsTriggered(triggers: seq<Trigger>, trigger: Trigger, limit: int)
    requires TriggeredOnce(triggers)
    ensures
      var after := Marked(triggers, trigger, limit);
      && TriggeredOnce(after)
      && (Triggered(after, trigger.scheduleId, trigger.entryId, trigger.gameDay) <==>
            || Triggered(triggers, trigger.scheduleId, trigger.entryId, trigger.gameDay)
            || limit >= 0 || -limit <= |triggers|)
      && (limit > 0 && |triggers| <= limit ==> |after| <= limit)
      && (limit == 0 && !Triggered(triggers, trigger.scheduleId, trigger.entryId, trigger.gameDay) ==> |after| == |triggers| + 1)
  {
    var all := triggers + [trigger];
    var after := Marked(triggers, trigger, limit);
    if !Triggered(triggers, trigger.scheduleId, trigger.entryId, trigger.gameDay) {
      assert forall i :: 0 <= i < |triggers| ==> triggers[i] in triggers;
      if after != [] {
        assert after[|after| - 1] == trigger && trigger in after;
        assert SameSlot(trigger, trigger.scheduleId, trigger.entryId, trigger.gameDay);
      }
    }
  }

  function StatsIn(schedules: map<string, map<string, DailyStats>>, scheduleId: string, gameDay: string): DailyStats {
    if scheduleId in schedules && gameDay in schedules[scheduleId] then schedules[scheduleId][gameDay] else map[]
  }

  lemma WrittenDay(schedules: map<string, map<string, DailyStats>>, scheduleId: string, gameDay: string, tasks: DailyStats)
    ensures
      var days: map<string, DailyStats> := if scheduleId in schedules then schedules[scheduleId] else map[];
      var written := schedules[scheduleId := days[gameDay := tasks]];
      && StatsIn(written, scheduleId, gameDay) == tasks
      && forall s, d :: s != scheduleId || d != gameDay ==> StatsIn(written, s, d) == StatsIn(schedules, s, d)
  {
  }

  class SchedulerStateStore {
    const maxTriggerRecords: int
    var schedules: map<string, map<string, DailyStats>>
    var triggers: seq<Trigger>

    constructor (maxTriggerRecords: int)
      ensures schedules == map[] && triggers == [] && this.maxTriggerRecords == maxTriggerRecords
    {
      this.maxTriggerRecords := maxTriggerRecords;
      schedules, triggers := map[], [];
    }

    function StatsFor(scheduleId: string, gameDay: string): DailyStats
      reads this
    {
      StatsIn(schedules, scheduleId, gameDay)
    }

    /** Read after write, and nothing else changes. */
    method UpdateDailyStats(scheduleId: string, gameDay: string, taskIds: seq<string>, statuses: Statuses)
      requires forall i, j :: 0 <= i < j < |taskIds| ==> taskIds[i] != taskIds[j]
      modifies this`schedules
      ensures StatsFor(scheduleId, gameDay) == Recorded(old(StatsFor(scheduleId, gameDay)), IdSet(taskIds), statuses)
      ensures forall s, d :: s != scheduleId || d != gameDay ==> StatsIn(schedules, s, d) == StatsIn(old(schedules), s, d)
    {
      var days: map<string, DailyStats> := if scheduleId in schedules then schedules[scheduleId] else map[];
      var tasks: DailyStats := if gameDay in days then days[gameDay] else map[];
      ghost var before := tasks;
      for i := 0 to |taskIds|
        invariant schedules == old(schedules) && tasks == Recorded(before, IdSet(taskIds[..i]), statuses)
      {
        RecordedStep(before, taskIds, i, statuses);
        tasks := tasks[taskIds[i] := Counted(StatsOf(tasks, taskIds[i]), StatusOf(statuses, taskIds[i]))];
      }
      assert taskIds[..|taskIds|] == taskIds;
      WrittenDay(schedules, scheduleId, gameDay, tasks);
      schedules := schedules[scheduleId := days[gameDay := tasks]];
    }

    method AlreadyTriggered(scheduleId: string, entryId: string, gameDay: string) returns (triggered: bool)
      ensures triggered <==> Triggered(triggers, scheduleId, entryId, gameDay)
    {
      for i := 0 to |triggers|
        invariant forall k :: 0 <= k < i ==> !SameSlot(triggers[k], scheduleId, entryId, gameDay)
      {
        if SameSlot(triggers[i], scheduleId, entryId, gameDay) { return true; }
      }
      return false;
    }

    method MarkTriggered(trigger: Trigger)
      modifies this`triggers
      ensures triggers == Marked(old(triggers), trigger, maxTriggerRecords)
    {
      var already := AlreadyTriggered(trigger.scheduleId, trigger.entryId, trigger.gameDay);
      if already { return; }
      triggers := LastItems(triggers + [trigger], maxTriggerRecords);
    }
  }

  lemma RecordedStep(stats: DailyStats, taskIds: seq<string>, i: nat, statuses: Statuses)
    requires i < |taskIds| && (forall j :: 0 <= j < i ==> taskIds[j] != taskIds[i])
    ensures
      var id := taskIds[i];
      var before := Recorded(stats, IdSet(taskIds[..i]), statuses);
      && Recorded(stats, IdSet(taskIds[..i + 1]), statuses) ==
           before[id := Counted(StatsOf(stats, id), StatusOf(statuses, id))]
      && StatsOf(before, id) == StatsOf(stats, id)
  {
  }
}
