/** The scheduler's task policy: what a slot starts with, what is retried, and what the run is worth. */
module Policy {

  /** The status of a task in one retry; `Missing` when the log never mentioned a planned task. */
  datatype TaskStatus = Succeeded | Failed | Stopped | Unfinished | Running | Missing

  datatype TaskPolicy = TaskPolicy(id: string, important: bool, unlimitedRuns: bool, minDailySuccesses: nat, retryEvenSuccess: bool)

  datatype ScheduleEntry = ScheduleEntry(id: string, enabled: bool, taskIds: seq<string>)

  datatype TaskStats = TaskStats(successes: int, runs: int)

  type DailyStats = map<string, TaskStats>

  type Statuses = map<string, TaskStatus>

  function StatsOf(stats: DailyStats, id: string): TaskStats {
    if id in stats then stats[id] else TaskStats(0, 0)
  }

  function StatusOf(statuses: Statuses, id: string): TaskStatus {
    if id in statuses then statuses[id] else Missing
  }

  // ---------------------------------------------------------------------------
  // Slots of the day
  // ---------------------------------------------------------------------------

  predicate IsSlot(entry: ScheduleEntry, taskId: string) {
    entry.enabled && taskId in entry.taskIds
  }

  function SlotCount(entries: seq<ScheduleEntry>, taskId: string): nat {
    if entries == [] then 0 else (if IsSlot(entries[0], taskId) then 1 else 0) + SlotCount(entries[1..], taskId)
  }

  /** The slots of a task are the enabled entries that list it. */
  lemma {:induction false} SlotsCounted(entries: seq<ScheduleEntry>, taskId: string)
    ensures SlotCount(entries, taskId) == |set i | 0 <= i < |entries| && entries[i].enabled && taskId in entries[i].taskIds|
    decreases |entries|
  {
    if entries != [] {
      SlotsCounted(entries[..|entries| - 1], taskId);
      SlotCountLast(entries, taskId);
      SlotsLast(entries, taskId);
    }
  }

  lemma SlotsLast(entries: seq<ScheduleEntry>, taskId: string)
    requires entries != []
    ensures
      var n := |entries| - 1;
      |set i | 0 <= i < |entries| && entries[i].enabled && taskId in entries[i].taskIds| ==
        |set i | 0 <= i < n && entries[..n][i].enabled && taskId in entries[..n][i].taskIds| + if IsSlot(entries[n], taskId) then 1 else 0
  {
    var n := |entries| - 1;
    var slots := set i | 0 <= i < |entries| && entries[i].enabled && taskId in entries[i].taskIds;
    var before := set i | 0 <= i < n && entries[..n][i].enabled && taskId in entries[..n][i].taskIds;
    assert slots == if IsSlot(entries[n], taskId) then before + {n} else before;
  }

  lemma {:induction false} SlotCountLast(entries: seq<ScheduleEntry>, taskId: string)
    requires entries != []
    ensures SlotCount(entries, taskId) ==
      SlotCount(entries[..|entries| - 1], taskId) + if IsSlot(entries[|entries| - 1], taskId) then 1 else 0
    decreases |entries|
  {
    if |entries| > 1 {
      SlotCountLast(entries[1..], taskId);
      assert entries[..|entries| - 1][1..] == entries[1..][..|entries| - 2];
    }
  }

  /** The first entry with this id, or the start of the day. */
  function StartIndex(entries: seq<ScheduleEntry>, id: string): (index: nat)
    ensures index <= |entries|
    ensures (exists e :: e in entries && e.id == id) ==> index < |entries| && entries[index].id == id
    ensures forall k :: 0 <= k < index ==> entries[k].id != id
  {
    if forall e :: e in entries ==> e.id != id then 0
    else if entries[0].id == id then 0
    else
      assert forall e :: e in entries ==> e == entries[0] || e in entries[1..];
      1 + StartIndex(entries[1..], id)
  }

  lemma StartsTheDay(entries: seq<ScheduleEntry>, id: string)
    requires forall e :: e in entries ==> e.id != id
    ensures StartIndex(entries, id) == 0
  {
  }

  /** The slots left for the task from the current entry on, that entry included. */
  function RemainingEnabledSlots(entries: seq<ScheduleEntry>, current: string, taskId: string): nat {
    SlotCount(entries[StartIndex(entries, current)..], taskId)
  }

  predicate DistinctIds(entries: seq<ScheduleEntry>) {
    forall i, j :: 0 <= i < j < |entries| ==> entries[i].id != entries[j].id
  }

  /** No slot of the task lies between the first entry with this entry's id and the entry itself. */
  predicate CountsFromHere(entries: seq<ScheduleEntry>, j: nat, taskId: string)
    requires j < |entries|
  {
    forall k :: StartIndex(entries, entries[j].id) <= k < j ==> !IsSlot(entries[k], taskId)
  }

  lemma SlotCountStep(entries: seq<ScheduleEntry>, j: nat, taskId: string)
    requires j < |entries|
    ensures SlotCount(entries[j..], taskId) == SlotCount(entries[j + 1..], taskId) + if IsSlot(entries[j], taskId) then 1 else 0
  {
  }

  lemma {:induction false} SlotsBetween(entries: seq<ScheduleEntry>, i: nat, j: nat, taskId: string)
    requires i <= j <= |entries|
    ensures SlotCount(entries[i..], taskId) >= SlotCount(entries[j..], taskId)
    ensures SlotCount(entries[i..], taskId) == SlotCount(entries[j..], taskId) <==> forall k :: i <= k < j ==> !IsSlot(entries[k], taskId)
    decreases j - i
  {
    if i < j {
      SlotCountStep(entries, i, taskId);
      SlotsBetween(entries, i + 1, j, taskId);
    }
  }

  lemma StartsNoLater(entries: seq<ScheduleEntry>, j: nat)
    requires j < |entries|
    ensures StartIndex(entries, entries[j].id) <= j
    ensures DistinctIds(entries) ==> StartIndex(entries, entries[j].id) == j
  {
    assert entries[j] in entries;
  }

  /** The slots counted as left are never fewer than those left from the entry on, and as many exactly if none of the
      task's slots lies between the first entry with the same id and this one. */
  lemma RemainingSlotsAt(entries: seq<ScheduleEntry>, j: nat, taskId: string)
    requires j < |entries|
    ensures RemainingEnabledSlots(entries, entries[j].id, taskId) >= SlotCount(entries[j..], taskId)
    ensures RemainingEnabledSlots(entries, entries[j].id, taskId) == SlotCount(entries[j..], taskId) <==> CountsFromHere(entries, j, taskId)
    ensures DistinctIds(entries) ==> CountsFromHere(entries, j, taskId)
  {
    StartsNoLater(entries, j);
    SlotsBetween(entries, StartIndex(entries, entries[j].id), j, taskId);
  }

  // ---------------------------------------------------------------------------
  // Initial selection
  // ---------------------------------------------------------------------------

  datatype SkipReason = NotEnabled | EnoughSuccesses | EnoughRuns

  function Remaining(policy: TaskPolicy, stats: DailyStats): nat {
    if StatsOf(stats, policy.id).successes < policy.minDailySuccesses
    then policy.minDailySuccesses - StatsOf(stats, policy.id).successes else 0
  }

  /** Why a policy is not selected, if it is not. */
  function SkippedFor(policy: TaskPolicy, entry: ScheduleEntry, stats: DailyStats): set<SkipReason> {
    if policy.id !in entry.taskIds then {NotEnabled}
    else if policy.unlimitedRuns then {}
    else if policy.important then (if Remaining(policy, stats) > 0 then {} else {EnoughSuccesses})
    else if StatsOf(stats, policy.id).runs < policy.minDailySuccesses then {}
    else {EnoughRuns}
  }

  function Selected(policies: seq<TaskPolicy>, entry: ScheduleEntry, stats: DailyStats): (ids: seq<string>)
    ensures forall id :: id in ids <==> exists p :: p in policies && p.id == id && SkippedFor(p, entry, stats) == {}
  {
    if policies == [] then []
    else
      var rest := Selected(policies[1..], entry, stats);
      assert forall p :: p in policies ==> p == policies[0] || p in policies[1..];
      if SkippedFor(policies[0], entry, stats) == {} then
        assert policies[0] in policies;
        [policies[0].id] + rest
      else rest
  }

  /** Who is left out: whoever is not enabled; an important task with a limit exactly once it has succeeded often enough; and
      an unimportant one exactly once it has run often enough, however that went. */
  lemma SkippedExactly(policy: TaskPolicy, entry: ScheduleEntry, stats: DailyStats)
    ensures
      var (skipped, counted) := (SkippedFor(policy, entry, stats), StatsOf(stats, policy.id));
      if policy.id !in entry.taskIds then skipped == {NotEnabled}
      else if policy.unlimitedRuns then skipped == {}
      else if policy.important then
        && (skipped == {EnoughSuccesses} <==> counted.successes >= policy.minDailySuccesses)
        && (skipped == {} <==> counted.successes < policy.minDailySuccesses)
      else
        && (skipped == {EnoughRuns} <==> counted.runs >= policy.minDailySuccesses)
        && (skipped == {} <==> counted.runs < policy.minDailySuccesses)
  {
  }

  /** Some policy with this id is left out for exactly this reason. */
  predicate SkippedFrom(policies: seq<TaskPolicy>, entry: ScheduleEntry, stats: DailyStats, skip: (string, SkipReason)) {
    exists p :: p in policies && p.id == skip.0 && SkippedFor(p, entry, stats) == {skip.1}
  }

  method InitialTaskSelection(policies: seq<TaskPolicy>, entry: ScheduleEntry, stats: DailyStats)
    returns (selected: seq<string>, skipped: seq<(string, SkipReason)>)
    ensures selected == Selected(policies, entry, stats)
    ensures |selected| + |skipped| == |policies|
    ensures forall s :: s in skipped ==> SkippedFrom(policies, entry, stats, s)
  {
    selected, skipped := [], [];
    var i := 0;
    while i < |policies|
      invariant 0 <= i <= |policies| && |selected| + |skipped| == i
      invariant Selected(policies, entry, stats) == selected + Selected(policies[i..], entry, stats)
      invariant forall s :: s in skipped ==> SkippedFrom(policies, entry, stats, s)
    {
      var policy := policies[i];
      assert policies[i..][0] == policy && policies[i..][1..] == policies[i + 1..];
      i := i + 1;
      if policy.id !in entry.taskIds {
        skipped := skipped + [(policy.id, NotEnabled)];
        continue;
      }
      var taskStats := StatsOf(stats, policy.id);
      if policy.important {
        if policy.unlimitedRuns || taskStats.successes < policy.minDailySuccesses {
          selected := selected + [policy.id];
        } else {
          skipped := skipped + [(policy.id, EnoughSuccesses)];
        }
        continue;
      }
      if policy.unlimitedRuns || taskStats.runs < policy.minDailySuccesses {
        selected := selected + [policy.id];
      } else {
        skipped := skipped + [(policy.id, EnoughRuns)];
      }
    }
  }

  // ---------------------------------------------------------------------------
  // Retry
  // ---------------------------------------------------------------------------

  /** Everything a retry decision looks at besides the statuses of the retry. */
  datatype Slot = Slot(policies: seq<TaskPolicy>, entry: ScheduleEntry, sortedEntries: seq<ScheduleEntry>)

  /** The failure may not wait for a later slot: too few are left for what the day still owes. */
  predicate Pressing(policy: TaskPolicy, slot: Slot, stats: DailyStats) {
    && Remaining(policy, stats) > 0
    && RemainingEnabledSlots(slot.sortedEntries, slot.entry.id, policy.id) <= Remaining(policy, stats)
  }

  /** A task that must run again: important, not done, and unlimited or pressing. */
  predicate IsRetryCause(policy: TaskPolicy, slot: Slot, stats: DailyStats, statuses: Statuses, succeeded: set<string>) {
    && policy.id in slot.entry.taskIds && policy.important
    && StatusOf(statuses, policy.id) != Succeeded
    && !(StatusOf(statuses, policy.id) == Missing && policy.id in succeeded)
    && (policy.unlimitedRuns || Pressing(policy, slot, stats))
  }

  predicate RerunsOnRetry(policy: TaskPolicy, slot: Slot) {
    policy.id in slot.entry.taskIds && policy.important && policy.retryEvenSuccess
  }

  function Causes(slot: Slot, stats: DailyStats, statuses: Statuses, succeeded: set<string>): set<string> {
    set p | p in slot.policies && IsRetryCause(p, slot, stats, statuses, succeeded) :: p.id
  }

  function Reruns(slot: Slot): set<string> {
    set p | p in slot.policies && RerunsOnRetry(p, slot) :: p.id
  }

  /** The ids of the policies that are in the set, in policy order. */
  function IdsIn(policies: seq<TaskPolicy>, ids: set<string>): (r: seq<string>)
    ensures forall id :: id in r <==> id in ids && exists p :: p in policies && p.id == id
  {
    if policies == [] then []
    else
      assert forall p :: p in policies ==> p == policies[0] || p in policies[1..];
      assert policies[0] in policies;
      (if policies[0].id in ids then [policies[0].id] else []) + IdsIn(policies[1..], ids)
  }

  function RetryTaskIds(slot: Slot, stats: DailyStats, statuses: Statuses, succeeded: set<string>): seq<string> {
    var causes := Causes(slot, stats, statuses, succeeded);
    if causes == {} then [] else IdsIn(slot.policies, Reruns(slot) + causes)
  }

  lemma RetryTaskIdsAre(slot: Slot, stats: DailyStats, statuses: Statuses, succeeded: set<string>)
    ensures
      var causes := Causes(slot, stats, statuses, succeeded);
      var ids := RetryTaskIds(slot, stats, statuses, succeeded);
      && (ids == [] <==> causes == {})
      && (forall id :: id in ids <==> causes != {} && id in Reruns(slot) + causes)
  {
  }

  /** The positions from `i` on of the policies whose ids are in the set. */
  function PositionsFrom(policies: seq<TaskPolicy>, ids: set<string>, i: nat): (positions: seq<nat>)
    ensures forall k :: 0 <= k < |positions| ==> i <= positions[k] < |policies| && policies[positions[k]].id in ids
    ensures forall j, k :: 0 <= j < k < |positions| ==> positions[j] < positions[k]
    ensures forall k :: i <= k < |policies| && policies[k].id in ids ==> k in positions
    decreases |policies| - i
  {
    if i >= |policies| then []
    else
      var rest := PositionsFrom(policies, ids, i + 1);
      if policies[i].id in ids then [i] + rest else rest
  }

  /** The list names, in order, exactly the policies at these positions. */
  predicate PicksAt(policies: seq<TaskPolicy>, list: seq<string>, positions: seq<nat>) {
    && |positions| == |list|
    && forall k :: 0 <= k < |positions| ==> positions[k] < |policies| && list[k] == policies[positions[k]].id
  }

  lemma {:induction false} PicksFrom(policies: seq<TaskPolicy>, ids: set<string>, i: nat)
    requires i <= |policies|
    ensures PicksAt(policies, IdsIn(policies[i..], ids), PositionsFrom(policies, ids, i))
    decreases |policies| - i
  {
    if i < |policies| {
      var (rest, positions) := (IdsIn(policies[i + 1..], ids), PositionsFrom(policies, ids, i + 1));
      IdsInFrom(policies, ids, i);
      PicksFrom(policies, ids, i + 1);
      PicksOneMore(policies, rest, positions, i);
    }
  }

  lemma IdsInFrom(policies: seq<TaskPolicy>, ids: set<string>, i: nat)
    requires i < |policies|
    ensures IdsIn(policies[i..], ids) ==
      if policies[i].id in ids then [policies[i].id] + IdsIn(policies[i + 1..], ids) else IdsIn(policies[i + 1..], ids)
  {
    assert policies[i..][0] == policies[i] && policies[i..][1..] == policies[i + 1..];
    assert [] + IdsIn(policies[i + 1..], ids) == IdsIn(policies[i + 1..], ids);
  }

  lemma PicksOneMore(policies: seq<TaskPolicy>, rest: seq<string>, positions: seq<nat>, i: nat)
    requires i < |policies| && PicksAt(policies, rest, positions)
    ensures PicksAt(policies, [policies[i].id] + rest, [i] + positions)
  {
  }

  /** The retry list keeps the order of the policies and has one place for each policy whose id is in it. */
  lemma RetryOrder(slot: Slot, stats: DailyStats, statuses: Statuses, succeeded: set<string>) returns (positions: seq<nat>)
    ensures
      var ids := RetryTaskIds(slot, stats, statuses, succeeded);
      && PicksAt(slot.policies, ids, positions) && (forall j, k :: 0 <= j < k < |positions| ==> positions[j] < positions[k])
      && (forall i :: 0 <= i < |slot.policies| && slot.policies[i].id in ids ==> i in positions)
  {
    var causes := Causes(slot, stats, statuses, succeeded);
    if causes == {} { return []; }
    positions := PositionsFrom(slot.policies, Reruns(slot) + causes, 0);
    assert slot.policies[0..] == slot.policies;
    PicksFrom(slot.policies, Reruns(slot) + causes, 0);
  }

  /** The day still needs this task: it is important, has not succeeded in this retry nor, unmentioned, before, and either
      has no limit or has no more slots left than successes missing. */
  predicate StillNeeded(policy: TaskPolicy, slot: Slot, stats: DailyStats, statuses: Statuses, succeeded: set<string>) {
    && policy.id in slot.entry.taskIds && policy.important
    && (if policy.id in statuses && statuses[policy.id] != Missing then statuses[policy.id] != Succeeded else policy.id !in succeeded)
    && (policy.unlimitedRuns ||
        (var missing := policy.minDailySuccesses - StatsOf(stats, policy.id).successes;
         missing > 0 && SlotCount(slot.sortedEntries[StartIndex(slot.sortedEntries, slot.entry.id)..], policy.id) <= missing))
  }

  lemma CausesExactly(slot: Slot, stats: DailyStats, statuses: Statuses, succeeded: set<string>)
    ensures forall id :: id in Causes(slot, stats, statuses, succeeded) <==>
      exists p :: p in slot.policies && p.id == id && StillNeeded(p, slot, stats, statuses, succeeded)
  {
    forall p | p in slot.policies
      ensures IsRetryCause(p, slot, stats, statuses, succeeded) <==> StillNeeded(p, slot, stats, statuses, succeeded)
    {
    }
  }

  lemma RerunsExactly(slot: Slot)
    ensures forall id :: id in Reruns(slot) <==>
      exists p :: p in slot.policies && p.id == id && p.id in slot.entry.taskIds && p.important && p.retryEvenSuccess
  {
    forall p | p in slot.policies && p.id in slot.entry.taskIds && p.important && p.retryEvenSuccess ensures p.id in Reruns(slot) {
      assert RerunsOnRetry(p, slot);
    }
  }

  /** What is retried: nothing exactly if no task is still needed; else exactly the tasks still needed and the enabled
      important ones that ask to rerun with every retry, succeeded or not. */
  lemma RetriedExactly(slot: Slot, stats: DailyStats, statuses: Statuses, succeeded: set<string>)
    ensures
      var ids := RetryTaskIds(slot, stats, statuses, succeeded);
      var needed := exists p :: p in slot.policies && StillNeeded(p, slot, stats, statuses, succeeded);
      && (ids != [] <==> needed)
      && forall id :: id in ids <==> needed && exists p :: (
            && p in slot.policies && p.id == id && p.id in slot.entry.taskIds && p.important
            && (p.retryEvenSuccess || StillNeeded(p, slot, stats, statuses, succeeded)))
  {
    CausesExactly(slot, stats, statuses, succeeded);
    RerunsExactly(slot);
    RetryTaskIdsAre(slot, stats, statuses, succeeded);
    var causes := Causes(slot, stats, statuses, succeeded);
    if p :| p in slot.policies && StillNeeded(p, slot, stats, statuses, succeeded) { assert p.id in causes; }
  }

  method RetryTasks(slot: Slot, stats: DailyStats, statuses: Statuses, succeeded: set<string>) returns (ids: seq<string>)
    ensures ids == RetryTaskIds(slot, stats, statuses, succeeded)
  {
    var causes, reruns: set<string> := {}, {};
    var i := 0;
    while i < |slot.policies|
      invariant 0 <= i <= |slot.policies|
      invariant causes == Causes(slot.(policies := slot.policies[..i]), stats, statuses, succeeded)
      invariant reruns == Reruns(slot.(policies := slot.policies[..i]))
    {
      var policy := slot.policies[i];
      assert slot.policies[..i + 1] == slot.policies[..i] + [policy];
      CausesStep(slot, i, stats, statuses, succeeded);
      i := i + 1;
      if policy.id !in slot.entry.taskIds || !policy.important { continue; }
      var status := StatusOf(statuses, policy.id);
      if policy.retryEvenSuccess {
        reruns := reruns + {policy.id};
        if status == Succeeded { continue; }
      }
      if status == Succeeded { continue; }
      if status == Missing && policy.id in succeeded { continue; }
      if policy.unlimitedRuns {
        causes := causes + {policy.id};
        continue;
      }
      var taskStats := StatsOf(stats, policy.id);
      var remaining := if policy.minDailySuccesses - taskStats.successes > 0 then policy.minDailySuccesses - taskStats.successes else 0;
      if remaining <= 0 { continue; }
      if RemainingEnabledSlots(slot.sortedEntries, slot.entry.id, policy.id) <= remaining {
        causes := causes + {policy.id};
      }
    }
    assert slot.policies[..i] == slot.policies && slot.(policies := slot.policies) == slot;
    if causes == {} { return []; }
    return IdsIn(slot.policies, reruns + causes);
  }

  lemma CausesStep(slot: Slot, i: nat, stats: DailyStats, statuses: Statuses, succeeded: set<string>)
    requires i < |slot.policies|
    ensures
      var policy := slot.policies[i];
      var (before, after) := (slot.(policies := slot.policies[..i]), slot.(policies := slot.policies[..i + 1]));
      && Causes(after, stats, statuses, succeeded) ==
           Causes(before, stats, statuses, succeeded) + (if IsRetryCause(policy, slot, stats, statuses, succeeded) then {policy.id} else {})
      && Reruns(after) == Reruns(before) + if RerunsOnRetry(policy, slot) then {policy.id} else {}
  {
  }

  // ---------------------------------------------------------------------------
  // Final status
  // ---------------------------------------------------------------------------

  datatype FinalStatus = FinalSucceeded | FinalSoftFailed | FinalFailed | FinalStopped | FinalSkipped

  /** The policy alone makes the run a failure. */
  predicate FailsRun(policy: TaskPolicy, slot: Slot, stats: DailyStats, succeeded: set<string>) {
    && policy.id in slot.entry.taskIds && policy.important && policy.id !in succeeded
    && (policy.unlimitedRuns || Pressing(policy, slot, stats))
  }

  /** The policy alone makes the run a soft failure. */
  predicate SoftFails(policy: TaskPolicy, slot: Slot, statuses: Statuses) {
    policy.id in slot.entry.taskIds && !policy.important && policy.id in statuses && statuses[policy.id] != Succeeded
  }

  method FinalStatusOf(slot: Slot, stats: DailyStats, statuses: Statuses, succeeded: set<string>) returns (status: FinalStatus)
    ensures status == FinalFailed <==> exists p :: p in slot.policies && FailsRun(p, slot, stats, succeeded)
    ensures status == FinalSoftFailed <==>
      status != FinalFailed && exists p :: p in slot.policies && SoftFails(p, slot, statuses)
    ensures status == Worth(slot, stats, statuses, succeeded)
  {
    var softFailed := false;
    var i := 0;
    while i < |slot.policies|
      invariant 0 <= i <= |slot.policies|
      invariant forall k :: 0 <= k < i ==> !FailsRun(slot.policies[k], slot, stats, succeeded)
      invariant softFailed <==> exists k :: 0 <= k < i && SoftFails(slot.policies[k], slot, statuses)
    {
      var policy := slot.policies[i];
      i := i + 1;
      if policy.id !in slot.entry.taskIds { continue; }
      var taskStats := StatsOf(stats, policy.id);
      if policy.important {
        if policy.unlimitedRuns {
          if policy.id !in succeeded {
            assert FailsRun(policy, slot, stats, succeeded);
            return FinalFailed;
          }
        } else if taskStats.successes < policy.minDailySuccesses && policy.id !in succeeded {
          var remaining := policy.minDailySuccesses - taskStats.successes;
          if RemainingEnabledSlots(slot.sortedEntries, slot.entry.id, policy.id) <= remaining {
            assert FailsRun(policy, slot, stats, succeeded);
            return FinalFailed;
          }
        }
        continue;
      }
      if policy.id in statuses && statuses[policy.id] != Succeeded { softFailed := true; }
    }
    return if softFailed then FinalSoftFailed else FinalSucceeded;
  }

  function Worth(slot: Slot, stats: DailyStats, statuses: Statuses, succeeded: set<string>): FinalStatus {
    if exists p :: p in slot.policies && FailsRun(p, slot, stats, succeeded) then FinalFailed
    else if exists p :: p in slot.policies && SoftFails(p, slot, statuses) then FinalSoftFailed
    else FinalSucceeded
  }

  /** Retry set and final status agree: the run is worth a failure exactly when some retry cause never succeeded,
      so a run with nothing to retry never ends failed. */
  lemma RetrySetAgreesWithFinalStatus(slot: Slot, stats: DailyStats, statuses: Statuses, succeeded: set<string>)
    requires forall id :: id in statuses && statuses[id] == Succeeded ==> id in succeeded
    ensures Worth(slot, stats, statuses, succeeded) == FinalFailed <==> exists id :: id in Causes(slot, stats, statuses, succeeded) && id !in succeeded
    ensures RetryTaskIds(slot, stats, statuses, succeeded) == [] ==> Worth(slot, stats, statuses, succeeded) != FinalFailed
  {
  }

  // ---------------------------------------------------------------------------
  // Manual runs
  // ---------------------------------------------------------------------------

  function NotDone(taskIds: seq<string>, done: set<string>): (rest: seq<string>)
    ensures forall id :: id in rest <==> id in taskIds && id !in done
  {
    if taskIds == [] then []
    else
      var last := taskIds[|taskIds| - 1];
      assert taskIds == taskIds[..|taskIds| - 1] + [last];
      NotDone(taskIds[..|taskIds| - 1], done) + if last in done then [] else [last]
  }

  method RetryUnfinishedTaskIds(taskIds: seq<string>, statuses: Statuses, succeeded: set<string>) returns (rest: seq<string>)
    ensures rest == NotDone(taskIds, succeeded + (set id | id in statuses && statuses[id] == Succeeded))
  {
    rest := [];
    ghost var done := succeeded + (set id | id in statuses && statuses[id] == Succeeded);
    for i := 0 to |taskIds|
      invariant rest == NotDone(taskIds[..i], done)
    {
      assert taskIds[..i + 1][..i] == taskIds[..i] && taskIds[..i + 1][i] == taskIds[i];
      if taskIds[i] in succeeded { continue; }
      if taskIds[i] in statuses && statuses[taskIds[i]] == Succeeded { continue; }
      rest := rest + [taskIds[i]];
    }
    assert taskIds[..|taskIds|] == taskIds;
  }
}
