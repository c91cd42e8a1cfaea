/** A whole game day: every enabled slot runs once in order, manual runs come in between, and an important
    task with a daily minimum gets it. */
module DailyQuota {
  import opened Wrappers
  import opened Policy
  import opened SchedulerState
  import opened ScheduledRun

  /** A run started by hand on some entry. */
  datatype Extra = Extra(index: nat, outcomes: seq<Outcome>, maxRetries: nat)

  /** What happens up to and including one slot: manual runs first, then the slot's own run. */
  datatype SlotOfDay = SlotOfDay(extras: seq<Extra>, outcomes: seq<Outcome>, maxRetries: nat)

  datatype Plan = Plan(policies: seq<TaskPolicy>, entries: seq<ScheduleEntry>)

  function SlotAt(plan: Plan, j: nat): Slot
    requires j < |plan.entries|
  {
    Slot(plan.policies, plan.entries[j], plan.entries)
  }

  function FinalProgress(slot: Slot, stats: DailyStats, outcomes: seq<Outcome>, maxRetries: nat): Progress {
    Last(Begin(slot, stats), RunOf(slot, stats, outcomes, maxRetries))
  }

  function ExtrasStats(plan: Plan, stats: DailyStats, extras: seq<Extra>): DailyStats
    decreases |extras|
  {
    if extras == [] then stats
    else
      var first := extras[0];
      ExtrasStats(plan,
        if first.index < |plan.entries| then FinalProgress(SlotAt(plan, first.index), stats, first.outcomes, first.maxRetries).stats else stats,
        extras[1..])
  }

  function BeforeSlot(plan: Plan, stats: DailyStats, slot: SlotOfDay): DailyStats {
    ExtrasStats(plan, stats, slot.extras)
  }

  /** The counters after the slots from `j` on; a disabled entry has no run of its own. */
  function DayStats(plan: Plan, j: nat, stats: DailyStats, day: seq<SlotOfDay>): DailyStats
    requires |day| == |plan.entries| && j <= |day|
    decreases |day| - j
  {
    if j == |day| then stats
    else
      var before := BeforeSlot(plan, stats, day[j]);
      DayStats(plan, j + 1,
        if plan.entries[j].enabled
        then FinalProgress(SlotAt(plan, j), before, day[j].outcomes, day[j].maxRetries).stats else before,
        day)
  }

  /** In this round the policy asked for a retry. */
  predicate CauseIn(policy: TaskPolicy, slot: Slot, r: Round) {
    IsRetryCause(policy, slot, r.after.stats, Reported(r.before.plan, r.outcome), r.after.succeeded)
  }

  /** The run was neither cut short nor stopped, and if the task ever was a retry cause it succeeded in the end. */
  ghost predicate Honoured(policy: TaskPolicy, slot: Slot, stats: DailyStats, outcomes: seq<Outcome>, maxRetries: nat) {
    var rounds := RunOf(slot, stats, outcomes, maxRetries);
    policy.id in Begin(slot, stats).plan ==>
      && rounds != []
      && (forall k :: 0 <= k < |rounds| ==> rounds[k].decision.retryStatus != RetryStopped)
      && ((exists k :: 0 <= k < |rounds| && CauseIn(policy, slot, rounds[k])) ==>
            policy.id in FinalProgress(slot, stats, outcomes, maxRetries).succeeded)
  }

  // ---------------------------------------------------------------------------
  // Counters over one run
  // ---------------------------------------------------------------------------

  function SuccessesOf(stats: DailyStats, id: string): int {
    StatsOf(stats, id).successes
  }

  lemma {:induction false} RoundsCount(slot: Slot, start: Progress, outcomes: seq<Outcome>, round: nat, maxRetries: nat, id: string)
    requires Known(slot, id)
    ensures
      var end := Last(start, Rounds(slot, start, outcomes, round, maxRetries));
      && start.succeeded <= end.succeeded
      && SuccessesOf(start.stats, id) <= SuccessesOf(end.stats, id)
      && (id in end.succeeded && id !in start.succeeded ==> SuccessesOf(start.stats, id) < SuccessesOf(end.stats, id))
      && (id !in end.succeeded ==> SuccessesOf(start.stats, id) == SuccessesOf(end.stats, id))
    decreases |outcomes|
  {
    if outcomes != [] {
      var (after, decision) := Judged(slot, start, outcomes[0], round, maxRetries);
      CountedStats(start.stats, slot, Reported(start.plan, outcomes[0]), id);
      var rest := if decision.continueRetry then Rounds(slot, after, outcomes[1..], round + 1, maxRetries) else [];
      LastOfRounds(start, Round(start, outcomes[0], after, decision), rest);
      if decision.continueRetry {
        RoundsCount(slot, after, outcomes[1..], round + 1, maxRetries, id);
      }
    }
  }

  lemma LastOfRounds(start: Progress, first: Round, rest: seq<Round>)
    ensures Last(start, [first] + rest) == Last(first.after, rest)
  {
  }

  /** A day owes no more than the slots left after this one, exactly if it owed less than the slots left with it,
      or the task succeeded in the run. */
  lemma ReserveKeptExactly(policy: TaskPolicy, slot: Slot, stats: DailyStats, outcomes: seq<Outcome>, maxRetries: nat, slots: nat)
    requires policy in slot.policies && 1 <= slots && Remaining(policy, stats) <= slots
    ensures
      var end := FinalProgress(slot, stats, outcomes, maxRetries);
      && Remaining(policy, end.stats) <= Remaining(policy, stats)
      && (Remaining(policy, end.stats) <= slots - 1 <==> Remaining(policy, stats) < slots || policy.id in end.succeeded)
  {
    RoundsCount(slot, Begin(slot, stats), outcomes, 1, maxRetries, policy.id);
  }

  /** A failure that is not retried leaves enough later slots for what the day then owes. */
  lemma DeferredFailureLeavesSlots(policy: TaskPolicy, slot: Slot, stats: DailyStats, outcomes: seq<Outcome>, maxRetries: nat)
    requires policy in slot.policies && policy.important && !policy.unlimitedRuns && policy.id in slot.entry.taskIds
    requires RunOf(slot, stats, outcomes, maxRetries) != []
    requires
      var first := RunOf(slot, stats, outcomes, maxRetries)[0];
      first.decision.retryStatus != RetryStopped && !CauseIn(policy, slot, first) && policy.id !in first.after.succeeded
    ensures
      var end := FinalProgress(slot, stats, outcomes, maxRetries);
      Remaining(policy, end.stats) == 0 ||
      Remaining(policy, end.stats) < RemainingEnabledSlots(slot.sortedEntries, slot.entry.id, policy.id)
  {
    var first := RunOf(slot, stats, outcomes, maxRetries)[0];
    SuccessesAfterFirst(slot, stats, outcomes, maxRetries, policy.id);
    DeferredLeavesSlots(policy, slot, first);
  }

  /** The successes of a task do not get fewer after the first retry. */
  lemma SuccessesAfterFirst(slot: Slot, stats: DailyStats, outcomes: seq<Outcome>, maxRetries: nat, id: string)
    requires Known(slot, id) && RunOf(slot, stats, outcomes, maxRetries) != []
    ensures
      SuccessesOf(RunOf(slot, stats, outcomes, maxRetries)[0].after.stats, id) <= SuccessesOf(FinalProgress(slot, stats, outcomes, maxRetries).stats, id)
  {
    var start := Begin(slot, stats);
    var (after, decision) := Judged(slot, start, outcomes[0], 1, maxRetries);
    var rest := if decision.continueRetry then Rounds(slot, after, outcomes[1..], 2, maxRetries) else [];
    LastOfRounds(start, Round(start, outcomes[0], after, decision), rest);
    RoundsCount(slot, after, outcomes[1..], 2, maxRetries, id);
  }

  lemma DeferredLeavesSlots(policy: TaskPolicy, slot: Slot, first: Round)
    requires policy.important && !policy.unlimitedRuns && policy.id in slot.entry.taskIds
    requires !CauseIn(policy, slot, first) && policy.id !in first.after.succeeded
    requires Successes(Reported(first.before.plan, first.outcome)) <= first.after.succeeded
    ensures Remaining(policy, first.after.stats) == 0 ||
      Remaining(policy, first.after.stats) < RemainingEnabledSlots(slot.sortedEntries, slot.entry.id, policy.id)
  {
  }

  lemma SlotKeepsReserve(policy: TaskPolicy, slot: Slot, stats: DailyStats, outcomes: seq<Outcome>, maxRetries: nat)
    requires policy in slot.policies && policy.important && !policy.unlimitedRuns && policy.id in slot.entry.taskIds
    requires Honoured(policy, slot, stats, outcomes, maxRetries)
    requires
      var slots := RemainingEnabledSlots(slot.sortedEntries, slot.entry.id, policy.id);
      1 <= slots && Remaining(policy, stats) <= slots
    ensures Remaining(policy, FinalProgress(slot, stats, outcomes, maxRetries).stats) <=
      RemainingEnabledSlots(slot.sortedEntries, slot.entry.id, policy.id) - 1
  {
    var slots := RemainingEnabledSlots(slot.sortedEntries, slot.entry.id, policy.id);
    ReserveKeptExactly(policy, slot, stats, outcomes, maxRetries, slots);
    if Remaining(policy, stats) == slots {
      assert SkippedFor(policy, slot.entry, stats) == {};
      var rounds := RunOf(slot, stats, outcomes, maxRetries);
      assert policy.id in Begin(slot, stats).plan;
      if policy.id !in FinalProgress(slot, stats, outcomes, maxRetries).succeeded {
        assert !CauseIn(policy, slot, rounds[0]);
        FirstSucceeds(slot, stats, outcomes, maxRetries, policy.id);
        DeferredFailureLeavesSlots(policy, slot, stats, outcomes, maxRetries);
      }
    }
  }

  lemma FirstSucceeds(slot: Slot, stats: DailyStats, outcomes: seq<Outcome>, maxRetries: nat, id: string)
    requires RunOf(slot, stats, outcomes, maxRetries) != [] && Known(slot, id)
    ensures id in RunOf(slot, stats, outcomes, maxRetries)[0].after.succeeded ==> id in FinalProgress(slot, stats, outcomes, maxRetries).succeeded
  {
    var start := Begin(slot, stats);
    var (after, decision) := Judged(slot, start, outcomes[0], 1, maxRetries);
    var rest := if decision.continueRetry then Rounds(slot, after, outcomes[1..], 2, maxRetries) else [];
    LastOfRounds(start, Round(start, outcomes[0], after, decision), rest);
    RoundsCount(slot, after, outcomes[1..], 2, maxRetries, id);
  }

  // ---------------------------------------------------------------------------
  // The whole day
  // ---------------------------------------------------------------------------

  lemma {:induction false} ExtrasOnlyHelp(policy: TaskPolicy, plan: Plan, stats: DailyStats, extras: seq<Extra>)
    requires policy in plan.policies
    ensures Remaining(policy, ExtrasStats(plan, stats, extras)) <= Remaining(policy, stats)
    decreases |extras|
  {
    if extras != [] {
      var first := extras[0];
      if first.index < |plan.entries| {
        var slot := SlotAt(plan, first.index);
        RoundsCount(slot, Begin(slot, stats), first.outcomes, 1, first.maxRetries, policy.id);
        ExtrasOnlyHelp(policy, plan, FinalProgress(slot, stats, first.outcomes, first.maxRetries).stats, extras[1..]);
      } else {
        ExtrasOnlyHelp(policy, plan, stats, extras[1..]);
      }
    }
  }

  /** Every slot of the task from `j` on is honoured, with the counters the day has reached by then. */
  ghost predicate DayHonoured(policy: TaskPolicy, plan: Plan, j: nat, stats: DailyStats, day: seq<SlotOfDay>)
    requires |day| == |plan.entries| && j <= |day|
    decreases |day| - j
  {
    j == |day| ||
    (var before := BeforeSlot(plan, stats, day[j]);
     var after := if plan.entries[j].enabled
                  then FinalProgress(SlotAt(plan, j), before, day[j].outcomes, day[j].maxRetries).stats else before;
     && (IsSlot(plan.entries[j], policy.id) ==> Honoured(policy, SlotAt(plan, j), before, day[j].outcomes, day[j].maxRetries))
     && DayHonoured(policy, plan, j + 1, after, day))
  }

  /** The count of slots left is right at every slot of the task, as it is when no two entries share an id. */
  predicate AllCountFromHere(entries: seq<ScheduleEntry>, taskId: string) {
    forall j :: 0 <= j < |entries| && IsSlot(entries[j], taskId) ==> CountsFromHere(entries, j, taskId)
  }

  lemma RunNeverOwesMore(policy: TaskPolicy, slot: Slot, stats: DailyStats, outcomes: seq<Outcome>, maxRetries: nat)
    requires policy in slot.policies
    ensures Remaining(policy, FinalProgress(slot, stats, outcomes, maxRetries).stats) <= Remaining(policy, stats)
  {
    RoundsCount(slot, Begin(slot, stats), outcomes, 1, maxRetries, policy.id);
  }

  lemma SlotStep(policy: TaskPolicy, plan: Plan, j: nat, before: DailyStats, slot: SlotOfDay)
    requires j < |plan.entries| && plan.entries[j].enabled
    requires IsSlot(plan.entries[j], policy.id) ==> CountsFromHere(plan.entries, j, policy.id)
    requires policy in plan.policies && policy.important && !policy.unlimitedRuns
    requires IsSlot(plan.entries[j], policy.id) ==> Honoured(policy, SlotAt(plan, j), before, slot.outcomes, slot.maxRetries)
    requires Remaining(policy, before) <= SlotCount(plan.entries[j..], policy.id)
    ensures Remaining(policy, FinalProgress(SlotAt(plan, j), before, slot.outcomes, slot.maxRetries).stats) <= SlotCount(plan.entries[j + 1..], policy.id)
  {
    RemainingSlotsAt(plan.entries, j, policy.id);
    SlotCountStep(plan.entries, j, policy.id);
    if IsSlot(plan.entries[j], policy.id) {
      SlotKeepsReserve(policy, SlotAt(plan, j), before, slot.outcomes, slot.maxRetries);
    } else {
      RunNeverOwesMore(policy, SlotAt(plan, j), before, slot.outcomes, slot.maxRetries);
    }
  }

  lemma {:induction false} ReserveHolds(policy: TaskPolicy, plan: Plan, j: nat, stats: DailyStats, day: seq<SlotOfDay>)
    requires |day| == |plan.entries| && j <= |day| && AllCountFromHere(plan.entries, policy.id)
    requires policy in plan.policies && policy.important && !policy.unlimitedRuns
    requires DayHonoured(policy, plan, j, stats, day)
    requires Remaining(policy, stats) <= SlotCount(plan.entries[j..], policy.id)
    ensures Remaining(policy, DayStats(plan, j, stats, day)) == 0
    decreases |day| - j
  {
    if j < |day| {
      var before := BeforeSlot(plan, stats, day[j]);
      ExtrasOnlyHelp(policy, plan, stats, day[j].extras);
      if plan.entries[j].enabled {
        SlotStep(policy, plan, j, before, day[j]);
        ReserveHolds(policy, plan, j + 1, FinalProgress(SlotAt(plan, j), before, day[j].outcomes, day[j].maxRetries).stats, day);
      } else {
        SlotCountStep(plan.entries, j, policy.id);
        ReserveHolds(policy, plan, j + 1, before, day);
      }
    } else {
      assert plan.entries[j..] == [];
    }
  }

  /** An important task with at least as many enabled slots as its daily minimum ends the day with the minimum met,
      if every run in which it became a retry cause ended with it succeeding and no run of a slot of its was stopped. */
  lemma DailyMinimumIsMet(policy: TaskPolicy, plan: Plan, day: seq<SlotOfDay>)
    requires |day| == |plan.entries| && AllCountFromHere(plan.entries, policy.id)
    requires policy in plan.policies && policy.important && !policy.unlimitedRuns
    requires SlotCount(plan.entries, policy.id) >= policy.minDailySuccesses
    requires DayHonoured(policy, plan, 0, map[], day)
    ensures SuccessesOf(DayStats(plan, 0, map[], day), policy.id) >= policy.minDailySuccesses
  {
    assert plan.entries[0..] == plan.entries;
    ReserveHolds(policy, plan, 0, map[], day);
  }

  // ---------------------------------------------------------------------------
  // Why the hypotheses are there
  // ---------------------------------------------------------------------------

  /** One stopped run in a day with a single slot, and the day ends without the minimum though the stop made
      no retry cause. */
  lemma StoppedRunBreaksQuota()
    ensures
      var policy := TaskPolicy("t", true, false, 1, false);
      var plan := Plan([policy], [ScheduleEntry("e", true, ["t"])]);
      var day := [SlotOfDay([], [Outcome(false, true, false, map["t" := Failed], false)], 3)];
      SuccessesOf(DayStats(plan, 0, map[], day), "t") == 0
  {
  }

  // ---------------------------------------------------------------------------
  // Entries that share an id
  // ---------------------------------------------------------------------------

  /** An honoured day with slots enough that still misses the minimum. */
  ghost predicate Misses(policy: TaskPolicy, plan: Plan, day: seq<SlotOfDay>) {
    && |day| == |plan.entries| && policy in plan.policies && policy.important && !policy.unlimitedRuns
    && SlotCount(plan.entries, policy.id) >= policy.minDailySuccesses
    && DayHonoured(policy, plan, 0, map[], day)
    && SuccessesOf(DayStats(plan, 0, map[], day), policy.id) < policy.minDailySuccesses
  }

  /** One retry per slot: the task fails up to slot `j` and succeeds from then on. */
  function LapsingSlot(id: string, j: nat, k: nat): SlotOfDay {
    SlotOfDay([], [if k <= j then Outcome(false, false, false, map[id := Failed], false) else Outcome(true, false, false, map[id := Succeeded], false)], 1)
  }

  function LapsingDay(id: string, j: nat, n: nat): seq<SlotOfDay> {
    seq(n, k requires 0 <= k < n => LapsingSlot(id, j, k))
  }

  /** The only policy of the day, with as many successes wanted as there are slots from `j` on. */
  function LapsingPolicy(entries: seq<ScheduleEntry>, j: nat, id: string): TaskPolicy
    requires j < |entries|
  {
    TaskPolicy(id, true, false, SlotCount(entries[j..], id), false)
  }

  /** A run of one retry that reports the task with this status. */
  lemma OneRound(policy: TaskPolicy, slot: Slot, stats: DailyStats, outcome: Outcome)
    requires slot.policies == [policy] && policy.id in outcome.statuses
    ensures
      var rounds := RunOf(slot, stats, [outcome], 1);
      var start := Begin(slot, stats);
      if SkippedFor(policy, slot.entry, stats) != {} then start.plan == [] && FinalProgress(slot, stats, [outcome], 1).stats == stats
      else
        && start.plan == [policy.id] && |rounds| == 1
        && rounds[0] == Round(start, outcome, Judged(slot, start, outcome, 1, 1).0, Judged(slot, start, outcome, 1, 1).1)
        && Reported(start.plan, outcome) == map[policy.id := outcome.statuses[policy.id]]
  {
    var start := Begin(slot, stats);
    assert slot.policies[0] == policy && slot.policies[1..] == [] && Selected([], slot.entry, stats) == [] && [policy.id] + [] == [policy.id];
    assert start.plan == if SkippedFor(policy, slot.entry, stats) == {} then [policy.id] else [];
    if start.plan != [] {
      assert Rounds(slot, start, [outcome], 1, 1) ==
        [Round(start, outcome, Judged(slot, start, outcome, 1, 1).0, Judged(slot, start, outcome, 1, 1).1)];
    }
  }

  /** A failure the counters do not press for is honoured and adds nothing. */
  lemma FailingRun(policy: TaskPolicy, slot: Slot, stats: DailyStats)
    requires slot.policies == [policy] && policy.important && !policy.unlimitedRuns && SuccessesOf(stats, policy.id) == 0
    requires policy.id in slot.entry.taskIds ==> RemainingEnabledSlots(slot.sortedEntries, slot.entry.id, policy.id) > policy.minDailySuccesses
    ensures
      var outcomes := [Outcome(false, false, false, map[policy.id := Failed], false)];
      Honoured(policy, slot, stats, outcomes, 1) && SuccessesOf(FinalProgress(slot, stats, outcomes, 1).stats, policy.id) == 0
  {
    var outcome := Outcome(false, false, false, map[policy.id := Failed], false);
    OneRound(policy, slot, stats, outcome);
    CountedStats(stats, slot, Reported([policy.id], outcome), policy.id);
  }

  /** A success is honoured, and counts if the task is still wanted. */
  lemma SucceedingRun(policy: TaskPolicy, slot: Slot, stats: DailyStats)
    requires slot.policies == [policy] && policy.important && !policy.unlimitedRuns
    requires SuccessesOf(stats, policy.id) < policy.minDailySuccesses
    ensures
      var outcomes := [Outcome(true, false, false, map[policy.id := Succeeded], false)];
      && Honoured(policy, slot, stats, outcomes, 1)
      && SuccessesOf(FinalProgress(slot, stats, outcomes, 1).stats, policy.id) ==
           SuccessesOf(stats, policy.id) + if policy.id in slot.entry.taskIds then 1 else 0
  {
    var outcome := Outcome(true, false, false, map[policy.id := Succeeded], false);
    OneRound(policy, slot, stats, outcome);
    assert slot.policies[0] == policy && Known(slot, policy.id);
    CountedStats(stats, slot, Reported([policy.id], outcome), policy.id);
  }

  /** From this entry on the lapsing day is honoured and ends one success short. */
  ghost predicate Lapses(entries: seq<ScheduleEntry>, j: nat, id: string, k: nat, stats: DailyStats)
    requires j < |entries| && k <= |entries|
  {
    var policy := LapsingPolicy(entries, j, id);
    var plan := Plan([policy], entries);
    var day := LapsingDay(id, j, |entries|);
    && DayHonoured(policy, plan, k, stats, day)
    && SuccessesOf(DayStats(plan, k, stats, day), id) == SlotCount(entries[j..], id) - 1
  }

  function AfterEntry(entries: seq<ScheduleEntry>, j: nat, id: string, k: nat, stats: DailyStats): DailyStats
    requires k < |entries| && j < |entries|
  {
    var plan := Plan([LapsingPolicy(entries, j, id)], entries);
    if entries[k].enabled then FinalProgress(SlotAt(plan, k), stats, LapsingSlot(id, j, k).outcomes, 1).stats else stats
  }

  /** More slots are counted as left at this slot than there are. */
  predicate Overcounted(entries: seq<ScheduleEntry>, j: nat, id: string)
    requires j < |entries|
  {
    IsSlot(entries[j], id) && RemainingEnabledSlots(entries, entries[j].id, id) > SlotCount(entries[j..], id)
  }

  /** One entry of the day; no manual run comes before it. */
  lemma LapseStep(entries: seq<ScheduleEntry>, j: nat, id: string, k: nat, stats: DailyStats)
    requires k < |entries| && j < |entries| && Lapses(entries, j, id, k + 1, AfterEntry(entries, j, id, k, stats))
    requires IsSlot(entries[k], id) ==>
      Honoured(LapsingPolicy(entries, j, id), SlotAt(Plan([LapsingPolicy(entries, j, id)], entries), k), stats, LapsingSlot(id, j, k).outcomes, 1)
    ensures Lapses(entries, j, id, k, stats)
  {
    assert LapsingDay(id, j, |entries|)[k] == LapsingSlot(id, j, k);
  }

  lemma LapseEnd(entries: seq<ScheduleEntry>, j: nat, id: string, stats: DailyStats)
    requires j < |entries| && SuccessesOf(stats, id) == SlotCount(entries[j..], id) - 1
    ensures Lapses(entries, j, id, |entries|, stats)
  {
  }

  lemma {:induction false} AfterLapse(entries: seq<ScheduleEntry>, j: nat, id: string, k: nat, stats: DailyStats)
    requires j < k <= |entries| && SuccessesOf(stats, id) + SlotCount(entries[k..], id) == SlotCount(entries[j..], id) - 1
    ensures Lapses(entries, j, id, k, stats)
    decreases |entries| - k
  {
    if k < |entries| {
      SlotCountStep(entries, k, id);
      SucceedingRun(LapsingPolicy(entries, j, id), SlotAt(Plan([LapsingPolicy(entries, j, id)], entries), k), stats);
      AfterLapse(entries, j, id, k + 1, AfterEntry(entries, j, id, k, stats));
      LapseStep(entries, j, id, k, stats);
    } else {
      LapseEnd(entries, j, id, stats);
    }
  }

  lemma {:induction false} UntilLapse(entries: seq<ScheduleEntry>, j: nat, id: string, k: nat, stats: DailyStats)
    requires k <= j < |entries| && Overcounted(entries, j, id) && SuccessesOf(stats, id) == 0
    ensures Lapses(entries, j, id, k, stats)
    decreases j - k
  {
    if k < j {
      FailingStep(entries, j, id, k, stats);
      UntilLapse(entries, j, id, k + 1, AfterEntry(entries, j, id, k, stats));
      LapseStep(entries, j, id, k, stats);
    } else {
      LapseAt(entries, j, id, stats);
    }
  }

  lemma LapseAt(entries: seq<ScheduleEntry>, j: nat, id: string, stats: DailyStats)
    requires j < |entries| && Overcounted(entries, j, id) && SuccessesOf(stats, id) == 0
    ensures Lapses(entries, j, id, j, stats)
  {
    FailingStep(entries, j, id, j, stats);
    SlotCountStep(entries, j, id);
    AfterLapse(entries, j, id, j + 1, AfterEntry(entries, j, id, j, stats));
    LapseStep(entries, j, id, j, stats);
  }

  lemma FailingStep(entries: seq<ScheduleEntry>, j: nat, id: string, k: nat, stats: DailyStats)
    requires k <= j < |entries| && Overcounted(entries, j, id) && SuccessesOf(stats, id) == 0
    ensures IsSlot(entries[k], id) ==>
      Honoured(LapsingPolicy(entries, j, id), SlotAt(Plan([LapsingPolicy(entries, j, id)], entries), k), stats, LapsingSlot(id, j, k).outcomes, 1)
    ensures SuccessesOf(AfterEntry(entries, j, id, k, stats), id) == 0
  {
    if entries[k].enabled {
      var policy := LapsingPolicy(entries, j, id);
      MoreSlotsCounted(entries, j, id, k);
      FailingRun(policy, SlotAt(Plan([policy], entries), k), stats);
    }
  }

  /** Up to slot `j` more slots are counted as left than there are from `j` on. */
  lemma MoreSlotsCounted(entries: seq<ScheduleEntry>, j: nat, id: string, k: nat)
    requires k <= j < |entries| && Overcounted(entries, j, id)
    ensures IsSlot(entries[k], id) ==> RemainingEnabledSlots(entries, entries[k].id, id) > SlotCount(entries[j..], id)
  {
    RemainingSlotsAt(entries, k, id);
    if k < j {
      SlotCountStep(entries, k, id);
      SlotsBetween(entries, k + 1, j, id);
    }
  }

  /** The daily minimum of a task is safe on every honoured day exactly if each of its slots is counted from itself. */
  lemma MinimumIsSafeExactly(entries: seq<ScheduleEntry>, id: string)
    ensures (forall policy: TaskPolicy, plan: Plan, day :: plan.entries == entries && policy.id == id ==> !Misses(policy, plan, day)) <==>
      AllCountFromHere(entries, id)
  {
    if AllCountFromHere(entries, id) {
      forall policy: TaskPolicy, plan: Plan, day | plan.entries == entries && policy.id == id ensures !Misses(policy, plan, day) {
        if Misses(policy, plan, day) {
          DailyMinimumIsMet(policy, plan, day);
        }
      }
    } else {
      var j :| 0 <= j < |entries| && IsSlot(entries[j], id) && !CountsFromHere(entries, j, id);
      RemainingSlotsAt(entries, j, id);
      LapsingDayMisses(entries, j, id);
    }
  }

  lemma LapsingDayMisses(entries: seq<ScheduleEntry>, j: nat, id: string)
    requires j < |entries| && Overcounted(entries, j, id)
    ensures
      var policy := LapsingPolicy(entries, j, id);
      Misses(policy, Plan([policy], entries), LapsingDay(id, j, |entries|))
  {
    UntilLapse(entries, j, id, 0, map[]);
    SlotsBetween(entries, 0, j, id);
    assert entries[0..] == entries;
  }

  /** Two entries of one id: the second slot counts the first among those left and defers its failure as well, so the
      day ends with no success at all. */
  lemma RepeatedEntryIdMissesDay()
    ensures
      var entry := ScheduleEntry("e", true, ["t"]);
      var policy := TaskPolicy("t", true, false, 1, false);
      var failing := SlotOfDay([], [Outcome(false, false, false, map["t" := Failed], false)], 1);
      var plan := Plan([policy], [entry, entry]);
      && Misses(policy, plan, [failing, failing])
      && SuccessesOf(DayStats(plan, 0, map[], [failing, failing]), "t") == 0
  {
    var entry := ScheduleEntry("e", true, ["t"]);
    var failing := SlotOfDay([], [Outcome(false, false, false, map["t" := Failed], false)], 1);
    var entries := [entry, entry];
    SecondSlotLapses(entries, entry);
    LapsingDayMisses(entries, 1, "t");
    UntilLapse(entries, 1, "t", 0, map[]);
    TwoFailures();
  }

  lemma TwoFailures()
    ensures
      var failing := SlotOfDay([], [Outcome(false, false, false, map["t" := Failed], false)], 1);
      LapsingDay("t", 1, 2) == [failing, failing]
  {
  }

  lemma SecondSlotLapses(entries: seq<ScheduleEntry>, entry: ScheduleEntry)
    requires entries == [entry, entry] && entry == ScheduleEntry("e", true, ["t"])
    ensures IsSlot(entries[1], "t") && !CountsFromHere(entries, 1, "t") && SlotCount(entries[1..], "t") == 1
  {
    assert entries[1..] == [entry] && [entry][1..] == [];
    assert StartIndex(entries, "e") == 0 && IsSlot(entries[0], "t");
  }
}
