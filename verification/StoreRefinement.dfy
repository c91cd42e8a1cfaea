/** The store's own algorithms do what the step system takes them to do. */
module StoreRefinement {
  import opened Wrappers
  import opened LiveState
  import opened Lifecycle
  import opened LifecycleInvariant
  import LifecycleTheorems
  import Store

  /** Recovery under way: some active records have been sealed as stopped, all else is as the crash left it. */
  ghost predicate PartlyRecovered(crashed: map<RunId, RecordStatus>, s: State) {
    && s.recovery.Some?
    && s.durable.Keys == crashed.Keys
    && forall id :: id in crashed ==>
         s.durable[id] == crashed[id] || (ActiveRecord(crashed[id]) && s.durable[id] == Known(Stopped))
  }

  lemma RecoveryStep(crashed: map<RunId, RecordStatus>, s: State, step: Step)
    requires Inv(s) && PartlyRecovered(crashed, s) && !step.Restart?
    ensures PartlyRecovered(crashed, RecoveryNext(s, step))
  {
  }

  lemma {:induction false} RecoverySteps(crashed: map<RunId, RecordStatus>, s: State, steps: seq<Step>)
    requires Inv(s) && PartlyRecovered(crashed, s)
    requires forall i :: 0 <= i < |steps| ==> !steps[i].Restart?
    ensures PartlyRecovered(crashed, Execute(s, steps))
    decreases |steps|
  {
    if steps != [] {
      RecoveryStep(crashed, s, steps[0]);
      StepKeepsInv(s, steps[0]);
      RecoverySteps(crashed, Apply(s, steps[0]), steps[1..]);
    }
  }

  /** Whatever the crash left, and however often recovery is itself interrupted by crashes, once nothing is
      left to visit the durable state is the one the store's recovery loop computes. */
  lemma RecoveryComputesRecovered(s: State, managers: set<ManagerId>, before: seq<Step>, halfStarted: Option<RunId>, steps: seq<Step>)
    requires LifecycleTheorems.Reachable(s, managers, before)
    requires forall i :: 0 <= i < |steps| ==> !steps[i].Restart?
    requires Execute(CrashNext(s, halfStarted), steps).recovery == Some({})
    ensures Execute(CrashNext(s, halfStarted), steps).durable == Store.Recovered(CrashNext(s, halfStarted).durable)
  {
    var crashed := CrashNext(s, halfStarted);
    LifecycleTheorems.ReachableInv(s, managers, before);
    CrashKeepsInv(s, halfStarted);
    RecoverySteps(crashed.durable, crashed, steps);
    ExecutionInv(crashed, steps);
  }

  lemma RetainedFind(records: seq<Store.Record>, retries: map<string, nat>, policy: Store.RetentionPolicy, id: string)
    requires Store.UniqueIds(records)
    ensures
      var kept := Store.Retained(records, retries, policy);
      && (id in Store.Durable(kept) ==> id in Store.Durable(records) && Store.Durable(kept)[id] == Store.Durable(records)[id])
      && (id in Store.Durable(records) && ActiveRecord(Store.Durable(records)[id]) ==> id in Store.Durable(kept))
  {
    var kept := Store.Retained(records, retries, policy);
    Store.RetainedSubset(records, retries, policy, 0, 0);
    Store.DurableOf(kept, id);
    Store.DurableOf(records, id);
    Store.FindMember(kept, id);
    Store.FindMember(records, id);
    if id in Store.Durable(kept) {
      Store.FindIs(records, Store.Find(kept, id).value);
    } else if id in Store.Durable(records) && ActiveRecord(Store.Durable(records)[id]) {
      var i :| 0 <= i < |records| && records[i] == Store.Find(records, id).value;
      Store.RetentionKeepsActive(records, retries, policy, i);
    }
  }

  /** Retention only evicts, and never an active record: it is an eviction step of the run system. */
  lemma RetentionIsAnEviction(records: seq<Store.Record>, retries: map<string, nat>, policy: Store.RetentionPolicy)
    requires Store.UniqueIds(records)
    ensures
      var (before, after) := (Store.Durable(records), Store.Durable(Store.Retained(records, retries, policy)));
      after == Evicted(before, before.Keys - after.Keys)
  {
    var (before, after) := (Store.Durable(records), Store.Durable(Store.Retained(records, retries, policy)));
    var evicted := Evicted(before, before.Keys - after.Keys);
    forall id ensures (id in after <==> id in evicted) && (id in after ==> after[id] == evicted[id]) {
      RetainedFind(records, retries, policy, id);
    }
  }
}
