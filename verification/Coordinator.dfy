/** The global lease table: one lock section of `acquire`, the preemption rule, and release. */
module Coordinator {
  import opened Wrappers
  import opened RunResources

  /** A lease as a value: the claim itself and the two preemption marks `acquire` writes into it. */
  datatype Lease = Lease(
    runId: string,
    priority: int,
    resources: seq<RunResource>,
    forceAfter: Option<real>,
    preemptible: bool,
    stopRequestedAt: Option<real>,
    forceRequested: bool)

  type Table = map<string, Lease>

  datatype Callback = NoCallback | AskStop | AskForceStop

  datatype Outcome =
    | ShuttingDown
    | Cancelled
    | Acquired
    | Blocked(blockers: set<string>)
    | TimedOut(conflicts: set<string>)
    | Waiting(callbacks: map<string, Callback>)

  function Conflicts(table: Table, lease: Lease): set<string> {
    set id | id in table && id != lease.runId && ClaimsConflict(lease.resources, table[id].resources)
  }

  /** Holders that neither yield to this claim nor finish by plain waiting at equal priority. */
  function Blockers(table: Table, lease: Lease): set<string> {
    set id | id in Conflicts(table, lease) &&
             (table[id].priority > lease.priority || (table[id].priority < lease.priority && !table[id].preemptible))
  }

  /** What one pass of a waiting claim does to one lower-priority holder. */
  function Preempt(holder: Lease, now: real): (Lease, Callback) {
    if holder.stopRequestedAt.None? then
      (holder.(stopRequestedAt := Some(now)), AskStop)
    else if && holder.forceAfter.Some? && holder.forceAfter.value != 0.0
            && !holder.forceRequested
            && now - holder.stopRequestedAt.value >= holder.forceAfter.value then
      (holder.(forceRequested := true), AskForceStop)
    else
      (holder, NoCallback)
  }

  /** The conflicting holders of lower priority, to which the preemption rule applies. */
  function Preempted(table: Table, lease: Lease): set<string> {
    set id | id in Conflicts(table, lease) && table[id].priority < lease.priority
  }

  function Marked(table: Table, targets: set<string>, now: real): Table
    requires targets <= table.Keys
  {
    map id | id in table :: if id in targets then Preempt(table[id], now).0 else table[id]
  }

  function Callbacks(table: Table, targets: set<string>, now: real): map<string, Callback>
    requires targets <= table.Keys
  {
    map id | id in targets && !Preempt(table[id], now).1.NoCallback? :: Preempt(table[id], now).1
  }

  lemma CallbacksStep(table: Table, done: set<string>, id: string, now: real)
    requires done <= table.Keys && id in table && id !in done
    ensures
      var callback := Preempt(table[id], now).1;
      Callbacks(table, done + {id}, now) ==
        if callback.NoCallback? then Callbacks(table, done, now) else Callbacks(table, done, now)[id := callback]
  {
  }

  /** One pass of the `acquire` loop, all under the lock. */
  function Attempt(table: Table, closing: bool, lease: Lease, cancelled: bool, now: real, deadline: Option<real>)
    : (Table, Outcome)
  {
    if closing then (table, ShuttingDown)
    else if cancelled then (table, Cancelled)
    else if Conflicts(table, lease) == {} then (table[lease.runId := lease], Acquired)
    else if Blockers(table, lease) != {} then (table, Blocked(Blockers(table, lease)))
    else if deadline.Some? && deadline.value - now <= 0.0 then (table, TimedOut(Conflicts(table, lease)))
    else
      var targets := Preempted(table, lease);
      (Marked(table, targets, now), Waiting(Callbacks(table, targets, now)))
  }

  /** No two leases of the table clash. */
  ghost predicate Exclusion(table: Table) {
    forall a, b :: a in table && b in table && a != b ==> !ClaimsConflict(table[a].resources, table[b].resources)
  }

  predicate SameClaim(left: Lease, right: Lease) {
    right == left.(stopRequestedAt := right.stopRequestedAt, forceRequested := right.forceRequested)
  }

  // ---------------------------------------------------------------------------
  // What one pass guarantees
  // ---------------------------------------------------------------------------

  /** Every outcome keeps the table free of clashes, whatever the claim. */
  lemma AttemptKeepsExclusion(table: Table, closing: bool, lease: Lease, cancelled: bool, now: real, deadline: Option<real>)
    requires Exclusion(table)
    ensures Exclusion(Attempt(table, closing, lease, cancelled, now, deadline).0)
  {
    var (after, outcome) := Attempt(table, closing, lease, cancelled, now, deadline);
    if outcome.Acquired? {
      forall a, b | a in after && b in after && a != b
        ensures !ClaimsConflict(after[a].resources, after[b].resources)
      {
        if a == lease.runId {
          assert b !in Conflicts(table, lease);
        } else if b == lease.runId {
          assert a !in Conflicts(table, lease);
          ClaimsConflictSymmetric(lease.resources, table[a].resources);
        }
      }
    } else {
      forall id | id in after ensures id in table && after[id].resources == table[id].resources {
      }
    }
  }

  /** A claim is granted exactly when the table is open, the run is not cancelled and nothing clashes;
      every failing pass leaves the table as it was, and a waiting pass only writes preemption marks. */
  lemma AttemptOutcome(table: Table, closing: bool, lease: Lease, cancelled: bool, now: real, deadline: Option<real>)
    ensures
      var (after, outcome) := Attempt(table, closing, lease, cancelled, now, deadline);
      && (outcome.Acquired? <==>
           (!closing && !cancelled &&
            forall id :: id in table && id != lease.runId ==> !ClaimsConflict(lease.resources, table[id].resources)))
      && (outcome.Acquired? ==> after == table[lease.runId := lease])
      && (!outcome.Acquired? ==> after.Keys == table.Keys && forall id :: id in table ==> SameClaim(table[id], after[id]))
      && (!outcome.Acquired? && !outcome.Waiting? ==> after == table)
  {
    assert Conflicts(table, lease) == {} <==>
      forall id :: id in table && id != lease.runId ==> !ClaimsConflict(lease.resources, table[id].resources) by
    {
      if id :| id in table && id != lease.runId && ClaimsConflict(lease.resources, table[id].resources) {
        assert id in Conflicts(table, lease);
      }
    }
  }

  /** The holder claims something the lease claims, and not both only share it. */
  predicate Clashes(table: Table, lease: Lease, id: string) {
    id in table && id != lease.runId && ClaimsConflict(lease.resources, table[id].resources)
  }

  /** Why a pass that is neither shut down nor cancelled does not get its claim: a clashing holder of higher priority, or
      a lower one that cannot be preempted, blocks it at once, and the error names exactly those; an equal one, or a lower
      one that can be preempted, is waited for until the deadline. */
  lemma RefusedExactly(table: Table, lease: Lease, now: real, deadline: Option<real>)
    ensures
      var outcome := Attempt(table, false, lease, false, now, deadline).1;
      var blocked := exists id :: (
        && Clashes(table, lease, id)
        && (table[id].priority > lease.priority || (table[id].priority < lease.priority && !table[id].preemptible)));
      var contested := exists id :: Clashes(table, lease, id);
      && (outcome.Acquired? <==> !contested)
      && (outcome.Blocked? <==> blocked)
      && (outcome.Blocked? ==> forall id :: id in outcome.blockers <==>
            Clashes(table, lease, id) &&
            (table[id].priority > lease.priority || (table[id].priority < lease.priority && !table[id].preemptible)))
      && (outcome.TimedOut? <==> contested && !blocked && deadline.Some? && deadline.value <= now)
      && (outcome.TimedOut? ==> forall id :: id in outcome.conflicts <==> Clashes(table, lease, id))
      && (outcome.Waiting? <==> contested && !blocked && (deadline.None? || now < deadline.value))
  {
    ContestedMeans(table, lease);
    BlockedMeans(table, lease);
  }

  lemma ContestedMeans(table: Table, lease: Lease)
    ensures forall id :: id in Conflicts(table, lease) <==> Clashes(table, lease, id)
    ensures Conflicts(table, lease) == {} <==> !exists id :: Clashes(table, lease, id)
  {
    if id :| Clashes(table, lease, id) { assert id in Conflicts(table, lease); }
  }

  lemma BlockedMeans(table: Table, lease: Lease)
    ensures forall id :: id in Blockers(table, lease) <==>
      Clashes(table, lease, id) &&
      (table[id].priority > lease.priority || (table[id].priority < lease.priority && !table[id].preemptible))
    ensures Blockers(table, lease) == {} <==> !exists id ::
      Clashes(table, lease, id) &&
      (table[id].priority > lease.priority || (table[id].priority < lease.priority && !table[id].preemptible))
  {
    if id :| Clashes(table, lease, id) &&
             (table[id].priority > lease.priority || (table[id].priority < lease.priority && !table[id].preemptible)) {
      assert id in Blockers(table, lease);
    }
  }

  /** Shutdown is looked at before cancellation, and cancellation before the table. */
  lemma TurnedAwayExactly(table: Table, closing: bool, lease: Lease, cancelled: bool, now: real, deadline: Option<real>)
    ensures
      var (after, outcome) := Attempt(table, closing, lease, cancelled, now, deadline);
      && (outcome.ShuttingDown? <==> closing) && (outcome.Cancelled? <==> !closing && cancelled)
      && (closing || cancelled ==> after == table)
  {
  }

  /** Among equals a claim just waits: nobody is asked to stop, and nothing in the table changes. */
  lemma EqualsAreWaitedFor(table: Table, lease: Lease, now: real, deadline: Option<real>)
    requires exists id :: Clashes(table, lease, id)
    requires forall id :: Clashes(table, lease, id) ==> table[id].priority == lease.priority
    requires deadline.None? || now < deadline.value
    ensures Attempt(table, false, lease, false, now, deadline) == (table, Waiting(map[]))
  {
    RefusedExactly(table, lease, now, deadline);
    assert Preempted(table, lease) == {};
    assert Marked(table, {}, now) == table && Callbacks(table, {}, now) == map[];
  }

  /** In a waiting pass a clashing holder of lower priority is asked to stop exactly if nobody has asked yet, and asked by
      force exactly if it was asked its grace period ago, which is not zero, and not by force yet; no other holder is. */
  lemma WaitingAsksExactly(table: Table, lease: Lease, now: real, deadline: Option<real>, id: string)
    requires Attempt(table, false, lease, false, now, deadline).1.Waiting? && id in table
    ensures
      var (after, outcome) := Attempt(table, false, lease, false, now, deadline);
      var lower := Clashes(table, lease, id) && table[id].priority < lease.priority;
      var asked := id in outcome.callbacks;
      && (asked && outcome.callbacks[id] == AskStop <==> lower && table[id].stopRequestedAt.None?)
      && (asked && outcome.callbacks[id] == AskForceStop <==>
            && lower && table[id].stopRequestedAt.Some? && !table[id].forceRequested && table[id].forceAfter.Some?
            && table[id].forceAfter.value != 0.0 && table[id].stopRequestedAt.value + table[id].forceAfter.value <= now)
      && id in after && after[id] ==
           if !asked then table[id]
           else if outcome.callbacks[id] == AskStop then table[id].(stopRequestedAt := Some(now))
           else table[id].(forceRequested := true)
  {
    ContestedMeans(table, lease);
  }

  /** A waiting pass asks a holder to stop only if the holder clashes, is preemptible and has strictly lower
      priority; it asks for force only after an earlier stop request and the holder's grace period. */
  lemma WaitingPreemptsOnlyLower(table: Table, closing: bool, lease: Lease, cancelled: bool, now: real, deadline: Option<real>, id: string)
    requires id in table
    ensures
      var (after, outcome) := Attempt(table, closing, lease, cancelled, now, deadline);
      && (id in after && after[id] != table[id] && !outcome.Acquired? ==>
           && outcome.Waiting? && id in outcome.callbacks
           && id != lease.runId && ClaimsConflict(lease.resources, table[id].resources)
           && table[id].preemptible && table[id].priority < lease.priority)
      && (outcome.Waiting? && id in outcome.callbacks ==> id in after && match outcome.callbacks[id]
           case NoCallback => false
           case AskStop =>
             table[id].stopRequestedAt.None? && after[id] == table[id].(stopRequestedAt := Some(now))
           case AskForceStop =>
             && table[id].stopRequestedAt.Some? && !table[id].forceRequested
             && table[id].forceAfter.Some? && now - table[id].stopRequestedAt.value >= table[id].forceAfter.value
             && after[id] == table[id].(forceRequested := true))
      && (outcome.Waiting? && id in outcome.callbacks ==>
           && id != lease.runId && ClaimsConflict(lease.resources, table[id].resources)
           && table[id].preemptible && table[id].priority < lease.priority)
      && (outcome.Waiting? && id !in outcome.callbacks ==> id in after && after[id] == table[id])
  {
    var outcome := Attempt(table, closing, lease, cancelled, now, deadline).1;
    if outcome.Waiting? && id in Preempted(table, lease) {
      assert id !in Blockers(table, lease);
    }
  }

  /** A waiting pass applies the preemption rule to the preempted holders and leaves the others alone. */
  lemma WaitingEffect(table: Table, lease: Lease, now: real, deadline: Option<real>, id: string)
    requires Attempt(table, false, lease, false, now, deadline).1.Waiting? && id in table
    ensures
      var (after, outcome) := Attempt(table, false, lease, false, now, deadline);
      var (holder, callback) := Preempt(table[id], now);
      && id in after
      && (id in Preempted(table, lease) ==>
           && after[id] == holder && (id in outcome.callbacks <==> callback != NoCallback)
           && (id in outcome.callbacks ==> outcome.callbacks[id] == callback)
           && id != lease.runId && ClaimsConflict(lease.resources, table[id].resources)
           && table[id].preemptible && table[id].priority < lease.priority)
      && (id !in Preempted(table, lease) ==> after[id] == table[id] && id !in outcome.callbacks)
  {
    if id in Preempted(table, lease) {
      assert id !in Blockers(table, lease);
    }
  }

  // ---------------------------------------------------------------------------
  // The mutable coordinator
  // ---------------------------------------------------------------------------

  class RunLease {
    const runId: string
    const priority: int
    const resources: seq<RunResource>
    const forceAfter: Option<real>
    const preemptible: bool
    var stopRequestedAt: Option<real>
    var forceRequested: bool

    constructor (runId: string, priority: int, resources: seq<RunResource>, forceAfter: Option<real>, preemptible: bool)
      ensures View() == Lease(runId, priority, resources, forceAfter, preemptible, None, false)
    {
      this.runId := runId;
      this.priority := priority;
      this.resources := resources;
      this.forceAfter := forceAfter;
      this.preemptible := preemptible;
      stopRequestedAt := None;
      forceRequested := false;
    }

    function View(): Lease
      reads this
    {
      Lease(runId, priority, resources, forceAfter, preemptible, stopRequestedAt, forceRequested)
    }

    method ApplyPreemption(now: real) returns (callback: Callback)
      modifies this
      ensures View() == Preempt(old(View()), now).0
      ensures callback == Preempt(old(View()), now).1
    {
      if stopRequestedAt.None? {
        stopRequestedAt := Some(now);
        return AskStop;
      }
      if && forceAfter.Some? && forceAfter.value != 0.0 && !forceRequested
         && now - stopRequestedAt.value >= forceAfter.value {
        forceRequested := true;
        return AskForceStop;
      }
      return NoCallback;
    }
  }

  class RunCoordinator {
    var leases: map<string, RunLease>
    var closing: bool

    constructor ()
      ensures Valid() && View() == map[] && !closing
    {
      leases := map[];
      closing := false;
    }

    ghost predicate Valid()
      reads this
    {
      forall id :: id in leases ==> leases[id].runId == id
    }

    ghost function View(): Table
      reads this, leases.Values
    {
      map id | id in leases :: leases[id].View()
    }

    method Attempted(lease: RunLease, cancelled: bool, now: real, deadline: Option<real>) returns (outcome: Outcome)
      requires Valid()
      modifies this`leases, leases.Values
      ensures Valid() && closing == old(closing)
      ensures View() == Attempt(old(View()), closing, old(lease.View()), cancelled, now, deadline).0
      ensures outcome == Attempt(old(View()), closing, old(lease.View()), cancelled, now, deadline).1
      ensures outcome.Acquired? ==> leases == old(leases)[lease.runId := lease]
      ensures !outcome.Acquired? ==> leases == old(leases)
    {
      ghost var table := View();
      ghost var claim := lease.View();
      if closing { return ShuttingDown; }
      if cancelled { return Cancelled; }
      var conflicts := set id | id in leases && id != lease.runId && ClaimsConflict(lease.resources, leases[id].resources);
      assert conflicts == Conflicts(table, claim);
      if conflicts == {} {
        leases := leases[lease.runId := lease];
        return Acquired;
      }
      var blockers := set id | id in conflicts &&
        (leases[id].priority > lease.priority || (leases[id].priority < lease.priority && !leases[id].preemptible));
      assert blockers == Blockers(table, claim);
      if blockers != {} { return Blocked(blockers); }
      if deadline.Some? && deadline.value - now <= 0.0 { return TimedOut(conflicts); }

      var lower := set id | id in conflicts && leases[id].priority < lease.priority;
      assert lower == Preempted(table, claim);
      var callbacks := PreemptAll(lower, now);
      return Waiting(callbacks);
    }

    method PreemptAll(targets: set<string>, now: real) returns (callbacks: map<string, Callback>)
      requires Valid() && targets <= leases.Keys
      modifies leases.Values
      ensures Valid() && View() == Marked(old(View()), targets, now)
      ensures callbacks == Callbacks(old(View()), targets, now)
    {
      ghost var table := View();
      ghost var done: set<string> := {};
      var pending := targets;
      callbacks := map[];
      while pending != {}
        invariant done + pending == targets && done !! pending
        invariant forall id :: id in done ==> leases[id].View() == Preempt(table[id], now).0
        invariant forall id :: id in leases && id !in done ==> leases[id].View() == table[id]
        invariant callbacks == Callbacks(table, done, now)
        decreases pending
      {
        var id :| id in pending;
        var callback := leases[id].ApplyPreemption(now);
        CallbacksStep(table, done, id, now);
        done := done + {id};
        pending := pending - {id};
        if callback != NoCallback {
          callbacks := callbacks[id := callback];
        }
      }
      assert done == targets;
    }

    method Release(runId: string)
      requires Valid()
      modifies this`leases
      ensures Valid() && View() == old(View()) - {runId}
    {
      leases := leases - {runId};
    }

    method BeginShutdown()
      modifies this`closing
      ensures closing
    {
      closing := true;
    }
  }
}
