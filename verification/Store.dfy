/** The durable run records: upsert, recovery of interrupted runs, deletion and run-aware retention. */
module Store {
  import opened Wrappers
  import opened LiveState

  datatype Record = Record(id: string, status: RecordStatus, startedAt: int, metadata: map<string, string>)

  /** The fields a write may carry; absent fields keep what the record has. */
  datatype Patch = Patch(id: string, status: Option<Status>, metadata: map<string, string>)

  datatype RetentionPolicy = RetentionPolicy(maxRunRecords: int, maxRetryRecords: int)

  // ---------------------------------------------------------------------------
  // Records, newest first
  // ---------------------------------------------------------------------------

  ghost predicate NewestFirst(records: seq<Record>) {
    records == [] || ((forall r :: r in records[1..] ==> records[0].startedAt >= r.startedAt) && NewestFirst(records[1..]))
  }

  ghost predicate UniqueIds(records: seq<Record>) {
    records == [] ||
    (records[0].id != "" && (forall r :: r in records[1..] ==> r.id != records[0].id) && UniqueIds(records[1..]))
  }

  /** Places a record before the first one that is not newer: ties go to the record placed last. */
  function Place(record: Record, records: seq<Record>): (placed: seq<Record>)
    ensures forall r :: r in placed <==> r == record || r in records
  {
    if records == [] || records[0].startedAt <= record.startedAt then [record] + records
    else [records[0]] + Place(record, records[1..])
  }

  function Without(records: seq<Record>, id: string): (rest: seq<Record>)
    ensures forall r :: r in rest <==> r in records && r.id != id
  {
    if records == [] then []
    else if records[0].id == id then Without(records[1..], id)
    else [records[0]] + Without(records[1..], id)
  }

  function Find(records: seq<Record>, id: string): Option<Record> {
    if records == [] then None
    else if records[0].id == id then Some(records[0])
    else Find(records[1..], id)
  }

  function Merged(existing: Option<Record>, patch: Patch, now: int): Record {
    match existing
    case None =>
      Record(patch.id, if patch.status.Some? then Known(patch.status.value) else Unknown, now, patch.metadata)
    case Some(record) =>
      record.(status := if patch.status.Some? then Known(patch.status.value) else record.status,
              metadata := record.metadata + patch.metadata)
  }

  function Upserted(records: seq<Record>, patch: Patch, now: int): seq<Record> {
    Place(Merged(Find(records, patch.id), patch, now), Without(records, patch.id))
  }

  /** The records as the step system sees them. */
  function Durable(records: seq<Record>): map<string, RecordStatus> {
    if records == [] then map[] else Durable(records[1..])[records[0].id := records[0].status]
  }

  lemma {:induction false} PlaceKeepsOrder(record: Record, records: seq<Record>)
    requires UniqueIds(records) && NewestFirst(records) && record.id != "" && (forall r :: r in records ==> r.id != record.id)
    ensures UniqueIds(Place(record, records)) && NewestFirst(Place(record, records))
  {
    if records == [] || records[0].startedAt <= record.startedAt {
      assert Place(record, records)[1..] == records;
    } else {
      PlaceKeepsOrder(record, records[1..]);
      assert Place(record, records)[1..] == Place(record, records[1..]);
    }
  }

  lemma {:induction false} WithoutKeepsOrder(records: seq<Record>, id: string)
    requires UniqueIds(records) && NewestFirst(records)
    ensures UniqueIds(Without(records, id)) && NewestFirst(Without(records, id))
  {
    if records != [] {
      WithoutKeepsOrder(records[1..], id);
      if records[0].id != id {
        assert Without(records, id)[1..] == Without(records[1..], id);
      }
    }
  }

  lemma {:induction false} FindIs(records: seq<Record>, record: Record)
    requires UniqueIds(records) && record in records
    ensures Find(records, record.id) == Some(record)
  {
    if records[0] != record {
      FindIs(records[1..], record);
    }
  }

  lemma {:induction false} FindMember(records: seq<Record>, id: string)
    ensures Find(records, id).Some? ==> Find(records, id).value in records && Find(records, id).value.id == id
    ensures Find(records, id).None? ==> forall r :: r in records ==> r.id != id
  {
    if records != [] {
      FindMember(records[1..], id);
    }
  }

  lemma {:induction false} DurableOf(records: seq<Record>, id: string)
    ensures id in Durable(records) <==> Find(records, id).Some?
    ensures id in Durable(records) ==> Durable(records)[id] == Find(records, id).value.status
  {
    if records != [] {
      DurableOf(records[1..], id);
    }
  }

  lemma FindAfterUpsert(records: seq<Record>, patch: Patch, now: int, id: string)
    requires UniqueIds(records) && NewestFirst(records) && patch.id != ""
    requires UniqueIds(Upserted(records, patch, now))
    ensures Find(Upserted(records, patch, now), id) ==
      if id == patch.id then Some(Merged(Find(records, id), patch, now)) else Find(records, id)
  {
    var after := Upserted(records, patch, now);
    FindMember(records, patch.id);
    FindMember(records, id);
    FindMember(after, id);
    if id == patch.id {
      FindIs(after, Merged(Find(records, id), patch, now));
    } else if Find(records, id).Some? {
      FindIs(after, Find(records, id).value);
    } else if Find(after, id).Some? {
      FindIs(records, Find(after, id).value);
    }
  }

  lemma UpsertKeepsOrder(records: seq<Record>, patch: Patch, now: int)
    requires UniqueIds(records) && NewestFirst(records) && patch.id != ""
    ensures UniqueIds(Upserted(records, patch, now)) && NewestFirst(Upserted(records, patch, now))
  {
    WithoutKeepsOrder(records, patch.id);
    FindMember(records, patch.id);
    PlaceKeepsOrder(Merged(Find(records, patch.id), patch, now), Without(records, patch.id));
  }

  lemma UpsertAgrees(records: seq<Record>, patch: Patch, now: int, id: string)
    requires UniqueIds(records) && NewestFirst(records) && patch.id != ""
    ensures DurableAgrees(Durable(Upserted(records, patch, now)), Durable(records), id, patch, Find(records, id))
  {
    UpsertKeepsOrder(records, patch, now);
    FindAfterUpsert(records, patch, now, id);
    DurableOf(records, id);
    DurableOf(Upserted(records, patch, now), id);
  }

  ghost predicate SameElsewhere(after: map<string, RecordStatus>, before: map<string, RecordStatus>, id: string) {
    forall other :: other != id ==> (other in after <==> other in before) && (other in after ==> after[other] == before[other])
  }

  lemma UpsertLeavesOthers(records: seq<Record>, patch: Patch, now: int)
    requires UniqueIds(records) && NewestFirst(records) && patch.id != ""
    ensures SameElsewhere(Durable(Upserted(records, patch, now)), Durable(records), patch.id)
  {
    var after, before := Durable(Upserted(records, patch, now)), Durable(records);
    forall other | other != patch.id
      ensures (other in after <==> other in before) && (other in after ==> after[other] == before[other])
    {
      UpsertAgrees(records, patch, now, other);
    }
  }

  lemma UpdatedMap(after: map<string, RecordStatus>, before: map<string, RecordStatus>, id: string)
    requires SameElsewhere(after, before, id) && id in after
    ensures after == before[id := after[id]]
  {
  }

  /** An upsert writes exactly its own record and never loses another one. */
  lemma UpsertWritesOneRecord(records: seq<Record>, patch: Patch, now: int)
    requires UniqueIds(records) && NewestFirst(records) && patch.id != ""
    ensures patch.status.Some? ==> Durable(Upserted(records, patch, now)) == Durable(records)[patch.id := Known(patch.status.value)]
    ensures patch.status.None? && patch.id in Durable(records) ==> Durable(Upserted(records, patch, now)) == Durable(records)
  {
    UpsertLeavesOthers(records, patch, now);
    UpsertAgrees(records, patch, now, patch.id);
    DurableOf(records, patch.id);
    UpdatedMap(Durable(Upserted(records, patch, now)), Durable(records), patch.id);
  }

  ghost predicate DurableAgrees(after: map<string, RecordStatus>, before: map<string, RecordStatus>, id: string, patch: Patch, found: Option<Record>) {
    if id == patch.id then id in after && after[id] == Merged(found, patch, 0).status
    else (id in after <==> id in before) && (id in after ==> after[id] == before[id])
  }

  // ---------------------------------------------------------------------------
  // Retention
  // ---------------------------------------------------------------------------

  function AtLeastZero(limit: int): nat {
    if limit < 0 then 0 else limit
  }

  function RetryCount(retries: map<string, nat>, id: string): nat {
    if id in retries then retries[id] else 0
  }

  function TerminalCount(records: seq<Record>): nat {
    if records == [] then 0 else (if ActiveRecord(records[0].status) then 0 else 1) + TerminalCount(records[1..])
  }

  function RetryTotal(records: seq<Record>, retries: map<string, nat>): nat {
    if records == [] then 0 else RetryCount(retries, records[0].id) + RetryTotal(records[1..], retries)
  }

  function ActiveRetryTotal(records: seq<Record>, retries: map<string, nat>): nat {
    if records == [] then 0
    else (if ActiveRecord(records[0].status) then RetryCount(retries, records[0].id) else 0) + ActiveRetryTotal(records[1..], retries)
  }

  /** A record stays if it is active or fits beside what is already retained. */
  predicate Stays(record: Record, retries: map<string, nat>, policy: RetentionPolicy, terminal: nat, total: nat) {
    || ActiveRecord(record.status)
    || (terminal < AtLeastZero(policy.maxRunRecords)
        && total + RetryCount(retries, record.id) <= AtLeastZero(policy.maxRetryRecords))
  }

  function RetainedAfter(records: seq<Record>, retries: map<string, nat>, policy: RetentionPolicy, terminal: nat, total: nat): seq<Record> {
    if records == [] then []
    else if Stays(records[0], retries, policy, terminal, total) then
      [records[0]] + RetainedAfter(records[1..], retries, policy,
        terminal + (if ActiveRecord(records[0].status) then 0 else 1), total + RetryCount(retries, records[0].id))
    else RetainedAfter(records[1..], retries, policy, terminal, total)
  }

  function Retained(records: seq<Record>, retries: map<string, nat>, policy: RetentionPolicy): seq<Record> {
    RetainedAfter(records, retries, policy, 0, 0)
  }

  lemma Associative(a: seq<Record>, b: seq<Record>, c: seq<Record>)
    ensures a + (b + c) == (a + b) + c
  {
  }

  lemma {:induction false} RetainedSplits(a: seq<Record>, b: seq<Record>, retries: map<string, nat>, policy: RetentionPolicy, terminal: nat, total: nat)
    ensures
      var kept := RetainedAfter(a, retries, policy, terminal, total);
      RetainedAfter(a + b, retries, policy, terminal, total) ==
        kept + RetainedAfter(b, retries, policy, terminal + TerminalCount(kept), total + RetryTotal(kept, retries))
  {
    if a == [] {
      assert a + b == b;
    } else {
      assert (a + b)[1..] == a[1..] + b;
      var kept := RetainedAfter(a, retries, policy, terminal, total);
      if Stays(a[0], retries, policy, terminal, total) {
        var (terminal', total') := (terminal + (if ActiveRecord(a[0].status) then 0 else 1), total + RetryCount(retries, a[0].id));
        var rest := RetainedAfter(a[1..], retries, policy, terminal', total');
        RetainedSplits(a[1..], b, retries, policy, terminal', total');
        assert kept[1..] == rest;
        Associative([a[0]], rest, RetainedAfter(b, retries, policy, terminal' + TerminalCount(rest), total' + RetryTotal(rest, retries)));
      } else {
        RetainedSplits(a[1..], b, retries, policy, terminal, total);
      }
    }
  }

  lemma {:induction false} RetainedSubset(records: seq<Record>, retries: map<string, nat>, policy: RetentionPolicy, terminal: nat, total: nat)
    ensures forall r :: r in RetainedAfter(records, retries, policy, terminal, total) ==> r in records
    ensures NewestFirst(records) ==> NewestFirst(RetainedAfter(records, retries, policy, terminal, total))
    ensures UniqueIds(records) ==> UniqueIds(RetainedAfter(records, retries, policy, terminal, total))
  {
    if records != [] {
      if Stays(records[0], retries, policy, terminal, total) {
        assert RetainedAfter(records, retries, policy, terminal, total)[1..] == RetainedAfter(records[1..], retries, policy,
          terminal + (if ActiveRecord(records[0].status) then 0 else 1), total + RetryCount(retries, records[0].id));
        RetainedSubset(records[1..], retries, policy,
          terminal + (if ActiveRecord(records[0].status) then 0 else 1), total + RetryCount(retries, records[0].id));
      } else {
        RetainedSubset(records[1..], retries, policy, terminal, total);
      }
    }
  }

  lemma {:induction false} UniqueSplit(records: seq<Record>, i: nat)
    requires UniqueIds(records) && i < |records|
    ensures records[i] !in records[..i] && records[i] !in records[i + 1..]
  {
    if i > 0 {
      UniqueSplit(records[1..], i - 1);
      assert records[..i] == [records[0]] + records[1..][..i - 1];
      assert records[1..][i - 1] == records[i] && records[1..][i..] == records[i + 1..];
    }
  }

  /** Newest first, a run is retained exactly when it is active or fits beside the newer runs that are retained. */
  lemma RetainedExactly(records: seq<Record>, retries: map<string, nat>, policy: RetentionPolicy, i: nat)
    requires UniqueIds(records) && i < |records|
    ensures
      var newer := Retained(records[..i], retries, policy);
      records[i] in Retained(records, retries, policy) <==>
        Stays(records[i], retries, policy, TerminalCount(newer), RetryTotal(newer, retries))
  {
    var upTo := Retained(records[..i + 1], retries, policy);
    assert records == records[..i + 1] + records[i + 1..];
    RetainedSplits(records[..i + 1], records[i + 1..], retries, policy, 0, 0);
    UniqueSplit(records, i);
    RetainedStep(records, retries, policy, i);
    RetainedSubset(records[i + 1..], retries, policy, TerminalCount(upTo), RetryTotal(upTo, retries));
  }

  lemma RetentionKeepsActive(records: seq<Record>, retries: map<string, nat>, policy: RetentionPolicy, i: nat)
    requires UniqueIds(records) && i < |records| && ActiveRecord(records[i].status)
    ensures records[i] in Retained(records, retries, policy)
  {
    RetainedExactly(records, retries, policy, i);
  }

  lemma {:induction false} RetentionBounds(records: seq<Record>, retries: map<string, nat>, policy: RetentionPolicy, terminal: nat, total: nat, active: nat)
    requires terminal <= AtLeastZero(policy.maxRunRecords) && total <= AtLeastZero(policy.maxRetryRecords) + active
    ensures
      var kept := RetainedAfter(records, retries, policy, terminal, total);
      && terminal + TerminalCount(kept) <= AtLeastZero(policy.maxRunRecords)
      && total + RetryTotal(kept, retries) <= AtLeastZero(policy.maxRetryRecords) + active + ActiveRetryTotal(records, retries)
  {
    if records != [] {
      var count := RetryCount(retries, records[0].id);
      if ActiveRecord(records[0].status) {
        RetentionBounds(records[1..], retries, policy, terminal, total + count, active + count);
        assert RetainedAfter(records, retries, policy, terminal, total)[1..] == RetainedAfter(records[1..], retries, policy, terminal, total + count);
      } else if Stays(records[0], retries, policy, terminal, total) {
        RetentionBounds(records[1..], retries, policy, terminal + 1, total + count, active);
        assert RetainedAfter(records, retries, policy, terminal, total)[1..] == RetainedAfter(records[1..], retries, policy, terminal + 1, total + count);
      } else {
        RetentionBounds(records[1..], retries, policy, terminal, total, active);
      }
    }
  }

  /** At most the allowed number of terminal runs stay, and their retries exceed the allowed number
      by no more than what active runs own. */
  lemma RetentionLimits(records: seq<Record>, retries: map<string, nat>, policy: RetentionPolicy)
    ensures TerminalCount(Retained(records, retries, policy)) <= AtLeastZero(policy.maxRunRecords)
    ensures RetryTotal(Retained(records, retries, policy), retries) <= AtLeastZero(policy.maxRetryRecords) + ActiveRetryTotal(records, retries)
  {
    RetentionBounds(records, retries, policy, 0, 0, 0);
  }

  lemma {:induction false} RetainedTwice(records: seq<Record>, retries: map<string, nat>, policy: RetentionPolicy, terminal: nat, total: nat)
    ensures
      var kept := RetainedAfter(records, retries, policy, terminal, total);
      RetainedAfter(kept, retries, policy, terminal, total) == kept
  {
    if records != [] {
      if Stays(records[0], retries, policy, terminal, total) {
        RetainedTwice(records[1..], retries, policy,
          terminal + (if ActiveRecord(records[0].status) then 0 else 1), total + RetryCount(retries, records[0].id));
      } else {
        RetainedTwice(records[1..], retries, policy, terminal, total);
      }
    }
  }

  /** Applying retention a second time evicts nothing more. */
  lemma RetentionIdempotent(records: seq<Record>, retries: map<string, nat>, policy: RetentionPolicy)
    ensures Retained(Retained(records, retries, policy), retries, policy) == Retained(records, retries, policy)
  {
    RetainedTwice(records, retries, policy, 0, 0);
  }

  // ---------------------------------------------------------------------------
  // Recovery
  // ---------------------------------------------------------------------------

  /** What startup recovery makes of the durable state. */
  function Recovered(durable: map<string, RecordStatus>): map<string, RecordStatus> {
    map id | id in durable :: if ActiveRecord(durable[id]) then Known(Stopped) else durable[id]
  }

  predicate IsActiveAt(records: seq<Record>, i: nat) {
    i < |records| && ActiveRecord(records[i].status)
  }

  function ActiveCount(records: seq<Record>, upTo: nat): nat
    requires upTo <= |records|
  {
    if upTo == 0 then 0 else ActiveCount(records, upTo - 1) + if IsActiveAt(records, upTo - 1) then 1 else 0
  }

  function IdsUpTo(items: seq<Record>, upTo: nat): set<string>
    requires upTo <= |items|
  {
    set k | 0 <= k < upTo :: items[k].id
  }

  /** The durable state when recovery has visited the records with these ids. */
  function RecoveredAmong(durable: map<string, RecordStatus>, ids: set<string>): map<string, RecordStatus> {
    map id | id in durable :: if id in ids && ActiveRecord(durable[id]) then Known(Stopped) else durable[id]
  }

  ghost function RecoveredPart(items: seq<Record>, upTo: nat): map<string, RecordStatus>
    requires upTo <= |items|
  {
    RecoveredAmong(Durable(items), IdsUpTo(items, upTo))
  }

  lemma RecoveredOneMore(durable: map<string, RecordStatus>, ids: set<string>, id: string)
    requires id in durable
    ensures RecoveredAmong(durable, ids + {id}) ==
      if ActiveRecord(durable[id]) then RecoveredAmong(durable, ids)[id := Known(Stopped)] else RecoveredAmong(durable, ids)
  {
  }

  lemma IdsOneMore(items: seq<Record>, i: nat)
    requires i < |items|
    ensures IdsUpTo(items, i + 1) == IdsUpTo(items, i) + {items[i].id}
  {
  }

  lemma DurableAt(items: seq<Record>, i: nat)
    requires UniqueIds(items) && i < |items|
    ensures items[i].id != "" && items[i].id in Durable(items) && Durable(items)[items[i].id] == items[i].status
  {
    FindIs(items, items[i]);
    DurableOf(items, items[i].id);
    NonEmptyId(items, i);
  }

  lemma RecoveredPartStep(items: seq<Record>, i: nat)
    requires UniqueIds(items) && i < |items|
    ensures items[i].id != ""
    ensures RecoveredPart(items, i + 1) ==
      if ActiveRecord(items[i].status) then RecoveredPart(items, i)[items[i].id := Known(Stopped)] else RecoveredPart(items, i)
  {
    DurableAt(items, i);
    IdsOneMore(items, i);
    RecoveredOneMore(Durable(items), IdsUpTo(items, i), items[i].id);
  }

  lemma {:induction false} NonEmptyId(records: seq<Record>, i: nat)
    requires UniqueIds(records) && i < |records|
    ensures records[i].id != ""
  {
    if i > 0 { NonEmptyId(records[1..], i - 1); }
  }

  lemma RecoveredPartAll(items: seq<Record>)
    requires UniqueIds(items)
    ensures RecoveredPart(items, 0) == Durable(items)
    ensures RecoveredPart(items, |items|) == Recovered(Durable(items))
  {
    forall id | id in Durable(items) ensures id in IdsUpTo(items, |items|) {
      DurableOf(items, id);
      FindMember(items, id);
    }
  }

  // ---------------------------------------------------------------------------
  // The mutable store
  // ---------------------------------------------------------------------------

  class RunStateStore {
    const policy: RetentionPolicy
    var records: seq<Record>
    var retries: map<string, nat>

    constructor (policy: RetentionPolicy)
      ensures Valid() && records == [] && this.policy == policy
    {
      this.policy := policy;
      records := [];
      retries := map[];
    }

    ghost predicate Valid()
      reads this
    {
      UniqueIds(records) && NewestFirst(records)
    }

    /** Writes a patch; refuses an empty id. */
    method Upsert(patch: Patch, now: int) returns (ok: bool)
      requires Valid()
      modifies this`records
      ensures Valid() && ok == (patch.id != "")
      ensures records == if ok then Upserted(old(records), patch, now) else old(records)
    {
      if patch.id == "" { return false; }
      UpsertKeepsOrder(records, patch, now);
      records := Upserted(records, patch, now);
      return true;
    }

    method SealInterrupted(id: string, now: int)
      requires Valid() && id != ""
      modifies this`records
      ensures Valid() && Durable(records) == old(Durable(records))[id := Known(Stopped)]
    {
      var patch := Patch(id, Some(Stopped), map["recovered_status" := "interrupted"]);
      UpsertWritesOneRecord(records, patch, now);
      var _ := Upsert(patch, now);
    }

    /** Seals every record left running or stopping by an earlier process, and nothing else. */
    method RecoverInterruptedRuns(now: int) returns (recovered: nat)
      requires Valid()
      modifies this`records
      ensures Valid() && Durable(records) == Recovered(old(Durable(records)))
      ensures recovered == ActiveCount(old(records), |old(records)|)
    {
      var items := records;
      recovered := 0;
      RecoveredPartAll(items);
      var i := 0;
      while i < |items|
        invariant 0 <= i <= |items| && Valid() && items == old(records)
        invariant recovered == ActiveCount(items, i)
        invariant Durable(records) == RecoveredPart(items, i)
      {
        RecoveredPartStep(items, i);
        if items[i].status in {Known(Running), Known(Stopping)} {
          SealInterrupted(items[i].id, now);
          recovered := recovered + 1;
        }
        i := i + 1;
      }
      RecoveredPartAll(items);
    }

    /** Removes a terminal record; refuses an active one and reports a missing one. */
    method DeleteRun(id: string) returns (result: Result<Record, string>)
      requires Valid()
      modifies this`records, this`retries
      ensures Valid()
      ensures result.Ok? <==> id in old(Durable(records)) && !ActiveRecord(old(Durable(records))[id])
      ensures result.Ok? ==> records == Without(old(records), id) && retries == old(retries) - {id}
      ensures result.Err? ==> records == old(records) && retries == old(retries)
    {
      DurableOf(records, id);
      var found := Find(records, id);
      if found.None? { return Err("Run not found"); }
      if ActiveRecord(found.value.status) { return Err("Run is still active"); }
      WithoutKeepsOrder(records, id);
      records := Without(records, id);
      retries := retries - {id};
      return Ok(found.value);
    }

    /** One pass newest first; evicted runs go with all their retries, retained runs keep all of theirs. */
    method EnforceRetention() returns (evicted: seq<Record>)
      requires Valid()
      modifies this`records, this`retries
      ensures Valid() && records == Retained(old(records), old(retries), policy)
      ensures forall r :: r in evicted <==> r in old(records) && r !in records
      ensures retries == map id | id in old(retries) && (forall r :: r in evicted ==> r.id != id) :: old(retries)[id]
    {
      var kept: seq<Record> := [];
      evicted := [];
      var total, terminal := 0, 0;
      var i := 0;
      while i < |records|
        invariant 0 <= i <= |records| && records == old(records) && retries == old(retries)
        invariant kept == Retained(records[..i], retries, policy)
        invariant terminal == TerminalCount(kept) && total == RetryTotal(kept, retries)
        invariant forall r :: r in evicted <==> r in records[..i] && r !in kept
      {
        var run := records[i];
        var count := RetryCount(retries, run.id);
        var active := ActiveRecord(run.status);
        var fitsRuns := terminal < AtLeastZero(policy.maxRunRecords);
        var fitsRetries := total + count <= AtLeastZero(policy.maxRetryRecords);
        RetainedStep(records, retries, policy, i);
        assert records[..i + 1] == records[..i] + [run];
        if active || (fitsRuns && fitsRetries) {
          kept := kept + [run];
          total := total + count;
          if !active { terminal := terminal + 1; }
        } else {
          evicted := evicted + [run];
        }
        i := i + 1;
      }
      assert records[..i] == records;
      RetainedSubset(records, retries, policy, 0, 0);
      records := kept;
      retries := map id | id in retries && (forall r :: r in evicted ==> r.id != id) :: retries[id];
    }
  }

  lemma {:induction false} CountsOfAppend(records: seq<Record>, record: Record, retries: map<string, nat>)
    ensures TerminalCount(records + [record]) == TerminalCount(records) + if ActiveRecord(record.status) then 0 else 1
    ensures RetryTotal(records + [record], retries) == RetryTotal(records, retries) + RetryCount(retries, record.id)
  {
    if records != [] {
      assert (records + [record])[1..] == records[1..] + [record];
      CountsOfAppend(records[1..], record, retries);
    }
  }

  /** One more record: it joins the retained ones exactly when it stays beside them. */
  lemma RetainedStep(records: seq<Record>, retries: map<string, nat>, policy: RetentionPolicy, i: nat)
    requires UniqueIds(records) && i < |records|
    ensures
      var kept := Retained(records[..i], retries, policy);
      && Retained(records[..i + 1], retries, policy) ==
           (if Stays(records[i], retries, policy, TerminalCount(kept), RetryTotal(kept, retries)) then kept + [records[i]] else kept)
      && TerminalCount(kept + [records[i]]) == TerminalCount(kept) + (if ActiveRecord(records[i].status) then 0 else 1)
      && RetryTotal(kept + [records[i]], retries) == RetryTotal(kept, retries) + RetryCount(retries, records[i].id)
      && records[i] !in kept && records[i] !in records[..i]
  {
    assert records[..i + 1] == records[..i] + [records[i]];
    UniqueSplit(records, i);
    RetainedSplits(records[..i], [records[i]], retries, policy, 0, 0);
    RetainedSubset(records[..i], retries, policy, 0, 0);
    CountsOfAppend(Retained(records[..i], retries, policy), records[i], retries);
  }
}
