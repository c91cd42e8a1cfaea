/** What a write leaves in its record and where, and what counts for retention and recovery. */
module StoreRecords {
  import opened Wrappers
  import opened LiveState
  import opened Store

  /** A record stands behind the newer ones and before all others, those of the same time among them; the rest keep
      their order. */
  lemma {:induction false} PlacedExactly(record: Record, records: seq<Record>) returns (i: nat)
    requires NewestFirst(records)
    ensures i <= |records| && Place(record, records) == records[..i] + [record] + records[i..]
    ensures forall k :: 0 <= k < i ==> records[k].startedAt > record.startedAt
    ensures forall k :: i <= k < |records| ==> records[k].startedAt <= record.startedAt
  {
    i := 0;
    if records != [] && records[0].startedAt > record.startedAt {
      var rest := PlacedExactly(record, records[1..]);
      i := rest + 1;
      assert records[..i] == [records[0]] + records[1..][..rest] && records[i..] == records[1..][rest..];
      assert forall k :: 1 <= k < |records| ==> records[k] == records[1..][k - 1];
    } else {
      assert records != [] ==> forall k :: 1 <= k < |records| ==> records[k] == records[1..][k - 1] && records[1..][k - 1] in records[1..];
    }
  }

  /** The record of an id is taken out, and the others keep their order. */
  lemma {:induction false} WithoutExactly(before: seq<Record>, record: Record, after: seq<Record>)
    requires forall r :: r in before + after ==> r.id != record.id
    ensures Without(before + [record] + after, record.id) == before + after
    ensures Without(before + after, record.id) == before + after
  {
    if before == [] {
      assert before + [record] + after == [record] + after && before + after == after;
      AbsentStays(after, record.id);
    } else {
      assert (before + [record] + after)[1..] == before[1..] + [record] + after && (before + after)[1..] == before[1..] + after;
      assert forall r :: r in before[1..] + after ==> r in before + after;
      WithoutExactly(before[1..], record, after);
    }
  }

  lemma {:induction false} AbsentStays(records: seq<Record>, id: string)
    requires forall r :: r in records ==> r.id != id
    ensures Without(records, id) == records
  {
    if records != [] { AbsentStays(records[1..], id); }
  }

  /** A write to a record there is keeps its time, and every field and metadata key it does not carry; a write to none
      makes a record of the present. */
  lemma MergedExactly(records: seq<Record>, patch: Patch, now: int)
    requires UniqueIds(records)
    ensures forall record :: record in records && record.id == patch.id ==>
      var merged := Merged(Find(records, patch.id), patch, now);
      && merged.id == patch.id && merged.startedAt == record.startedAt
      && merged.status == (if patch.status.Some? then Known(patch.status.value) else record.status)
      && merged.metadata.Keys == record.metadata.Keys + patch.metadata.Keys
      && forall key :: key in merged.metadata ==>
        merged.metadata[key] == if key in patch.metadata then patch.metadata[key] else record.metadata[key]
    ensures (forall record :: record in records ==> record.id != patch.id) ==>
      Merged(Find(records, patch.id), patch, now) ==
        Record(patch.id, if patch.status.Some? then Known(patch.status.value) else Unknown, now, patch.metadata)
  {
    FindMember(records, patch.id);
    forall record | record in records && record.id == patch.id ensures Find(records, patch.id) == Some(record) {
      FindIs(records, record);
    }
  }

  /** After a write the records are the one written and, in every field, all others there were. */
  lemma WrittenExactly(records: seq<Record>, patch: Patch, now: int)
    ensures forall record ::
      record in Upserted(records, patch, now) <==>
        record == Merged(Find(records, patch.id), patch, now) || (record in records && record.id != patch.id)
  {
  }

  // ---------------------------------------------------------------------------
  // Counts
  // ---------------------------------------------------------------------------

  predicate UnderWay(record: Record) {
    record.status == Known(Running) || record.status == Known(Stopping)
  }

  /** As many records count as active as say running or stopping. */
  lemma {:induction false} ActiveCountExactly(records: seq<Record>, upTo: nat)
    requires upTo <= |records|
    ensures ActiveCount(records, upTo) == |set k | 0 <= k < upTo && UnderWay(records[k])|
  {
    if upTo > 0 {
      ActiveCountExactly(records, upTo - 1);
      var before := set k | 0 <= k < upTo - 1 && UnderWay(records[k]);
      var now := set k | 0 <= k < upTo && UnderWay(records[k]);
      assert now == if UnderWay(records[upTo - 1]) then before + {upTo - 1} else before;
    }
  }

  /** Every record counts as active or as finished. */
  lemma {:induction false} TerminalCountExactly(records: seq<Record>)
    ensures TerminalCount(records) == |set k | 0 <= k < |records| && !UnderWay(records[k])|
    decreases |records|
  {
    if records != [] {
      var last := |records| - 1;
      assert records == records[..last] + [records[last]];
      TerminalCountExactly(records[..last]);
      CountsOfAppend(records[..last], records[last], map[]);
      var before := set k | 0 <= k < last && !UnderWay(records[..last][k]);
      var now := set k | 0 <= k < |records| && !UnderWay(records[k]);
      assert now == if UnderWay(records[last]) then before else before + {last};
    }
  }

  /** The retries of some records are those of each, and a record that owns none is not in the table. */
  lemma {:induction false} TotalsExactly(records: seq<Record>, retries: map<string, nat>)
    ensures records == [] ==> RetryTotal(records, retries) == ActiveRetryTotal(records, retries) == 0
    ensures records != [] ==>
      var own := if records[0].id in retries then retries[records[0].id] else 0;
      && RetryTotal(records, retries) == own + RetryTotal(records[1..], retries)
      && ActiveRetryTotal(records, retries) == (if UnderWay(records[0]) then own else 0) + ActiveRetryTotal(records[1..], retries)
  {
  }

  /** A finished record stays exactly if it is fewer than the allowed number that stay before it, and all retries kept with
      it are at most the allowed number; a negative number allows none. */
  lemma RetainedByNumbers(records: seq<Record>, retries: map<string, nat>, policy: RetentionPolicy, i: nat)
    requires UniqueIds(records) && i < |records|
    ensures
      var newer := Retained(records[..i], retries, policy);
      var own := if records[i].id in retries then retries[records[i].id] else 0;
      records[i] in Retained(records, retries, policy) <==>
        || UnderWay(records[i])
        || (TerminalCount(newer) < policy.maxRunRecords
            && (RetryTotal(newer, retries) + own <= policy.maxRetryRecords || RetryTotal(newer, retries) + own == 0))
  {
    RetainedExactly(records, retries, policy, i);
  }
}
