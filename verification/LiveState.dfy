/** The live state of one run: status, stop flags and the retry history. */
module LiveState {
  import opened Wrappers

  datatype Status = Running | Stopping | Succeeded | Failed | SoftFailed | Stopped | Skipped

  predicate Active(status: Status) {
    status in {Running, Stopping}
  }

  type TerminalStatus = s: Status | !Active(s) witness Succeeded

  /** `Unknown` is the status of a record created by a metadata write that found no record. */
  datatype RecordStatus = Known(status: Status) | Unknown

  predicate ActiveRecord(record: RecordStatus) {
    record.Known? && Active(record.status)
  }

  /** One retry segment; `log` stands for everything that is appended to its visible log. */
  datatype Retry = Retry(
    id: string,
    runId: string,
    index: nat,
    status: Status,
    log: seq<string>,
    closed: bool)

  datatype Run = Run(
    id: string,
    status: Status,
    stopRequested: bool,
    forceRequested: bool,
    retries: seq<Retry>)

  // ---------------------------------------------------------------------------
  // Retry ids
  // ---------------------------------------------------------------------------

  function Decimal(n: nat): (text: string)
    ensures |text| > 0
  {
    var digit := [(n % 10) as char + '0'];
    if n < 10 then digit else Decimal(n / 10) + digit
  }

  lemma {:induction false} DecimalInjective(m: nat, n: nat)
    requires Decimal(m) == Decimal(n)
    ensures m == n
  {
    var left, right := Decimal(m), Decimal(n);
    assert left[|left| - 1] == (m % 10) as char + '0';
    assert right[|right| - 1] == (n % 10) as char + '0';
    if m >= 10 && n >= 10 {
      assert left[..|left| - 1] == Decimal(m / 10) && right[..|right| - 1] == Decimal(n / 10);
      DecimalInjective(m / 10, n / 10);
    }
  }

  function RetryId(runId: string, number: nat): string {
    runId + "-" + Decimal(number)
  }

  // ---------------------------------------------------------------------------
  // Operations
  // ---------------------------------------------------------------------------

  predicate HasOpenRetry(run: Run) {
    |run.retries| > 0 && !run.retries[|run.retries| - 1].closed
  }

  function BeginRetry(run: Run): Run {
    var number := |run.retries| + 1;
    run.(retries := run.retries + [Retry(RetryId(run.id, number), run.id, number, Running, [], false)])
  }

  /** Appends to the open retry, opening one as an event sink when there is none. */
  function AppendEvent(run: Run, text: string): (result: Run)
    ensures HasOpenRetry(result)
  {
    var target := if HasOpenRetry(run) then run else BeginRetry(run);
    var last := |target.retries| - 1;
    var retry := target.retries[last];
    target.(retries := target.retries[last := retry.(log := retry.log + [text])])
  }

  function AppendLog(run: Run, position: nat, text: string): Run
    requires position < |run.retries|
  {
    var retry := run.retries[position];
    run.(retries := run.retries[position := retry.(log := retry.log + [text])])
  }

  function SealRetry(run: Run, position: nat, status: Status): Run
    requires position < |run.retries|
  {
    var retry := run.retries[position];
    if retry.closed then run
    else run.(retries := run.retries[position := retry.(status := status, closed := true)])
  }

  function RequestStop(run: Run): Run {
    if !Active(run.status) then run
    else run.(stopRequested := true, status := Stopping)
  }

  function RequestForceStop(run: Run): Run {
    if !Active(run.status) then run
    else run.(stopRequested := true, forceRequested := true, status := Stopping)
  }

  /** The lock section of `stop`: the first request also leaves an event. */
  function StopSection(run: Run, text: string): Run {
    if !Active(run.status) then run
    else RequestStop(if run.stopRequested then run else AppendEvent(run, text))
  }

  function ForceStopSection(run: Run, text: string): Run {
    if !Active(run.status) then run
    else RequestForceStop(if run.forceRequested then run else AppendEvent(run, text))
  }

  function Finish(run: Run, status: TerminalStatus): Run {
    run.(status := status)
  }

  // ---------------------------------------------------------------------------
  // Retry history is append-only
  // ---------------------------------------------------------------------------

  /** Retries are numbered 1..n and named after their run. */
  ghost predicate Numbered(run: Run) {
    forall i :: 0 <= i < |run.retries| ==>
      && run.retries[i].index == i + 1
      && run.retries[i].runId == run.id
      && run.retries[i].id == RetryId(run.id, i + 1)
  }

  predicate SameRetry(left: Retry, right: Retry) {
    left.id == right.id && left.runId == right.runId && left.index == right.index
  }

  /** `after` extends `before`: only the last retry of `before` may differ, and only if it was open. */
  ghost predicate Extends(before: seq<Retry>, after: seq<Retry>) {
    && |before| <= |after|
    && (forall i :: 0 <= i < |before| && (i < |before| - 1 || before[i].closed) ==> after[i] == before[i])
    && (forall i :: 0 <= i < |before| ==> SameRetry(before[i], after[i]) && before[i].log <= after[i].log)
  }

  lemma RetryIdsDistinct(run: Run, i: nat, j: nat)
    requires Numbered(run) && i < |run.retries| && j < |run.retries|
    requires run.retries[i].id == run.retries[j].id
    ensures i == j
  {
    var left, right := RetryId(run.id, i + 1), RetryId(run.id, j + 1);
    assert left[|run.id| + 1..] == Decimal(i + 1) && right[|run.id| + 1..] == Decimal(j + 1);
    DecimalInjective(i + 1, j + 1);
  }

  lemma ExtendsReflexive(a: seq<Retry>)
    ensures Extends(a, a)
  {
  }

  lemma AppendEventExtends(run: Run, text: string)
    requires Numbered(run)
    ensures Numbered(AppendEvent(run, text))
    ensures Extends(run.retries, AppendEvent(run, text).retries)
    ensures AppendEvent(run, text) == run.(retries := AppendEvent(run, text).retries)
  {
  }

  lemma SealLastExtends(run: Run, status: Status)
    requires Numbered(run) && HasOpenRetry(run)
    ensures
      var sealed := SealRetry(run, |run.retries| - 1, status);
      Numbered(sealed) && Extends(run.retries, sealed.retries) && sealed == run.(retries := sealed.retries) && !HasOpenRetry(sealed)
  {
  }

  /** Stop flags only ever rise, force implies stop, and a terminal status is never left. */
  ghost predicate LiveAdvances(before: Run, after: Run) {
    && after.id == before.id
    && (before.stopRequested ==> after.stopRequested)
    && (before.forceRequested ==> after.forceRequested)
    && (before.forceRequested ==> before.stopRequested) && (after.forceRequested ==> after.stopRequested)
    && (!Active(before.status) ==> after.status == before.status)
    && (before.status == Stopping ==> after.status != Running)
    && Extends(before.retries, after.retries)
  }

  lemma StopSectionsAdvance(run: Run, text: string)
    requires Numbered(run) && (run.forceRequested ==> run.stopRequested)
    ensures Numbered(StopSection(run, text)) && LiveAdvances(run, StopSection(run, text))
    ensures Numbered(ForceStopSection(run, text)) && LiveAdvances(run, ForceStopSection(run, text))
    ensures Active(run.status) ==> StopSection(run, text).stopRequested && ForceStopSection(run, text).forceRequested
    ensures !Active(run.status) ==> StopSection(run, text) == ForceStopSection(run, text) == run
  {
    AppendEventExtends(run, text);
  }

  // ---------------------------------------------------------------------------
  // What the operations write
  // ---------------------------------------------------------------------------

  /** A new retry is running, open and empty, and carries the next number. */
  lemma BeginRetryWrites(run: Run)
    ensures
      var after := BeginRetry(run);
      var number := |run.retries| + 1;
      && after == run.(retries := after.retries) && |after.retries| == number && after.retries[..number - 1] == run.retries
      && after.retries[number - 1] == Retry(run.id + "-" + Decimal(number), run.id, number, Running, [], false)
  {
  }

  /** An event is the last text of the last retry, which is the one that was open, or else a new one; nothing else changes. */
  lemma AppendEventWrites(run: Run, text: string)
    ensures
      var after := AppendEvent(run, text);
      var open := run.retries != [] && !run.retries[|run.retries| - 1].closed;
      var last := |after.retries| - 1;
      && after == run.(retries := after.retries)
      && last == (if open then |run.retries| - 1 else |run.retries|) && after.retries[..last] == run.retries[..last]
      && !after.retries[last].closed && after.retries[last].status == (if open then run.retries[last].status else Running)
      && after.retries[last].log == (if open then run.retries[last].log else []) + [text]
  {
  }

  /** Output is the last text of its own retry, and leaves the rest of the run alone. */
  lemma AppendLogWrites(run: Run, position: nat, text: string)
    requires position < |run.retries|
    ensures
      var after := AppendLog(run, position, text);
      && after == run.(retries := after.retries) && |after.retries| == |run.retries|
      && (forall i :: 0 <= i < |run.retries| && i != position ==> after.retries[i] == run.retries[i])
      && after.retries[position] == run.retries[position].(log := run.retries[position].log + [text])
  {
  }

  /** Sealing gives an open retry the status decided for it and closes it; a closed one stays as it was sealed. */
  lemma SealRetryWrites(run: Run, position: nat, status: Status)
    requires position < |run.retries|
    ensures
      var (before, after) := (run.retries[position], SealRetry(run, position, status));
      && after == run.(retries := after.retries) && |after.retries| == |run.retries|
      && (forall i :: 0 <= i < |run.retries| && i != position ==> after.retries[i] == run.retries[i])
      && after.retries[position].closed && after.retries[position].log == before.log
      && after.retries[position].status == (if before.closed then before.status else status)
  {
  }

  /** A request makes an active run stopping and raises its flag; the first one of its kind leaves an event. */
  lemma StopSectionWrites(run: Run, text: string)
    requires Active(run.status)
    ensures
      var after := StopSection(run, text);
      && after.status == Stopping && after.stopRequested && after.forceRequested == run.forceRequested && after.id == run.id
      && after.retries == (if run.stopRequested then run.retries else AppendEvent(run, text).retries)
    ensures
      var after := ForceStopSection(run, text);
      && after.status == Stopping && after.stopRequested && after.forceRequested && after.id == run.id
      && after.retries == (if run.forceRequested then run.retries else AppendEvent(run, text).retries)
  {
  }
}
