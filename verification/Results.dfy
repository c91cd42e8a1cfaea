/** Task results read off the process log: which planned task a log line is about, and how it ended. */
module Results {
  import opened Wrappers
  import opened Policy

  datatype Descriptor = Descriptor(taskId: string, sourceName: string)

  datatype TaskEvent = Started | Completed | Errored | Stopped

  datatype LineEvent = Interrupted | TaskLine(sourceName: string, event: TaskEvent) | OtherLine

  /** One result; `position` is the expected task it was attributed to, if any. */
  datatype TaskResult = TaskResult(taskId: string, sourceName: string, status: TaskStatus, position: Option<nat>)

  datatype Collected = Collected(expectedIndex: nat, results: seq<TaskResult>, active: map<string, nat>)

  const NOTHING := Collected(0, [], map[])

  function StatusAfter(event: TaskEvent): TaskStatus {
    match event
    case Started => Running
    case Completed => Succeeded
    case Errored => Failed
    case Stopped => TaskStatus.Stopped
  }

  /** The first expected task of this source from the index on. */
  function NextExpected(expected: seq<Descriptor>, index: nat, source: string): (found: Option<nat>)
    ensures found.Some? ==> index <= found.value < |expected| && expected[found.value].sourceName == source
    ensures found.Some? ==> forall k :: index <= k < found.value ==> expected[k].sourceName != source
    ensures found.None? ==> forall k :: index <= k < |expected| ==> expected[k].sourceName != source
    decreases |expected| - index
  {
    if index >= |expected| then None
    else if expected[index].sourceName == source then Some(index)
    else NextExpected(expected, index + 1, source)
  }

  function Attributed(expected: seq<Descriptor>, found: Option<nat>, source: string, status: TaskStatus): TaskResult
    requires found.Some? ==> found.value < |expected|
  {
    TaskResult(if found.Some? then expected[found.value].taskId else "", source, status, found)
  }

  function Opened(expected: seq<Descriptor>, c: Collected, source: string, status: TaskStatus): Collected {
    var found := NextExpected(expected, c.expectedIndex, source);
    Collected(if found.Some? then found.value + 1 else c.expectedIndex,
              c.results + [Attributed(expected, found, source, status)], c.active)
  }

  function WithStatus(results: seq<TaskResult>, positions: set<nat>, status: TaskStatus): seq<TaskResult> {
    seq(|results|, i requires 0 <= i < |results| => if i in positions then results[i].(status := status) else results[i])
  }

  function Consumed(expected: seq<Descriptor>, c: Collected, line: LineEvent): Collected {
    match line
    case OtherLine => c
    case Interrupted => c.(results := WithStatus(c.results, c.active.Values, Unfinished), active := map[])
    case TaskLine(source, event) =>
      var status := StatusAfter(event);
      if status == Running then Opened(expected, c, source, Running).(active := c.active[source := |c.results|])
      else if source in c.active then
        c.(results := WithStatus(c.results, {c.active[source]}, status), active := c.active - {source})
      else Opened(expected, c, source, status)
  }

  function ConsumedAll(expected: seq<Descriptor>, c: Collected, lines: seq<LineEvent>): Collected
    decreases |lines|
  {
    if lines == [] then c else ConsumedAll(expected, Consumed(expected, c, lines[0]), lines[1..])
  }

  /** The end of the log: whatever is still active is unfinished. */
  function Ended(c: Collected): Collected {
    var running := set i | i in c.active.Values && i < |c.results| && c.results[i].status == Running;
    c.(results := WithStatus(c.results, running, Unfinished), active := map[])
  }

  /** The last result of a task is the one that counts. */
  function LastStatus(results: seq<TaskResult>, id: string): TaskStatus {
    if results == [] then Missing
    else if results[|results| - 1].taskId == id then results[|results| - 1].status
    else LastStatus(results[..|results| - 1], id)
  }

  function StatusByTaskId(results: seq<TaskResult>, ids: seq<string>): Statuses {
    map id | id in ids :: LastStatus(results, id)
  }

  // ---------------------------------------------------------------------------
  // Attribution
  // ---------------------------------------------------------------------------

  predicate ResultOk(expected: seq<Descriptor>, result: TaskResult, index: nat) {
    if result.position.Some? then
      && result.position.value < index && result.position.value < |expected|
      && expected[result.position.value] == Descriptor(result.taskId, result.sourceName)
    else result.taskId == ""
  }

  /** Results are attributed to expected tasks of their source, in the expected order, each at most once. */
  ghost predicate ResultsOk(expected: seq<Descriptor>, results: seq<TaskResult>, index: nat) {
    && (forall i :: 0 <= i < |results| ==> ResultOk(expected, results[i], index))
    && (forall i, j :: 0 <= i < j < |results| && results[i].position.Some? && results[j].position.Some? ==>
         results[i].position.value < results[j].position.value)
  }

  /** An active result is running and of its source. */
  ghost predicate ActiveOk(results: seq<TaskResult>, active: map<string, nat>) {
    forall source :: source in active ==>
      active[source] < |results| && results[active[source]].status == Running && results[active[source]].sourceName == source
  }

  ghost predicate CollectorOk(expected: seq<Descriptor>, c: Collected) {
    ResultsOk(expected, c.results, c.expectedIndex) && ActiveOk(c.results, c.active)
  }

  lemma OpenedOk(expected: seq<Descriptor>, c: Collected, source: string, status: TaskStatus)
    requires CollectorOk(expected, c)
    ensures CollectorOk(expected, Opened(expected, c, source, status))
  {
  }

  lemma WithStatusOk(expected: seq<Descriptor>, results: seq<TaskResult>, index: nat, positions: set<nat>, status: TaskStatus)
    requires ResultsOk(expected, results, index)
    ensures ResultsOk(expected, WithStatus(results, positions, status), index)
  {
  }

  lemma EndedOk(results: seq<TaskResult>, active: map<string, nat>, source: string, status: TaskStatus)
    requires ActiveOk(results, active) && source in active
    ensures ActiveOk(WithStatus(results, {active[source]}, status), active - {source})
  {
  }

  lemma StartedOk(expected: seq<Descriptor>, c: Collected, source: string)
    requires CollectorOk(expected, c)
    ensures CollectorOk(expected, Consumed(expected, c, TaskLine(source, Started)))
  {
  }

  lemma ConsumedOk(expected: seq<Descriptor>, c: Collected, line: LineEvent)
    requires CollectorOk(expected, c)
    ensures CollectorOk(expected, Consumed(expected, c, line))
  {
    match line
    case OtherLine =>
    case Interrupted => WithStatusOk(expected, c.results, c.expectedIndex, c.active.Values, Unfinished);
    case TaskLine(source, event) =>
      if event == Started {
        StartedOk(expected, c, source);
      } else {
        EndLineOk(expected, c, source, event);
      }
  }

  lemma EndLineOk(expected: seq<Descriptor>, c: Collected, source: string, event: TaskEvent)
    requires CollectorOk(expected, c) && event != Started
    ensures CollectorOk(expected, Consumed(expected, c, TaskLine(source, event)))
  {
    if source in c.active {
      WithStatusOk(expected, c.results, c.expectedIndex, {c.active[source]}, StatusAfter(event));
      EndedOk(c.results, c.active, source, StatusAfter(event));
    } else {
      OpenedOk(expected, c, source, StatusAfter(event));
    }
  }

  /** Over every log, attribution follows the plan: in order, by source, and no planned task twice. */
  lemma {:induction false} LogAttribution(expected: seq<Descriptor>, c: Collected, lines: seq<LineEvent>)
    requires CollectorOk(expected, c)
    ensures CollectorOk(expected, ConsumedAll(expected, c, lines))
    decreases |lines|
  {
    if lines != [] {
      ConsumedOk(expected, c, lines[0]);
      LogAttribution(expected, Consumed(expected, c, lines[0]), lines[1..]);
    }
  }

  // ---------------------------------------------------------------------------
  // A log that runs the plan in order
  // ---------------------------------------------------------------------------

  /** Each of these tasks is started and then ends with its event. */
  function OrderlyLog(expected: seq<Descriptor>, from: nat, ends: seq<TaskEvent>): seq<LineEvent>
    requires from + |ends| <= |expected|
    decreases |ends|
  {
    if ends == [] then []
    else [TaskLine(expected[from].sourceName, Started), TaskLine(expected[from].sourceName, ends[0])] +
         OrderlyLog(expected, from + 1, ends[1..])
  }

  /** How a task has ended, by the event that ended it. */
  predicate EndedBy(event: TaskEvent, status: TaskStatus) {
    match event
    case Completed => status == Succeeded
    case Errored => status == Failed
    case Stopped => status == TaskStatus.Stopped
    case Started => status == Running
  }

  function OrderlyResults(expected: seq<Descriptor>, from: nat, ends: seq<TaskEvent>): seq<TaskResult>
    requires from + |ends| <= |expected|
    decreases |ends|
  {
    if ends == [] then []
    else [TaskResult(expected[from].taskId, expected[from].sourceName, StatusAfter(ends[0]), Some(from))] +
         OrderlyResults(expected, from + 1, ends[1..])
  }

  lemma StartThenEnd(expected: seq<Descriptor>, c: Collected, event: TaskEvent)
    requires c.expectedIndex < |expected| && c.active == map[] && event != Started
    ensures
      var task := expected[c.expectedIndex];
      var started := Consumed(expected, c, TaskLine(task.sourceName, Started));
      Consumed(expected, started, TaskLine(task.sourceName, event)) ==
        Collected(c.expectedIndex + 1,
                  c.results + [TaskResult(task.taskId, task.sourceName, StatusAfter(event), Some(c.expectedIndex))], map[])
  {
  }

  /** A log that runs a prefix of the plan task by task is attributed exactly, sources repeated or not. */
  lemma {:induction false} OrderlyLogIsExact(expected: seq<Descriptor>, c: Collected, ends: seq<TaskEvent>)
    requires c.expectedIndex + |ends| <= |expected| && c.active == map[]
    requires forall i :: 0 <= i < |ends| ==> ends[i] != Started
    ensures ConsumedAll(expected, c, OrderlyLog(expected, c.expectedIndex, ends)) ==
      Collected(c.expectedIndex + |ends|, c.results + OrderlyResults(expected, c.expectedIndex, ends), map[])
    decreases |ends|
  {
    if ends == [] {
      assert c.results + [] == c.results;
    } else {
      var source := expected[c.expectedIndex].sourceName;
      var lines := OrderlyLog(expected, c.expectedIndex, ends);
      var rest := OrderlyLog(expected, c.expectedIndex + 1, ends[1..]);
      var first := TaskResult(expected[c.expectedIndex].taskId, source, StatusAfter(ends[0]), Some(c.expectedIndex));
      StartThenEnd(expected, c, ends[0]);
      var next := Collected(c.expectedIndex + 1, c.results + [first], map[]);
      assert lines[1..][1..] == rest && lines[1..][0] == TaskLine(source, ends[0]);
      OrderlyLogIsExact(expected, next, ends[1..]);
      AppendAssociative(c.results, first, OrderlyResults(expected, c.expectedIndex + 1, ends[1..]));
    }
  }

  lemma AppendAssociative(results: seq<TaskResult>, first: TaskResult, tail: seq<TaskResult>)
    ensures (results + [first]) + tail == results + ([first] + tail)
  {
  }

  lemma {:induction false} OrderlyResultAt(expected: seq<Descriptor>, from: nat, ends: seq<TaskEvent>, i: nat)
    requires from + |ends| <= |expected| && i < |ends|
    ensures
      var results := OrderlyResults(expected, from, ends);
      |results| == |ends| &&
      results[i] == TaskResult(expected[from + i].taskId, expected[from + i].sourceName, StatusAfter(ends[i]), Some(from + i))
    decreases |ends|
  {
    if i > 0 {
      OrderlyResultAt(expected, from + 1, ends[1..], i - 1);
    } else if |ends| > 1 {
      OrderlyResultAt(expected, from + 1, ends[1..], 0);
    }
  }

  lemma {:induction false} LastStatusIs(results: seq<TaskResult>, id: string, i: nat)
    requires i < |results| && results[i].taskId == id
    requires forall j :: i < j < |results| ==> results[j].taskId != id
    ensures LastStatus(results, id) == results[i].status
  {
    if i < |results| - 1 { LastStatusIs(results[..|results| - 1], id, i); }
  }

  lemma {:induction false} LastStatusMissing(results: seq<TaskResult>, id: string)
    requires forall j :: 0 <= j < |results| ==> results[j].taskId != id
    ensures LastStatus(results, id) == Missing
  {
    if results != [] { LastStatusMissing(results[..|results| - 1], id); }
  }

  /** After such a log there is one result for each task reached, in order, with the status its end gives it. */
  lemma OrderlyResultsExactly(expected: seq<Descriptor>, ends: seq<TaskEvent>, i: nat)
    requires i < |ends| <= |expected| && forall k :: 0 <= k < |ends| ==> ends[k] != Started
    ensures
      var results := ConsumedAll(expected, NOTHING, OrderlyLog(expected, 0, ends)).results;
      && |results| == |ends| && results[i].taskId == expected[i].taskId && results[i].sourceName == expected[i].sourceName
      && results[i].position == Some(i) && EndedBy(ends[i], results[i].status)
  {
    OrderlyLogIsExact(expected, NOTHING, ends);
    OrderlyResultAt(expected, 0, ends, i);
    assert [] + OrderlyResults(expected, 0, ends) == OrderlyResults(expected, 0, ends);
  }

  lemma OrderlyLast(expected: seq<Descriptor>, ends: seq<TaskEvent>, i: nat)
    requires |ends| <= |expected| && i < |expected|
    requires forall k :: 0 <= k < |ends| ==> ends[k] != Started
    requires forall j, k :: 0 <= j < k < |expected| ==> expected[j].taskId != expected[k].taskId
    ensures
      var end := Ended(ConsumedAll(expected, NOTHING, OrderlyLog(expected, 0, ends)));
      LastStatus(end.results, expected[i].taskId) == if i < |ends| then StatusAfter(ends[i]) else Missing
  {
    OrderlyLogIsExact(expected, NOTHING, ends);
    var results := OrderlyResults(expected, 0, ends);
    assert [] + results == results;
    var end := Ended(ConsumedAll(expected, NOTHING, OrderlyLog(expected, 0, ends)));
    assert end.results == results;
    forall k | 0 <= k < |results|
      ensures |results| == |ends| && results[k].taskId == expected[k].taskId && results[k].status == StatusAfter(ends[k])
    {
      if k < |ends| { OrderlyResultAt(expected, 0, ends, k); }
      if ends != [] { OrderlyResultAt(expected, 0, ends, 0); }
    }
    if i < |ends| {
      OrderlyResultAt(expected, 0, ends, i);
      LastStatusIs(results, expected[i].taskId, i);
    } else {
      LastStatusMissing(results, expected[i].taskId);
    }
  }

  /** After such a log a planned task has succeeded exactly if it ended by completing, failed exactly if by an error,
      stopped exactly if by being stopped, and is missing exactly if it was never reached. */
  lemma OrderlyStatuses(expected: seq<Descriptor>, ends: seq<TaskEvent>, i: nat)
    requires |ends| <= |expected| && i < |expected|
    requires forall k :: 0 <= k < |ends| ==> ends[k] != Started
    requires forall j, k :: 0 <= j < k < |expected| ==> expected[j].taskId != expected[k].taskId
    ensures
      var end := Ended(ConsumedAll(expected, NOTHING, OrderlyLog(expected, 0, ends)));
      var status := LastStatus(end.results, expected[i].taskId);
      && (status == Succeeded <==> i < |ends| && ends[i] == Completed)
      && (status == Failed <==> i < |ends| && ends[i] == Errored)
      && (status == TaskStatus.Stopped <==> i < |ends| && ends[i] == TaskEvent.Stopped)
      && (status == Missing <==> i >= |ends|)
  {
    OrderlyLast(expected, ends, i);
  }

  // ---------------------------------------------------------------------------
  // Results that stay running
  // ---------------------------------------------------------------------------

  /** The next line that ends everything or is about the source starts it again. */
  predicate Restarts(lines: seq<LineEvent>, source: string) {
    lines != [] &&
    match lines[0]
    case OtherLine => Restarts(lines[1..], source)
    case Interrupted => false
    case TaskLine(named, event) => if named == source then event == Started else Restarts(lines[1..], source)
  }

  /** What becomes of a result that is active when these lines are read. */
  function Fate(lines: seq<LineEvent>, source: string): TaskStatus {
    if lines == [] then Unfinished
    else match lines[0]
      case OtherLine => Fate(lines[1..], source)
      case Interrupted => Unfinished
      case TaskLine(named, event) =>
        if named != source then Fate(lines[1..], source)
        else match event
          case Started => Running
          case Completed => Succeeded
          case Errored => Failed
          case Stopped => TaskStatus.Stopped
  }

  lemma {:induction false} RestartsMeansRunning(lines: seq<LineEvent>, source: string)
    ensures Restarts(lines, source) <==> Fate(lines, source) == Running
    decreases |lines|
  {
    if lines != [] { RestartsMeansRunning(lines[1..], source); }
  }

  lemma ConsumeKeepsRow(expected: seq<Descriptor>, c: Collected, line: LineEvent, j: nat)
    requires CollectorOk(expected, c) && j < |c.results| && j !in c.active.Values
    ensures
      var next := Consumed(expected, c, line);
      j < |next.results| && next.results[j] == c.results[j] && j !in next.active.Values
  {
  }

  /** A row that is not active any more never changes again. */
  lemma {:induction false} FrozenRow(expected: seq<Descriptor>, c: Collected, lines: seq<LineEvent>, j: nat)
    requires CollectorOk(expected, c) && j < |c.results| && j !in c.active.Values
    ensures
      var end := Ended(ConsumedAll(expected, c, lines));
      j < |end.results| && end.results[j] == c.results[j]
    decreases |lines|
  {
    if lines != [] {
      ConsumeKeepsRow(expected, c, lines[0], j);
      ConsumedOk(expected, c, lines[0]);
      FrozenRow(expected, Consumed(expected, c, lines[0]), lines[1..], j);
    }
  }

  /** A line about another source leaves the active row of this one alone. */
  lemma OtherSourceKeepsRow(expected: seq<Descriptor>, c: Collected, line: LineEvent, source: string)
    requires CollectorOk(expected, c) && source in c.active && !line.Interrupted? && (line.TaskLine? ==> line.sourceName != source)
    ensures
      var next := Consumed(expected, c, line);
      && source in next.active && next.active[source] == c.active[source]
      && c.active[source] < |next.results| && next.results[c.active[source]] == c.results[c.active[source]]
  {
  }

  /** The line that decides about the active row of its source. */
  lemma DecidingLine(expected: seq<Descriptor>, c: Collected, line: LineEvent, source: string)
    requires CollectorOk(expected, c) && source in c.active && (line.Interrupted? || (line.TaskLine? && line.sourceName == source))
    ensures
      var next := Consumed(expected, c, line);
      var j := c.active[source];
      && j < |next.results| && j !in next.active.Values
      && next.results[j].status == Fate([line], source) && next.results[j].sourceName == source
  {
    assert forall other :: other in c.active && other != source ==> c.active[other] != c.active[source];
  }

  lemma {:induction false} ActiveRowEnds(expected: seq<Descriptor>, c: Collected, lines: seq<LineEvent>, source: string)
    requires CollectorOk(expected, c) && source in c.active
    ensures
      var end := Ended(ConsumedAll(expected, c, lines));
      && c.active[source] < |end.results| && end.results[c.active[source]].status == Fate(lines, source)
      && end.results[c.active[source]].sourceName == source
    decreases |lines|
  {
    if lines != [] {
      var next := Consumed(expected, c, lines[0]);
      ConsumedOk(expected, c, lines[0]);
      if lines[0].Interrupted? || (lines[0].TaskLine? && lines[0].sourceName == source) {
        DecidingLine(expected, c, lines[0], source);
        FrozenRow(expected, next, lines[1..], c.active[source]);
      } else {
        OtherSourceKeepsRow(expected, c, lines[0], source);
        ActiveRowEnds(expected, next, lines[1..], source);
      }
    }
  }

  lemma {:induction false} ConsumedConcat(expected: seq<Descriptor>, c: Collected, first: seq<LineEvent>, second: seq<LineEvent>)
    ensures ConsumedAll(expected, c, first + second) == ConsumedAll(expected, ConsumedAll(expected, c, first), second)
    decreases |first|
  {
    if first == [] {
      assert first + second == second;
    } else {
      assert (first + second)[1..] == first[1..] + second;
      ConsumedConcat(expected, Consumed(expected, c, first[0]), first[1..], second);
    }
  }

  function RowsBefore(expected: seq<Descriptor>, log: seq<LineEvent>, k: nat): nat
    requires k <= |log|
  {
    |ConsumedAll(expected, NOTHING, log[..k]).results|
  }

  lemma PrefixStep(expected: seq<Descriptor>, log: seq<LineEvent>, k: nat)
    requires k < |log|
    ensures CollectorOk(expected, ConsumedAll(expected, NOTHING, log[..k]))
    ensures
      var (before, after) := (ConsumedAll(expected, NOTHING, log[..k]), ConsumedAll(expected, NOTHING, log[..k + 1]));
      && after == Consumed(expected, before, log[k])
      && ConsumedAll(expected, NOTHING, log) == ConsumedAll(expected, after, log[k + 1..])
  {
    var before := ConsumedAll(expected, NOTHING, log[..k]);
    LogAttribution(expected, NOTHING, log[..k]);
    assert log[..k + 1] == log[..k] + [log[k]] && log == log[..k + 1] + log[k + 1..];
    ConsumedConcat(expected, NOTHING, log[..k], [log[k]]);
    ConsumedConcat(expected, NOTHING, log[..k + 1], log[k + 1..]);
    assert ConsumedAll(expected, before, [log[k]]) == ConsumedAll(expected, Consumed(expected, before, log[k]), []);
  }

  /** Line `k` opens row `j`. */
  predicate Opens(expected: seq<Descriptor>, log: seq<LineEvent>, k: nat, j: nat)
    requires k < |log|
  {
    log[k].TaskLine? && RowsBefore(expected, log, k) == j && RowsBefore(expected, log, k + 1) == j + 1
  }

  lemma {:induction false} RowIsOpened(expected: seq<Descriptor>, log: seq<LineEvent>, n: nat, j: nat) returns (k: nat)
    requires n <= |log| && j < RowsBefore(expected, log, n)
    ensures k < n && Opens(expected, log, k, j)
  {
    assert log[..0] == [];
    PrefixStep(expected, log, n - 1);
    if j < RowsBefore(expected, log, n - 1) {
      k := RowIsOpened(expected, log, n - 1, j);
    } else {
      k := n - 1;
    }
  }

  /** Row `j` was opened by a start, and the next line that ends everything or is about its source starts it again. */
  ghost predicate RestartedAfter(expected: seq<Descriptor>, log: seq<LineEvent>, j: nat) {
    exists k :: 0 <= k < |log| && Opens(expected, log, k, j) && log[k].event == Started && Restarts(log[k + 1..], log[k].sourceName)
  }

  /** The final status of a result opened by this line. */
  predicate OpenedFate(log: seq<LineEvent>, k: nat, status: TaskStatus)
    requires k < |log| && log[k].TaskLine?
  {
    if log[k].event == Started then status == Fate(log[k + 1..], log[k].sourceName) else EndedBy(log[k].event, status)
  }

  lemma OpenedRowEnds(expected: seq<Descriptor>, log: seq<LineEvent>, k: nat, j: nat)
    requires k < |log| && Opens(expected, log, k, j)
    ensures
      var end := Ended(ConsumedAll(expected, NOTHING, log));
      && j < |end.results| && OpenedFate(log, k, end.results[j].status) && end.results[j].sourceName == log[k].sourceName
  {
    PrefixStep(expected, log, k);
    var before := ConsumedAll(expected, NOTHING, log[..k]);
    var after := Consumed(expected, before, log[k]);
    ConsumedOk(expected, before, log[k]);
    if log[k].event == Started {
      ActiveRowEnds(expected, after, log[k + 1..], log[k].sourceName);
    } else {
      FrozenRow(expected, after, log[k + 1..], j);
    }
  }

  lemma {:induction false} OpensOnce(expected: seq<Descriptor>, log: seq<LineEvent>, k: nat, l: nat)
    requires k <= l <= |log|
    ensures RowsBefore(expected, log, k) <= RowsBefore(expected, log, l)
    decreases l
  {
    if k < l {
      OpensOnce(expected, log, k, l - 1);
      PrefixStep(expected, log, l - 1);
    }
  }

  /** After a whole log, whatever it says, a result has the status of the line that opened it, or if that was a start, of
      the next line that is an interruption or about the same source; it is unfinished if that is an interruption, or if
      there is none. */
  lemma FinalStatusExactly(expected: seq<Descriptor>, log: seq<LineEvent>, j: nat)
    requires j < |ConsumedAll(expected, NOTHING, log).results|
    ensures
      var end := Ended(ConsumedAll(expected, NOTHING, log));
      && j < |end.results|
      && exists k :: 0 <= k < |log| && Opens(expected, log, k, j) && OpenedFate(log, k, end.results[j].status)
                     && end.results[j].sourceName == log[k].sourceName
  {
    assert log[..|log|] == log;
    var k := RowIsOpened(expected, log, |log|, j);
    OpenedRowEnds(expected, log, k, j);
  }

  lemma {:induction false} FateHasLine(lines: seq<LineEvent>, source: string)
    ensures Fate(lines, source) == Succeeded ==> TaskLine(source, Completed) in lines
    ensures Fate(lines, source) == Failed ==> TaskLine(source, Errored) in lines
    ensures Fate(lines, source) == TaskStatus.Stopped ==> TaskLine(source, TaskEvent.Stopped) in lines
    decreases |lines|
  {
    if lines != [] { FateHasLine(lines[1..], source); }
  }

  /** No result says how its task ended unless the log does. */
  lemma StatusIsLogged(expected: seq<Descriptor>, log: seq<LineEvent>, j: nat)
    requires j < |ConsumedAll(expected, NOTHING, log).results|
    ensures
      var end := Ended(ConsumedAll(expected, NOTHING, log));
      j < |end.results| &&
      var result := end.results[j];
      && (result.status == Succeeded ==> TaskLine(result.sourceName, Completed) in log)
      && (result.status == Failed ==> TaskLine(result.sourceName, Errored) in log)
      && (result.status == TaskStatus.Stopped ==> TaskLine(result.sourceName, TaskEvent.Stopped) in log)
  {
    FinalStatusExactly(expected, log, j);
    var status := Ended(ConsumedAll(expected, NOTHING, log)).results[j].status;
    var k :| 0 <= k < |log| && Opens(expected, log, k, j) && OpenedFate(log, k, status)
             && Ended(ConsumedAll(expected, NOTHING, log)).results[j].sourceName == log[k].sourceName;
    FateHasLine(log[k + 1..], log[k].sourceName);
    assert log[k] == TaskLine(log[k].sourceName, log[k].event) && log[k] in log;
    assert forall line :: line in log[k + 1..] ==> line in log;
  }

  lemma OpenedRunning(log: seq<LineEvent>, k: nat, status: TaskStatus)
    requires k < |log| && log[k].TaskLine? && OpenedFate(log, k, status)
    ensures status == Running <==> log[k].event == Started && Restarts(log[k + 1..], log[k].sourceName)
  {
    RestartsMeansRunning(log[k + 1..], log[k].sourceName);
  }

  lemma OnlyOpening(expected: seq<Descriptor>, log: seq<LineEvent>, j: nat, k: nat, l: nat)
    requires k < |log| && l < |log| && Opens(expected, log, k, j) && Opens(expected, log, l, j)
    ensures l == k
  {
    if l < k { OpensOnce(expected, log, l + 1, k); } else if k < l { OpensOnce(expected, log, k + 1, l); }
  }

  /** After a whole log, whatever it says, a result is left running exactly if a start opened it and the next line
      that is an interruption or about the same source is another start. */
  lemma StaysRunningExactly(expected: seq<Descriptor>, log: seq<LineEvent>, j: nat)
    requires j < |ConsumedAll(expected, NOTHING, log).results|
    ensures
      var end := Ended(ConsumedAll(expected, NOTHING, log));
      j < |end.results| && (end.results[j].status == Running <==> RestartedAfter(expected, log, j))
  {
    assert log[..|log|] == log;
    var k := RowIsOpened(expected, log, |log|, j);
    OpenedRowEnds(expected, log, k, j);
    OpenedRunning(log, k, Ended(ConsumedAll(expected, NOTHING, log)).results[j].status);
    forall l | 0 <= l < |log| && Opens(expected, log, l, j) ensures l == k {
      OnlyOpening(expected, log, j, k, l);
    }
  }

  /** That happens when a task starts again before it has ended: the first start is never closed. */
  lemma StartedTwiceStaysRunning()
    ensures
      var expected := [Descriptor("t", "Fight")];
      var start, end := TaskLine("Fight", Started), TaskLine("Fight", Completed);
      LastStatus(Ended(ConsumedAll(expected, NOTHING, [start, start, end])).results, "t") == Running
  {
    var expected := [Descriptor("t", "Fight")];
    var start, end := TaskLine("Fight", Started), TaskLine("Fight", Completed);
    var one := Consumed(expected, NOTHING, start);
    var two := Consumed(expected, one, start);
    var three := Consumed(expected, two, end);
    assert one == Collected(1, [TaskResult("t", "Fight", Running, Some(0))], map["Fight" := 0]);
    assert two.results == [TaskResult("t", "Fight", Running, Some(0)), TaskResult("", "Fight", Running, None)];
    assert two.active == map["Fight" := 1];
    assert three.results == [TaskResult("t", "Fight", Running, Some(0)), TaskResult("", "Fight", Succeeded, None)];
    assert three.active == map[];
    assert [start, start, end][1..] == [start, end] && [start, end][1..] == [end] && [end][1..] == [];
    assert ConsumedAll(expected, NOTHING, [start, start, end]) == ConsumedAll(expected, one, [start, end])
        == ConsumedAll(expected, two, [end]) == ConsumedAll(expected, three, []) == three;
    LastStatusIs(Ended(three).results, "t", 0);
  }

  // ---------------------------------------------------------------------------
  // The mutable collector
  // ---------------------------------------------------------------------------

  lemma WithStatusTwice(results: seq<TaskResult>, done: set<nat>, position: nat, status: TaskStatus)
    ensures WithStatus(WithStatus(results, done, status), {position}, status) == WithStatus(results, done + {position}, status)
  {
  }

  class MaaTaskResultCollector {
    const expectedTasks: seq<Descriptor>
    var expectedIndex: nat
    var results: seq<TaskResult>
    var activeBySource: map<string, nat>

    constructor (expectedTasks: seq<Descriptor>)
      ensures this.expectedTasks == expectedTasks && View() == NOTHING
    {
      this.expectedTasks := expectedTasks;
      expectedIndex, results, activeBySource := 0, [], map[];
    }

    function View(): Collected
      reads this
    {
      Collected(expectedIndex, results, activeBySource)
    }

    method NextExpectedTask(source: string) returns (found: Option<nat>)
      modifies this`expectedIndex
      ensures found == NextExpected(expectedTasks, old(expectedIndex), source)
      ensures expectedIndex == if found.Some? then found.value + 1 else old(expectedIndex)
    {
      var index := expectedIndex;
      while index < |expectedTasks|
        invariant expectedIndex == old(expectedIndex) <= index
        invariant NextExpected(expectedTasks, expectedIndex, source) == NextExpected(expectedTasks, index, source)
        decreases |expectedTasks| - index
      {
        if expectedTasks[index].sourceName == source {
          expectedIndex := index + 1;
          return Some(index);
        }
        index := index + 1;
      }
      return None;
    }

    method Open(source: string, status: TaskStatus)
      modifies this`expectedIndex, this`results
      ensures View() == Opened(expectedTasks, old(View()), source, status)
    {
      var found := NextExpectedTask(source);
      results := results + [Attributed(expectedTasks, found, source, status)];
    }

    method SetStatus(position: nat, status: TaskStatus)
      requires position < |results|
      modifies this`results
      ensures results == WithStatus(old(results), {position}, status)
    {
      results := results[position := results[position].(status := status)];
    }

    /** All active results end with this status, unless they have ended already. */
    method EndActive(status: TaskStatus)
      requires CollectorOk(expectedTasks, View())
      modifies this`results, this`activeBySource
      ensures results == WithStatus(old(results), old(activeBySource).Values, status) && activeBySource == map[]
    {
      var pending := activeBySource.Values;
      ghost var done: set<nat> := {};
      while pending != {}
        invariant done + pending == activeBySource.Values && done !! pending
        invariant forall i :: i in pending ==> i < |results|
        invariant activeBySource == old(activeBySource) && results == WithStatus(old(results), done, status)
        decreases pending
      {
        var position :| position in pending;
        WithStatusTwice(old(results), done, position, status);
        SetStatus(position, status);
        done, pending := done + {position}, pending - {position};
      }
      assert done == old(activeBySource).Values;
      activeBySource := map[];
    }

    method StartTask(source: string)
      modifies this`expectedIndex, this`results, this`activeBySource
      ensures View() == Opened(expectedTasks, old(View()), source, Running).(active := old(activeBySource)[source := |old(results)|])
    {
      Open(source, Running);
      activeBySource := activeBySource[source := |results| - 1];
    }

    method FinishTask(source: string, status: TaskStatus)
      requires source in activeBySource ==> activeBySource[source] < |results|
      modifies this`expectedIndex, this`results, this`activeBySource
      ensures View() ==
        if source in old(activeBySource) then
          Collected(old(expectedIndex), WithStatus(old(results), {old(activeBySource)[source]}, status), old(activeBySource) - {source})
        else Opened(expectedTasks, old(View()), source, status)
    {
      if source in activeBySource {
        SetStatus(activeBySource[source], status);
        activeBySource := activeBySource - {source};
      } else {
        Open(source, status);
      }
    }

    method ConsumeRawLine(stream: string, line: LineEvent)
      requires CollectorOk(expectedTasks, View())
      modifies this`expectedIndex, this`results, this`activeBySource
      ensures CollectorOk(expectedTasks, View())
      ensures View() == if stream == "maa-cli:stderr" then Consumed(expectedTasks, old(View()), line) else old(View())
    {
      if stream != "maa-cli:stderr" { return; }
      ConsumedOk(expectedTasks, View(), line);
      match line
      case OtherLine =>
      case Interrupted => EndActive(Unfinished);
      case TaskLine(source, event) =>
        var status := StatusAfter(event);
        if status == Running {
          StartTask(source);
        } else {
          FinishTask(source, status);
        }
    }

    method Finish()
      requires CollectorOk(expectedTasks, View())
      modifies this`results, this`activeBySource
      ensures View() == Ended(old(View()))
    {
      EndActive(Unfinished);
    }

    /** Later results overwrite earlier ones of the same task. */
    method StatusOfTasks(ids: seq<string>) returns (statuses: Statuses)
      ensures statuses == StatusByTaskId(results, ids)
    {
      var byId: Statuses := map[];
      for i := 0 to |results|
        invariant forall id :: StatusOf(byId, id) == LastStatus(results[..i], id)
      {
        assert results[..i + 1][..i] == results[..i];
        byId := byId[results[i].taskId := results[i].status];
      }
      assert results[..|results|] == results;
      statuses := map id | id in ids :: StatusOf(byId, id);
    }
  }
}
