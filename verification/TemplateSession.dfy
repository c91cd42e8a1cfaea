/** A log session under a template: the hooks see the block the session itself has under way. */
module TemplateSession {
  import opened Wrappers
  import opened Templates
  import opened LogPipeline
  import opened LogSession
  import opened LogStatus
  import opened TemplateRuntime
  import LogText
  import Patterns
  import TemplateCrashes

  type NamedBlocks = seq<(string, Block)>

  /** What a line brings that does not depend on the session: its text after preprocessing, the metadata flags set on
      it, the name a block it starts would get, and what the translation engine and the fallback make of it. */
  datatype Reading = Reading(
    processed: string,
    flags: set<string>,
    name: string,
    translated: seq<Edit>,
    tone: Option<string>,
    messages: seq<string>,
    status: string)

  /** The block machine, and beside it which block of the template each entry was opened for. */
  datatype Runtime = Runtime(blocks: Blocks, owners: map<nat, ActiveBlock>)

  datatype Running = Running(runtime: Runtime, partials: map<string, Partial>)

  function UnderWay(r: Runtime, source: string): Option<ActiveBlock> {
    if source in r.blocks.active && r.blocks.active[source] in r.owners then Some(r.owners[r.blocks.active[source]]) else None
  }

  function SituationAt(r: Runtime, source: string, reading: Reading): Situation {
    Situation(UnderWay(r, source), reading.flags, reading.processed, reading.translated, reading.tone, reading.messages, reading.status)
  }

  function SituationsAt(r: Runtime, source: string, readings: nat -> Reading): nat -> Situation {
    (n: nat) => SituationAt(r, source, readings(n))
  }

  function HooksAt(template: NamedBlocks, r: Runtime, source: string, readings: nat -> Reading): Hooks {
    HooksOf(template, SituationsAt(r, source, readings))
  }

  function CallNext(template: NamedBlocks, r: Runtime, source: string, call: LogText.Call, readings: nat -> Reading): Runtime {
    var after := ApplyCall(r.blocks, source, call, HooksAt(template, r, source, readings));
    var reading := readings(r.blocks.handled);
    var start := FirstStart(template, source, reading.processed);
    Runtime(after,
      if call.Line? && start.Some? && |after.issued| > |r.blocks.issued|
      then r.owners[|r.blocks.issued| := ActiveBlock(start.value.block, reading.name)] else r.owners)
  }

  function CallsNext(template: NamedBlocks, r: Runtime, source: string, calls: seq<LogText.Call>, readings: nat -> Reading): Runtime
    decreases |calls|
  {
    if calls == [] then r else CallsNext(template, CallNext(template, r, source, calls[0], readings), source, calls[1..], readings)
  }

  function OperationCarry(t: Running, source: string): LogText.Carry {
    CarryOf(Session(t.runtime.blocks, t.partials), source)
  }

  function OperationNext(template: NamedBlocks, t: Running, operation: Operation, readings: nat -> Reading): Running {
    var source := NormalizeSource(operation.source);
    match operation
    case AppendTo(_, text, metadata) =>
      if text == "" then t
      else
        var (carry, calls) := LogText.Append(OperationCarry(t, source), text, metadata);
        Running(CallsNext(template, t.runtime, source, calls, readings), WithPartial(t.partials, source, carry))
    case FlushOf(_) =>
      var r := CallsNext(template, t.runtime, source, FlushCalls(OperationCarry(t, source)), readings);
      Running(Runtime(CloseActive(r.blocks, source, ClosingChange(None)), r.owners), t.partials - {source})
  }

  function RunAll(template: NamedBlocks, t: Running, operations: seq<Operation>, readings: nat -> Reading): Running
    decreases |operations|
  {
    if operations == [] then t else RunAll(template, OperationNext(template, t, operations[0], readings), operations[1..], readings)
  }

  function Fresh(limits: Limits): Running {
    Running(Runtime(Empty(limits).blocks, map[]), map[])
  }

  // ---------------------------------------------------------------------------
  // The lines a session handles
  // ---------------------------------------------------------------------------

  datatype Handled = Handled(before: Runtime, source: string)

  function CallLine(r: Runtime, source: string, call: LogText.Call): seq<Handled> {
    if call.Line? then [Handled(r, source)] else []
  }

  function CallLines(template: NamedBlocks, r: Runtime, source: string, calls: seq<LogText.Call>, readings: nat -> Reading): seq<Handled>
    decreases |calls|
  {
    if calls == [] then []
    else CallLine(r, source, calls[0]) + CallLines(template, CallNext(template, r, source, calls[0], readings), source, calls[1..], readings)
  }

  function OperationLines(template: NamedBlocks, t: Running, operation: Operation, readings: nat -> Reading): seq<Handled> {
    var source := NormalizeSource(operation.source);
    match operation
    case AppendTo(_, text, metadata) =>
      CallLines(template, t.runtime, source, LogText.Append(OperationCarry(t, source), text, metadata).1, readings)
    case FlushOf(_) => CallLines(template, t.runtime, source, FlushCalls(OperationCarry(t, source)), readings)
  }

  /** Every line a session handles, in order, with the state it meets. */
  function Lines(template: NamedBlocks, t: Running, operations: seq<Operation>, readings: nat -> Reading): seq<Handled>
    decreases |operations|
  {
    if operations == [] then []
    else OperationLines(template, t, operations[0], readings)
         + Lines(template, OperationNext(template, t, operations[0], readings), operations[1..], readings)
  }

  // ---------------------------------------------------------------------------
  // The block under way
  // ---------------------------------------------------------------------------

  predicate OpensWith(template: NamedBlocks, source: string, line: string, block: Block) {
    var start := FirstStart(template, source, line);
    line != "" && start.Some? && start.value.block == block && start.value.boundary.atStart
  }

  /** A line of this source can start the block. */
  ghost predicate StartedBy(template: NamedBlocks, source: string, block: Block) {
    exists line :: OpensWith(template, source, line, block)
  }

  /** The block under way is known, and was started by a line of its own source. */
  ghost predicate Known(template: NamedBlocks, r: Runtime) {
    && StatusOk(r.blocks)
    && forall source :: source in r.blocks.active ==>
         r.blocks.active[source] in r.owners && StartedBy(template, source, r.owners[r.blocks.active[source]].block)
  }

  /** After a line the source has the block it had, or one the line has started. */
  lemma LineActive(b: Blocks, source: string, d: Decision)
    ensures
      var after := DecideLine(b, source, d);
      source in after.active ==>
        || (source in b.active && after.active[source] == b.active[source])
        || (d.processed != "" && d.start.Some? && d.start.value.keepActive && after.active[source] == |b.issued| && |after.issued| > |b.issued|)
  {
    StartGrows(b, source, d);
    StartGrows(CloseActive(b, source, d.closing), source, d);
  }

  lemma StartGrows(b: Blocks, source: string, d: Decision)
    ensures |CloseActive(b, source, d.closing).issued| == |b.issued|
    ensures
      var after := PlaceLine(b, source, d);
      source in after.active ==>
        || (source in b.active && after.active[source] == b.active[source])
        || (d.start.Some? && d.start.value.keepActive && after.active[source] == |b.issued| && |after.issued| == |b.issued| + 1)
  {
  }

  lemma LineNext(template: NamedBlocks, r: Runtime, source: string, text: string, metadata: LogText.Metadata, readings: nat -> Reading)
    ensures
      var d := Decide(template, SituationAt(r, source, readings(r.blocks.handled)), source, text);
      CallNext(template, r, source, LogText.Line(text, metadata), readings).blocks ==
        DecideLine(r.blocks, source, d).(handled := r.blocks.handled + 1)
  {
    var d := Decide(template, SituationAt(r, source, readings(r.blocks.handled)), source, text);
    assert HooksAt(template, r, source, readings)(r.blocks.handled, source, text, metadata) == d;
  }

  lemma LineKnown(template: NamedBlocks, r: Runtime, source: string, text: string, metadata: LogText.Metadata, readings: nat -> Reading)
    requires Known(template, r)
    requires StatusOk(CallNext(template, r, source, LogText.Line(text, metadata), readings).blocks)
    ensures Known(template, CallNext(template, r, source, LogText.Line(text, metadata), readings))
  {
    var reading := readings(r.blocks.handled);
    var d := Decide(template, SituationAt(r, source, reading), source, text);
    var next := CallNext(template, r, source, LogText.Line(text, metadata), readings);
    var start := FirstStart(template, source, reading.processed);
    LineNext(template, r, source, text, metadata, readings);
    LineActive(r.blocks, source, d);
    OthersActive(r.blocks, next.blocks, source);
    if start.Some? && start.value.boundary.atStart && reading.processed != "" {
      assert OpensWith(template, source, reading.processed, start.value.block);
    }
    KnownAfter(template, r, next, source);
  }

  /** The other sources keep their blocks; this one has its old block or one just opened. */
  lemma KnownAfter(template: NamedBlocks, r: Runtime, next: Runtime, source: string)
    requires Known(template, r) && StatusOk(next.blocks)
    requires forall other :: other != source && other in next.blocks.active ==>
      other in r.blocks.active && next.blocks.active[other] == r.blocks.active[other]
    requires forall i :: i in r.owners && i < |r.blocks.issued| ==> i in next.owners && next.owners[i] == r.owners[i]
    requires source in next.blocks.active ==>
      || (source in r.blocks.active && next.blocks.active[source] == r.blocks.active[source])
      || (next.blocks.active[source] in next.owners && StartedBy(template, source, next.owners[next.blocks.active[source]].block))
    ensures Known(template, next)
  {
    forall other | other in next.blocks.active
      ensures next.blocks.active[other] in next.owners && StartedBy(template, other, next.owners[next.blocks.active[other]].block)
    {
      if other in r.blocks.active { assert r.blocks.active[other] < |r.blocks.issued|; }
    }
  }

  lemma OthersActive(b: Blocks, after: Blocks, source: string)
    requires after.active - {source} == b.active - {source}
    ensures forall other :: other != source && other in after.active ==> other in b.active && after.active[other] == b.active[other]
  {
    forall other | other != source && other in after.active ensures other in b.active && after.active[other] == b.active[other] {
      assert other in after.active - {source} && other in b.active - {source};
      assert (after.active - {source})[other] == (b.active - {source})[other];
    }
  }

  predicate LineLeavesRunning(template: NamedBlocks, line: Handled, readings: nat -> Reading, i: nat) {
    TemplateLeaves(template, SituationAt(line.before, line.source, readings(line.before.blocks.handled)), line.before.blocks, line.source, i)
  }

  predicate SomeLeaves(template: NamedBlocks, lines: seq<Handled>, readings: nat -> Reading, i: nat) {
    exists k :: 0 <= k < |lines| && LineLeavesRunning(template, lines[k], readings, i)
  }

  lemma SomeLeavesJoined(template: NamedBlocks, first: seq<Handled>, second: seq<Handled>, readings: nat -> Reading, i: nat)
    ensures SomeLeaves(template, first + second, readings, i) <==> SomeLeaves(template, first, readings, i) || SomeLeaves(template, second, readings, i)
  {
    var all := first + second;
    if SomeLeaves(template, first, readings, i) {
      var k :| 0 <= k < |first| && LineLeavesRunning(template, first[k], readings, i);
      assert all[k] == first[k];
    }
    if SomeLeaves(template, second, readings, i) {
      var k :| 0 <= k < |second| && LineLeavesRunning(template, second[k], readings, i);
      assert all[|first| + k] == second[k];
    }
  }

  /** One call keeps track of the block under way, and leaves running what the template makes it leave. */
  lemma CallStep(template: NamedBlocks, r: Runtime, source: string, call: LogText.Call, readings: nat -> Reading, i: nat)
    requires Known(template, r)
    ensures
      var next := CallNext(template, r, source, call, readings);
      && Known(template, next)
      && (SaysRunning(next.blocks, i) <==> SaysRunning(r.blocks, i) || SomeLeaves(template, CallLine(r, source, call), readings, i))
  {
    var hooks := HooksAt(template, r, source, readings);
    var situations := SituationsAt(r, source, readings);
    TemplateHooksOk(template, situations);
    CallStatus(r.blocks, source, call, hooks, i);
    match call
    case Line(text, metadata) =>
      LineKnown(template, r, source, text, metadata, readings);
      DecisionLeaves(template, situations(r.blocks.handled), r.blocks, source, text, i);
      assert CallLine(r, source, call)[0] == Handled(r, source);
    case Update(text, _) =>
    case Finalize =>
  }

  lemma {:induction false} CallsStep(template: NamedBlocks, r: Runtime, source: string, calls: seq<LogText.Call>, readings: nat -> Reading, i: nat)
    requires Known(template, r)
    ensures
      var after := CallsNext(template, r, source, calls, readings);
      && Known(template, after)
      && (SaysRunning(after.blocks, i) <==> SaysRunning(r.blocks, i) || SomeLeaves(template, CallLines(template, r, source, calls, readings), readings, i))
    decreases |calls|
  {
    if calls != [] {
      var next := CallNext(template, r, source, calls[0], readings);
      CallStep(template, r, source, calls[0], readings, i);
      CallsStep(template, next, source, calls[1..], readings, i);
      SomeLeavesJoined(template, CallLine(r, source, calls[0]), CallLines(template, next, source, calls[1..], readings), readings, i);
    }
  }

  lemma OperationStep(template: NamedBlocks, t: Running, operation: Operation, readings: nat -> Reading, i: nat)
    requires Known(template, t.runtime)
    ensures
      var after := OperationNext(template, t, operation, readings).runtime;
      && Known(template, after)
      && (SaysRunning(after.blocks, i) <==> SaysRunning(t.runtime.blocks, i) || SomeLeaves(template, OperationLines(template, t, operation, readings), readings, i))
  {
    var source := NormalizeSource(operation.source);
    match operation
    case AppendTo(_, text, metadata) =>
      CallsStep(template, t.runtime, source, LogText.Append(OperationCarry(t, source), text, metadata).1, readings, i);
    case FlushOf(_) =>
      var calls := FlushCalls(OperationCarry(t, source));
      CallsStep(template, t.runtime, source, calls, readings, i);
      FlushStep(template, CallsNext(template, t.runtime, source, calls, readings), source, i);
  }

  /** A flush settles what it closes. */
  lemma FlushStep(template: NamedBlocks, r: Runtime, source: string, i: nat)
    requires Known(template, r)
    ensures
      var after := Runtime(CloseActive(r.blocks, source, ClosingChange(None)), r.owners);
      Known(template, after) && (SaysRunning(after.blocks, i) <==> SaysRunning(r.blocks, i))
  {
    CloseStatus(r.blocks, source, ClosingChange(None));
    OthersActive(r.blocks, CloseActive(r.blocks, source, ClosingChange(None)), source);
  }

  lemma {:induction false} OperationsStep(template: NamedBlocks, t: Running, operations: seq<Operation>, readings: nat -> Reading, i: nat)
    requires Known(template, t.runtime)
    ensures
      var after := RunAll(template, t, operations, readings).runtime;
      && Known(template, after)
      && (SaysRunning(after.blocks, i) <==> SaysRunning(t.runtime.blocks, i) || SomeLeaves(template, Lines(template, t, operations, readings), readings, i))
    decreases |operations|
  {
    if operations != [] {
      var next := OperationNext(template, t, operations[0], readings);
      OperationStep(template, t, operations[0], readings, i);
      OperationsStep(template, next, operations[1..], readings, i);
      SomeLeavesJoined(template, OperationLines(template, t, operations[0], readings), Lines(template, next, operations[1..], readings), readings, i);
    }
  }

  /** In every session under a template, the block a hook sees as under way is the one the template opened for the
      session's active entry. A closed entry says running exactly if some line left it so: its block was closed by a rule
      that says running, or by one that says nothing while it was running, and that rule may be the start rule of the
      next block; or an end rule opened a block that was running when it closed at once; or the line belongs to no block
      and brought that status. Neither a flush nor a metadata boundary leaves one so. */
  lemma ClosedRunningUnderTemplate(template: NamedBlocks, limits: Limits, operations: seq<Operation>, readings: nat -> Reading, i: nat)
    ensures
      var after := RunAll(template, Fresh(limits), operations, readings).runtime;
      && (forall source :: source in after.blocks.active ==> UnderWay(after, source).Some?)
      && (SaysRunning(after.blocks, i) <==> SomeLeaves(template, Lines(template, Fresh(limits), operations, readings), readings, i))
  {
    OperationsStep(template, Fresh(limits), operations, readings, i);
  }

  // ---------------------------------------------------------------------------
  // Sessions of single lines
  // ---------------------------------------------------------------------------

  const ONE_LINE := "S\n"

  lemma OneLine(template: NamedBlocks, t: Running, source: string, readings: nat -> Reading)
    requires NormalizeSource(source) == source && source !in t.partials && source !in t.runtime.blocks.terminals
    ensures
      var line := AppendTo(source, ONE_LINE, map[]);
      && OperationNext(template, t, line, readings) ==
           Running(CallNext(template, t.runtime, source, LogText.Line("S", map[]), readings), t.partials)
      && OperationLines(template, t, line, readings) == [Handled(t.runtime, source)]
  {
    var call := LogText.Line("S", map[]);
    LineCalls();
    assert OperationCarry(t, source) == LogText.Carry("", map[], false);
    var next := CallNext(template, t.runtime, source, call, readings);
    assert CallsNext(template, t.runtime, source, [call], readings) == CallsNext(template, next, source, [], readings) == next;
    assert CallLines(template, t.runtime, source, [call], readings) ==
      CallLine(t.runtime, source, call) + CallLines(template, next, source, [], readings);
    assert t.partials - {source} == t.partials;
  }

  lemma LineCalls()
    ensures LogText.Append(LogText.Carry("", map[], false), "S\n", map[]) == (LogText.Carry("", map[], false), [LogText.Line("S", map[])])
  {
    var text, none: LogText.Metadata := "S\n", map[];
    var calls := [LogText.Line("S", none)];
    assert "" + text == text && text[1..] == "\n" && "\n"[1..] == "" && "" + [text[0]] == "S" && text[0] == 'S';
    assert LogText.ScanFrom("\n", "S", false, none) == LogText.Scan("", false, calls) by {
      assert calls + [] == calls;
      assert LogText.ScanFrom("", "", false, none) == LogText.Scan("", false, []);
    }
    assert !LogText.StartsCrLf(text) && LogText.ScanFrom(text, "", false, none) == LogText.ScanFrom("\n", "S", false, none);
  }

  // ---------------------------------------------------------------------------
  // A superseded block
  // ---------------------------------------------------------------------------

  /** A block that starts with the line "S" and is running from then on. */
  function RunningBlock(): Block {
    var rule := BoundaryRule("out", Pattern("S", [Patterns.Char('S')]), [("status", Str("running"))], false, None, "default");
    Block(BlockParts([], [("begin", rule)], [], []),
          BlockWords("block", "", "default", "default", "default", None, []),
          BlockFlags(false, false, false, 0, false, None))
  }

  const ONE_BLOCK: NamedBlocks := [("b", RunningBlock())]

  /** Every line reads "S". */
  function ReadsS(n: nat): Reading {
    Reading("S", {}, "", [], None, ["S"], "default")
  }

  lemma LetterMatches()
    ensures Patterns.Match([Patterns.Char('S')], "S") == Some(["S"])
  {
    var tokens := [Patterns.Char('S')];
    assert tokens[1..] == [] && "S"[..1] == "S" && "S"[1..] == "";
    assert Patterns.Match(tokens[1..], "S"[1..]) == Some([]);
    assert ["S"] + [] == ["S"];
    assert Patterns.TryLengths(tokens, "S", 1) == Some(["S"]);
  }

  lemma PiecesOfLetter(pattern: Pattern)
    requires pattern.tokens == [Patterns.Char('S')]
    ensures CapturesOf(pattern, "S").Some?
  {
    LetterMatches();
  }

  lemma StartsRunning()
    ensures
      var start := FirstStart(ONE_BLOCK, "out", "S");
      && start.Some? && start.value.block == RunningBlock() && start.value.boundary.atStart
      && RuleStatus(start.value.boundary.rule) == Some("running")
  {
    var rule := RunningBlock().parts.start[0].1;
    LetterMatches();
    PiecesOfLetter(rule.pattern);
    assert RuleMatches(rule, "out", "S");
    assert Get(rule.values, "status") == Str("running");
  }

  lemma DecidesRunning(r: Runtime, raw: string)
    requires UnderWay(r, "out").Some? ==> UnderWay(r, "out").value.block == RunningBlock()
    ensures
      var d := Decide(ONE_BLOCK, SituationAt(r, "out", ReadsS(r.blocks.handled)), "out", raw);
      && d.processed == "S" && d.endMatch.None? && !d.boundary && d.closing.relabel == SetStatus("running")
      && d.start == Some(Start([], true, false, "running"))
  {
    StartsRunning();
  }

  /** Two start lines: the second supersedes the block of the first and leaves it closed and running. */
  lemma SupersededStaysRunning(limits: Limits)
    ensures
      var line := AppendTo("out", ONE_LINE, map[]);
      var after := RunAll(ONE_BLOCK, Fresh(limits), [line, line], ReadsS).runtime;
      SaysRunning(after.blocks, 0) && after.blocks.active == map["out" := 1]
  {
    var line := AppendTo("out", ONE_LINE, map[]);
    var start, call := Fresh(limits), LogText.Line("S", map[]);
    FirstBlock(start.runtime);
    OneLine(ONE_BLOCK, start, "out", ReadsS);
    var first := OperationNext(ONE_BLOCK, start, line, ReadsS);
    SecondBlock(first.runtime);
    OneLine(ONE_BLOCK, first, "out", ReadsS);
    var second := OperationNext(ONE_BLOCK, first, line, ReadsS);
    assert [line, line][1..] == [line] && [line][1..] == [];
    assert RunAll(ONE_BLOCK, start, [line, line], ReadsS) == RunAll(ONE_BLOCK, first, [line], ReadsS) == RunAll(ONE_BLOCK, second, [], ReadsS) == second;
  }

  lemma FirstBlock(r: Runtime)
    requires r.blocks.issued == [] && r.blocks.listed == [] && r.blocks.active == map[] && r.blocks.terminals == map[]
    ensures
      var next := CallNext(ONE_BLOCK, r, "out", LogText.Line("S", map[]), ReadsS);
      && StatusOk(next.blocks) && next.blocks.active == map["out" := 0] && |next.blocks.issued| == 1
      && next.blocks.terminals == map[] && UnderWay(next, "out") == Some(ActiveBlock(RunningBlock(), ""))
  {
    var d := Decide(ONE_BLOCK, SituationAt(r, "out", ReadsS(r.blocks.handled)), "out", "S");
    DecidesRunning(r, "S");
    StartsRunning();
    Starts(r.blocks, d);
    assert HooksAt(ONE_BLOCK, r, "out", ReadsS)(r.blocks.handled, "out", "S", map[]) == d;
  }

  lemma Starts(b: Blocks, d: Decision)
    requires b.issued == [] && b.listed == [] && b.active == map[] && b.terminals == map[]
    requires d.processed == "S" && d.endMatch.None? && !d.boundary && d.start == Some(Start([], true, false, "running"))
    ensures
      var after := DecideLine(b, "out", d);
      StatusOk(after) && after.active == map["out" := 0] && |after.issued| == 1 && after.terminals == map[]
  {
    StartStatus(b, "out", d.start.value);
  }

  lemma SecondBlock(r: Runtime)
    requires StatusOk(r.blocks) && r.blocks.active == map["out" := 0] && |r.blocks.issued| == 1
    requires UnderWay(r, "out") == Some(ActiveBlock(RunningBlock(), ""))
    ensures
      var next := CallNext(ONE_BLOCK, r, "out", LogText.Line("S", map[]), ReadsS);
      SaysRunning(next.blocks, 0) && next.blocks.active == map["out" := 1]
  {
    var d := Decide(ONE_BLOCK, SituationAt(r, "out", ReadsS(r.blocks.handled)), "out", "S");
    DecidesRunning(r, "S");
    Supersedes(r.blocks, d);
    assert HooksAt(ONE_BLOCK, r, "out", ReadsS)(r.blocks.handled, "out", "S", map[]) == d;
  }

  lemma Supersedes(b: Blocks, d: Decision)
    requires StatusOk(b) && b.active == map["out" := 0] && |b.issued| == 1
    requires d.processed == "S" && d.endMatch.None? && !d.boundary && d.closing.relabel == SetStatus("running")
    requires d.start == Some(Start([], true, false, "running"))
    ensures
      var after := DecideLine(b, "out", d);
      SaysRunning(after, 0) && after.active == map["out" := 1]
  {
    CloseStatus(b, "out", d.closing);
    var closed := CloseActive(b, "out", d.closing);
    assert SaysRunning(closed, 0);
    StartStatus(closed, "out", d.start.value);
  }
}
