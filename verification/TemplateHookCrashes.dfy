/** Where the hooks of a template fail: rules that bring a list or a table as a status. */
module TemplateHookCrashes {
  import opened Wrappers
  import opened Templates
  import opened LogPipeline
  import opened LogSession
  import opened LogStatus
  import opened TemplateRuntime
  import opened TemplateSession
  import LogText
  import TemplateCrashes

  /** The hook looks the status of the rule up among the known ones, which fails for a list or a table. */
  predicate BadStatus(rule: BoundaryRule) {
    TemplateCrashes.Unhashable(Get(rule.values, "status"))
  }

  /** The close hook, or the start hook, fails on this line. */
  predicate LineCrashes(template: NamedBlocks, r: Runtime, source: string, reading: Reading) {
    var situation := SituationAt(r, source, reading);
    var closing := ClosingRule(template, situation, source);
    var start := FirstStart(template, source, reading.processed);
    reading.processed != "" &&
    (|| (source in r.blocks.active && closing.Some? && BadStatus(closing.value))
     || ((source in r.blocks.active ==> GoesOn(situation, source)) && start.Some? && BadStatus(start.value.boundary.rule)))
  }

  predicate HandledCrashes(template: NamedBlocks, line: Handled, readings: nat -> Reading) {
    LineCrashes(template, line.before, line.source, readings(line.before.blocks.handled))
  }

  /** Some line of the session makes a hook fail; up to the first of them the session is as modelled. */
  predicate SessionCrashes(template: NamedBlocks, limits: Limits, operations: seq<Operation>, readings: nat -> Reading) {
    var lines := Lines(template, Fresh(limits), operations, readings);
    exists k :: 0 <= k < |lines| && HandledCrashes(template, lines[k], readings)
  }

  /** The first rule that a line of the source starts a block with is bad. */
  predicate StartsBadly(template: NamedBlocks, source: string, line: string) {
    var start := FirstStart(template, source, line);
    NormalizeSource(source) == source && line != "" && start.Some? && BadStatus(start.value.boundary.rule)
  }

  /** One line of the source starts a block, and the first end rule that another one matches is bad. */
  predicate EndsBadly(template: NamedBlocks, source: string, first: string, line: string) {
    var start := FirstStart(template, source, first);
    && NormalizeSource(source) == source && first != "" && line != "" && start.Some? && start.value.boundary.atStart
    && var end := MatchRules(start.value.block.parts.end, false, source, line);
       end.Some? && BadStatus(end.value.rule)
  }

  ghost predicate Fails(template: NamedBlocks) {
    || (exists source, line :: StartsBadly(template, source, line))
    || (exists source, first, line :: EndsBadly(template, source, first, line))
  }

  // ---------------------------------------------------------------------------
  // Every crash is one of these
  // ---------------------------------------------------------------------------

  lemma CrashingLineFails(template: NamedBlocks, line: Handled, readings: nat -> Reading)
    requires Known(template, line.before) && NormalizeSource(line.source) == line.source && HandledCrashes(template, line, readings)
    ensures Fails(template)
  {
    var r, source := line.before, line.source;
    var text := readings(r.blocks.handled).processed;
    var situation := SituationAt(r, source, readings(r.blocks.handled));
    if source in r.blocks.active && EndOf(situation, source).Some? && BadStatus(EndOf(situation, source).value.rule) {
      var block := UnderWay(r, source).value.block;
      var first :| OpensWith(template, source, first, block);
      assert EndsBadly(template, source, first, text);
    } else {
      assert StartsBadly(template, source, text);
    }
  }

  ghost predicate LinesKnown(template: NamedBlocks, lines: seq<Handled>) {
    forall k :: 0 <= k < |lines| ==> Known(template, lines[k].before) && NormalizeSource(lines[k].source) == lines[k].source
  }

  lemma {:induction false} CallLinesKnown(template: NamedBlocks, r: Runtime, source: string, calls: seq<LogText.Call>, readings: nat -> Reading)
    requires Known(template, r) && NormalizeSource(source) == source
    ensures LinesKnown(template, CallLines(template, r, source, calls, readings))
    decreases |calls|
  {
    if calls != [] {
      CallStep(template, r, source, calls[0], readings, 0);
      CallLinesKnown(template, CallNext(template, r, source, calls[0], readings), source, calls[1..], readings);
    }
  }

  lemma {:induction false} SessionLinesKnown(template: NamedBlocks, t: Running, operations: seq<Operation>, readings: nat -> Reading)
    requires Known(template, t.runtime)
    ensures LinesKnown(template, Lines(template, t, operations, readings))
    decreases |operations|
  {
    if operations != [] {
      var source := NormalizeSource(operations[0].source);
      match operations[0] {
        case AppendTo(_, text, metadata) =>
          CallLinesKnown(template, t.runtime, source, LogText.Append(OperationCarry(t, source), text, metadata).1, readings);
        case FlushOf(_) => CallLinesKnown(template, t.runtime, source, FlushCalls(OperationCarry(t, source)), readings);
      }
      OperationStep(template, t, operations[0], readings, 0);
      SessionLinesKnown(template, OperationNext(template, t, operations[0], readings), operations[1..], readings);
    }
  }

  lemma CrashingSessionFails(template: NamedBlocks, limits: Limits, operations: seq<Operation>, readings: nat -> Reading)
    requires SessionCrashes(template, limits, operations, readings)
    ensures Fails(template)
  {
    var lines := Lines(template, Fresh(limits), operations, readings);
    SessionLinesKnown(template, Fresh(limits), operations, readings);
    var k :| 0 <= k < |lines| && HandledCrashes(template, lines[k], readings);
    CrashingLineFails(template, lines[k], readings);
  }

  // ---------------------------------------------------------------------------
  // Each of these crashes a session
  // ---------------------------------------------------------------------------

  const NO_LIMITS := Limits(-1, -1, -1)

  /** Two lines, read as these texts. */
  function TwoTexts(first: string, second: string): nat -> Reading {
    (n: nat) => Reading(if n == 0 then first else second, {}, "", [], None, [], "")
  }

  lemma StartingCrashes(template: NamedBlocks, source: string, line: string)
    requires StartsBadly(template, source, line)
    ensures SessionCrashes(template, NO_LIMITS, [AppendTo(source, ONE_LINE, map[])], TwoTexts(line, line))
  {
    var append := AppendTo(source, ONE_LINE, map[]);
    var readings := TwoTexts(line, line);
    OneLine(template, Fresh(NO_LIMITS), source, readings);
    var next := OperationNext(template, Fresh(NO_LIMITS), append, readings);
    assert [append][1..] == [];
    var lines := Lines(template, Fresh(NO_LIMITS), [append], readings);
    assert lines == [Handled(Fresh(NO_LIMITS).runtime, source)] + Lines(template, next, [], readings);
    assert HandledCrashes(template, lines[0], readings);
  }

  lemma EndingCrashes(template: NamedBlocks, source: string, first: string, line: string)
    requires EndsBadly(template, source, first, line)
    ensures SessionCrashes(template, NO_LIMITS, [AppendTo(source, ONE_LINE, map[]), AppendTo(source, ONE_LINE, map[])], TwoTexts(first, line))
  {
    var readings := TwoTexts(first, line);
    var next := CallNext(template, Fresh(NO_LIMITS).runtime, source, LogText.Line("S", map[]), readings);
    BlockOpened(template, source, first, line);
    TwoLines(template, source, readings);
    EndIsTaken(template, next, source, first, line);
  }

  /** The second of two lines meets what the first has left. */
  lemma TwoLines(template: NamedBlocks, source: string, readings: nat -> Reading)
    requires NormalizeSource(source) == source
    requires CallNext(template, Fresh(NO_LIMITS).runtime, source, LogText.Line("S", map[]), readings).blocks.terminals == map[]
    ensures
      var append := AppendTo(source, ONE_LINE, map[]);
      var next := CallNext(template, Fresh(NO_LIMITS).runtime, source, LogText.Line("S", map[]), readings);
      var lines := Lines(template, Fresh(NO_LIMITS), [append, append], readings);
      |lines| == 2 && lines[1] == Handled(next, source)
  {
    var append := AppendTo(source, ONE_LINE, map[]);
    var start := Fresh(NO_LIMITS);
    OneLine(template, start, source, readings);
    var next := OperationNext(template, start, append, readings);
    OneLine(template, next, source, readings);
    var end := OperationNext(template, next, append, readings);
    assert [append, append][1..] == [append] && [append][1..] == [];
    assert Lines(template, next, [append], readings) == [Handled(next.runtime, source)] + Lines(template, end, [], readings);
    assert Lines(template, start, [append, append], readings) == [Handled(start.runtime, source)] + Lines(template, next, [append], readings);
  }

  lemma BlockOpened(template: NamedBlocks, source: string, first: string, line: string)
    requires EndsBadly(template, source, first, line)
    ensures
      var next := CallNext(template, Fresh(NO_LIMITS).runtime, source, LogText.Line("S", map[]), TwoTexts(first, line));
      && source in next.blocks.active && next.blocks.handled == 1 && next.blocks.terminals == map[]
      && UnderWay(next, source) == Some(ActiveBlock(FirstStart(template, source, first).value.block, ""))
  {
  }

  lemma EndIsTaken(template: NamedBlocks, r: Runtime, source: string, first: string, line: string)
    requires EndsBadly(template, source, first, line) && r.blocks.handled == 1 && source in r.blocks.active
    requires UnderWay(r, source) == Some(ActiveBlock(FirstStart(template, source, first).value.block, ""))
    ensures HandledCrashes(template, Handled(r, source), TwoTexts(first, line))
  {
  }

  /** Some session under the template makes a hook fail exactly if a line of some source is taken first by a start rule,
      or by an end rule in its place, that brings a list or a table as its status; or a line starts a block and another
      one of the same source is taken first by such an end rule of that block. */
  lemma HooksCrashExactly(template: NamedBlocks)
    ensures (exists limits, operations, readings :: SessionCrashes(template, limits, operations, readings)) <==> Fails(template)
  {
    if limits, operations, readings :| SessionCrashes(template, limits, operations, readings) {
      CrashingSessionFails(template, limits, operations, readings);
    }
    if source, line :| StartsBadly(template, source, line) {
      StartingCrashes(template, source, line);
    } else if source, first, line :| EndsBadly(template, source, first, line) {
      EndingCrashes(template, source, first, line);
    }
  }
}
