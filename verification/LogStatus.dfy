/** Which entries of a log session are left saying "running" after they have been closed. */
module LogStatus {
  import opened Wrappers
  import opened LogText
  import opened LogPipeline
  import opened LogSession
  import opened LogTheorems

  /** A start hook closes its block exactly if it does not keep it active. */
  predicate StrictDecision(d: Decision) {
    d.start.Some? ==> (d.start.value.closes <==> !d.start.value.keepActive)
  }

  ghost predicate StrictHooks(hooks: Hooks) {
    forall n, source, text, metadata :: StrictDecision(hooks(n, source, text, metadata))
  }

  lemma StrictHooksAreOk(hooks: Hooks)
    requires StrictHooks(hooks)
    ensures HooksOk(hooks)
  {
    forall n, source, text, metadata ensures DecisionOk(hooks(n, source, text, metadata)) {
      assert StrictDecision(hooks(n, source, text, metadata));
    }
  }

  /** Active blocks are open, and terminal lines have the status they always have. */
  ghost predicate StatusOk(b: Blocks) {
    && BlocksOk(b)
    && (forall source :: source in b.active ==> !b.issued[b.active[source]].closed)
    && (forall source :: source in b.terminals ==> b.issued[b.terminals[source]].status == "default")
  }

  predicate SaysRunning(b: Blocks, i: nat) {
    i < |b.issued| && b.issued[i].closed && b.issued[i].status == "running"
  }

  /** The line is taken by the end of the active block and goes no further. */
  predicate Swallowed(b: Blocks, source: string, d: Decision) {
    source in b.active && d.endMatch == Some(false)
  }

  /** The line closes the active block of the source. */
  predicate Closes(b: Blocks, source: string, d: Decision) {
    source in b.active && (d.endMatch.Some? || d.boundary || d.start.Some?)
  }

  /** A handled line leaves entry `i` closed and running: as the block it closes, as one it opens closed, or as the
      entry the fallback shows. */
  predicate LineLeaves(b: Blocks, source: string, d: Decision, i: nat) {
    d.processed != "" &&
    (|| (Closes(b, source, d) && b.active[source] == i && Relabelled(EntryAt(b, i).status, d.closing.relabel) == "running")
     || (i == |b.issued| && !Swallowed(b, source, d) && d.start.Some? && d.start.value.closes && d.start.value.status == "running")
     || (i == |b.issued| && !Swallowed(b, source, d) && d.start.None? && (source !in b.active || Closes(b, source, d))
         && d.messages != [] && d.status == "running"))
  }

  predicate CallLeaves(b: Blocks, source: string, call: Call, hooks: Hooks, i: nat) {
    call.Line? && LineLeaves(b, source, hooks(b.handled, source, call.text, call.metadata), i)
  }

  predicate CallsLeave(b: Blocks, source: string, calls: seq<Call>, hooks: Hooks, i: nat)
    decreases |calls|
  {
    calls != [] &&
    (CallLeaves(b, source, calls[0], hooks, i) || CallsLeave(ApplyCall(b, source, calls[0], hooks), source, calls[1..], hooks, i))
  }

  predicate CloseLeaves(b: Blocks, source: string, change: Change, i: nat) {
    source in b.active && b.active[source] == i && Relabelled(EntryAt(b, i).status, change.relabel) == "running"
  }

  predicate OperationLeaves(s: Session, operation: Operation, hooks: Hooks, closing: FlushHook, i: nat) {
    var source := NormalizeSource(operation.source);
    match operation
    case AppendTo(_, text, metadata) => CallsLeave(s.blocks, source, Append(CarryOf(s, source), text, metadata).1, hooks, i)
    case FlushOf(_) =>
      var calls := FlushCalls(CarryOf(s, source));
      CallsLeave(s.blocks, source, calls, hooks, i) || CloseLeaves(ApplyCalls(s.blocks, source, calls, hooks), source, closing(source), i)
  }

  predicate SomeOperationLeaves(s: Session, operations: seq<Operation>, hooks: Hooks, closing: FlushHook, i: nat)
    decreases |operations|
  {
    operations != [] &&
    (|| OperationLeaves(s, operations[0], hooks, closing, i)
     || SomeOperationLeaves(Perform(s, operations[0], hooks, closing), operations[1..], hooks, closing, i))
  }

  // ---------------------------------------------------------------------------
  // One line
  // ---------------------------------------------------------------------------

  /** Up to trimming, all entries but one are as they were. */
  ghost predicate SameBut(b: Blocks, after: Blocks, changed: set<nat>) {
    && |b.issued| <= |after.issued|
    && forall i :: 0 <= i < |b.issued| && i !in changed ==>
         after.issued[i].closed == b.issued[i].closed && after.issued[i].status == b.issued[i].status
  }

  lemma CloseStatus(b: Blocks, source: string, change: Change)
    requires StatusOk(b)
    ensures
      var after := CloseActive(b, source, change);
      && StatusOk(after) && |after.issued| == |b.issued|
      && SameBut(b, after, if source in b.active then {b.active[source]} else {})
      && (source in b.active ==>
            after.issued[b.active[source]].closed
            && after.issued[b.active[source]].status == Relabelled(b.issued[b.active[source]].status, change.relabel))
  {
    CloseActiveKeepsOk(b, source, change);
  }

  lemma StartStatus(b: Blocks, source: string, start: Start)
    requires StatusOk(b) && source !in b.active && (start.closes <==> !start.keepActive)
    ensures
      var after := StartBlock(b, source, start);
      && StatusOk(after) && |after.issued| == |b.issued| + 1 && SameBut(b, after, {})
      && after.issued[|b.issued|].closed == start.closes && after.issued[|b.issued|].status == start.status
  {
    StartBlockKeepsOk(b, source, start);
    AppendBlockUntouched(b, NewEntry(source));
    AppendBlockGrows(b, NewEntry(source));
  }

  lemma FallbackStatus(b: Blocks, source: string, d: Decision)
    requires StatusOk(b)
    ensures
      var after := AppendBlock(b, FallbackEntry(source, d));
      && StatusOk(after) && |after.issued| == |b.issued| + 1 && SameBut(b, after, {})
      && after.issued[|b.issued|].closed && after.issued[|b.issued|].status == d.status
  {
    AppendBlockLists(b, FallbackEntry(source, d));
    AppendBlockUntouched(b, FallbackEntry(source, d));
    AppendBlockGrows(b, FallbackEntry(source, d));
    GrowClosed(b.issued, AppendBlock(b, FallbackEntry(source, d)).issued, b.active, b.terminals);
  }

  lemma TranslateStatus(b: Blocks, source: string, change: Change)
    requires StatusOk(b) && source in b.active
    ensures
      var after := TranslateActive(b, source, change);
      && StatusOk(after) && |after.issued| == |b.issued| && SameBut(b, after, {b.active[source]})
      && !after.issued[b.active[source]].closed
  {
    TranslateKeepsOk(b, source, change);
  }

  /** What the placing of a line does to the running ones among the closed entries. */
  predicate PlaceLeaves(b: Blocks, source: string, d: Decision, i: nat) {
    || (d.start.Some? && source in b.active && b.active[source] == i && Relabelled(EntryAt(b, i).status, d.closing.relabel) == "running")
    || (i == |b.issued| && d.start.Some? && d.start.value.closes && d.start.value.status == "running")
    || (i == |b.issued| && d.start.None? && source !in b.active && d.messages != [] && d.status == "running")
  }

  lemma PlaceStatus(b: Blocks, source: string, d: Decision, i: nat)
    requires StatusOk(b) && StrictDecision(d)
    ensures StatusOk(PlaceLine(b, source, d))
    ensures SaysRunning(PlaceLine(b, source, d), i) <==> SaysRunning(b, i) || PlaceLeaves(b, source, d, i)
  {
    if d.start.Some? {
      CloseStatus(b, source, d.closing);
      StartStatus(CloseActive(b, source, d.closing), source, d.start.value);
    } else if source in b.active {
      TranslateStatus(b, source, d.content);
    } else if d.messages != [] {
      FallbackStatus(b, source, d);
    }
  }

  lemma LineStatus(b: Blocks, source: string, d: Decision, i: nat)
    requires StatusOk(b) && StrictDecision(d)
    ensures StatusOk(DecideLine(b, source, d))
    ensures SaysRunning(DecideLine(b, source, d), i) <==> SaysRunning(b, i) || LineLeaves(b, source, d, i)
  {
    if source in b.active && (d.endMatch.Some? || d.boundary) {
      EndedLineStatus(b, source, d, i);
    } else {
      PlaceStatus(b, source, d, i);
    }
  }

  lemma CloseSays(b: Blocks, source: string, change: Change, i: nat)
    requires StatusOk(b) && source in b.active
    ensures
      var after := CloseActive(b, source, change);
      && StatusOk(after) && |after.issued| == |b.issued| && source !in after.active
      && (SaysRunning(after, i) <==> SaysRunning(b, i) || CloseLeaves(b, source, change, i))
  {
    CloseStatus(b, source, change);
  }

  lemma EndedLineStatus(b: Blocks, source: string, d: Decision, i: nat)
    requires StatusOk(b) && StrictDecision(d) && source in b.active && (d.endMatch.Some? || d.boundary)
    ensures StatusOk(DecideLine(b, source, d))
    ensures SaysRunning(DecideLine(b, source, d), i) <==> SaysRunning(b, i) || LineLeaves(b, source, d, i)
  {
    CloseSays(b, source, d.closing, i);
    PlaceStatus(CloseActive(b, source, d.closing), source, d, i);
  }

  // ---------------------------------------------------------------------------
  // Whole sessions
  // ---------------------------------------------------------------------------

  lemma HandledStatus(b: Blocks, source: string, text: string, metadata: Metadata, hooks: Hooks, i: nat)
    requires StatusOk(b) && StrictHooks(hooks)
    ensures StatusOk(HandleLine(b, source, text, metadata, hooks))
    ensures SaysRunning(HandleLine(b, source, text, metadata, hooks), i) <==>
      SaysRunning(b, i) || LineLeaves(b, source, hooks(b.handled, source, text, metadata), i)
  {
    var d := hooks(b.handled, source, text, metadata);
    assert StrictDecision(d);
    LineStatus(b, source, d, i);
    assert HandleLine(b, source, text, metadata, hooks) == DecideLine(b, source, d).(handled := b.handled + 1);
  }

  lemma UpdateStatus(b: Blocks, source: string, raw: string, i: nat)
    requires StatusOk(b)
    ensures StatusOk(TerminalUpdate(b, source, raw))
    ensures SaysRunning(TerminalUpdate(b, source, raw), i) <==> SaysRunning(b, i)
  {
    var text := Display(raw);
    if text == "" {
    } else if source in b.terminals {
      RewriteStatus(b, source, raw, i);
    } else {
      OpenTerminalStatus(b, source, raw, i);
    }
  }

  lemma RewriteStatus(b: Blocks, source: string, raw: string, i: nat)
    requires StatusOk(b) && source in b.terminals && Display(raw) != ""
    ensures StatusOk(TerminalUpdate(b, source, raw))
    ensures SaysRunning(TerminalUpdate(b, source, raw), i) <==> SaysRunning(b, i)
  {
    TerminalUpdateKeepsOk(b, source, raw);
    var at := b.terminals[source];
    assert TerminalUpdate(b, source, raw).issued == b.issued[at := b.issued[at].(messages := [Display(raw)], lines := [Display(raw)])];
  }

  lemma OpenTerminalStatus(b: Blocks, source: string, raw: string, i: nat)
    requires StatusOk(b) && source !in b.terminals && Display(raw) != ""
    ensures StatusOk(TerminalUpdate(b, source, raw))
    ensures SaysRunning(TerminalUpdate(b, source, raw), i) <==> SaysRunning(b, i)
  {
    TerminalUpdateKeepsOk(b, source, raw);
    var entry := TerminalEntry(source, Display(raw));
    var grown := AppendBlock(b, entry);
    TerminalStatus(b, entry);
    assert TerminalUpdate(b, source, raw) == grown.(terminals := b.terminals[source := |b.issued|]);
  }

  lemma TerminalStatus(b: Blocks, entry: Entry)
    requires ListOk(b.issued, b.listed, b.limits) && !entry.closed && entry.status == "default"
    ensures
      var after := AppendBlock(b, entry);
      && |after.issued| == |b.issued| + 1 && SameBut(b, after, {})
      && !after.issued[|b.issued|].closed && after.issued[|b.issued|].status == "default"
  {
    AppendBlockLists(b, entry);
  }

  lemma FinalizeStatus(b: Blocks, source: string, i: nat)
    requires StatusOk(b)
    ensures StatusOk(FinalizeTerminal(b, source))
    ensures SaysRunning(FinalizeTerminal(b, source), i) <==> SaysRunning(b, i)
  {
    FinalizeKeepsOk(b, source);
  }

  lemma CallStatus(b: Blocks, source: string, call: Call, hooks: Hooks, i: nat)
    requires StatusOk(b) && StrictHooks(hooks)
    ensures StatusOk(ApplyCall(b, source, call, hooks))
    ensures SaysRunning(ApplyCall(b, source, call, hooks), i) <==> SaysRunning(b, i) || CallLeaves(b, source, call, hooks, i)
  {
    match call
    case Line(text, metadata) => HandledStatus(b, source, text, metadata, hooks, i);
    case Update(text, _) => UpdateStatus(b, source, text, i);
    case Finalize => FinalizeStatus(b, source, i);
  }

  lemma {:induction false} CallsStatus(b: Blocks, source: string, calls: seq<Call>, hooks: Hooks, i: nat)
    requires StatusOk(b) && StrictHooks(hooks)
    ensures StatusOk(ApplyCalls(b, source, calls, hooks))
    ensures SaysRunning(ApplyCalls(b, source, calls, hooks), i) <==> SaysRunning(b, i) || CallsLeave(b, source, calls, hooks, i)
    decreases |calls|
  {
    if calls != [] {
      CallStatus(b, source, calls[0], hooks, i);
      CallsStatus(ApplyCall(b, source, calls[0], hooks), source, calls[1..], hooks, i);
    }
  }

  lemma OperationStatus(s: Session, operation: Operation, hooks: Hooks, closing: FlushHook, i: nat)
    requires StatusOk(s.blocks) && StrictHooks(hooks)
    ensures StatusOk(Perform(s, operation, hooks, closing).blocks)
    ensures SaysRunning(Perform(s, operation, hooks, closing).blocks, i) <==>
      SaysRunning(s.blocks, i) || OperationLeaves(s, operation, hooks, closing, i)
  {
    var source := NormalizeSource(operation.source);
    match operation
    case AppendTo(_, text, metadata) =>
      CallsStatus(s.blocks, source, Append(CarryOf(s, source), text, metadata).1, hooks, i);
    case FlushOf(_) =>
      var calls := FlushCalls(CarryOf(s, source));
      CallsStatus(s.blocks, source, calls, hooks, i);
      CloseStatus(ApplyCalls(s.blocks, source, calls, hooks), source, closing(source));
  }

  lemma {:induction false} OperationsStatus(s: Session, operations: seq<Operation>, hooks: Hooks, closing: FlushHook, i: nat)
    requires StatusOk(s.blocks) && StrictHooks(hooks)
    ensures StatusOk(PerformAll(s, operations, hooks, closing).blocks)
    ensures SaysRunning(PerformAll(s, operations, hooks, closing).blocks, i) <==>
      SaysRunning(s.blocks, i) || SomeOperationLeaves(s, operations, hooks, closing, i)
    decreases |operations|
  {
    if operations != [] {
      OperationStatus(s, operations[0], hooks, closing, i);
      OperationsStatus(Perform(s, operations[0], hooks, closing), operations[1..], hooks, closing, i);
    }
  }

  /** In every reachable session a closed entry says running exactly if the line or flush that closed it left it so:
      nothing corrects it later, and nothing else makes it so. */
  lemma ClosedRunningExactly(limits: Limits, operations: seq<Operation>, hooks: Hooks, closing: FlushHook, i: nat)
    requires StrictHooks(hooks)
    ensures SaysRunning(PerformAll(Empty(limits), operations, hooks, closing).blocks, i) <==>
      SomeOperationLeaves(Empty(limits), operations, hooks, closing, i)
  {
    OperationsStatus(Empty(limits), operations, hooks, closing, i);
  }

  // ---------------------------------------------------------------------------
  // The lines a session has handled
  // ---------------------------------------------------------------------------

  /** A line about to be handled, and the blocks it finds. */
  datatype Moment = Moment(before: Blocks, source: string, text: string, metadata: Metadata)

  function MomentOf(b: Blocks, source: string, call: Call): seq<Moment> {
    if call.Line? then [Moment(b, source, call.text, call.metadata)] else []
  }

  function CallMoments(b: Blocks, source: string, calls: seq<Call>, hooks: Hooks): seq<Moment>
    decreases |calls|
  {
    if calls == [] then []
    else MomentOf(b, source, calls[0]) + CallMoments(ApplyCall(b, source, calls[0], hooks), source, calls[1..], hooks)
  }

  function OperationMoments(s: Session, operation: Operation, hooks: Hooks): seq<Moment> {
    var source := NormalizeSource(operation.source);
    match operation
    case AppendTo(_, text, metadata) => CallMoments(s.blocks, source, Append(CarryOf(s, source), text, metadata).1, hooks)
    case FlushOf(_) => CallMoments(s.blocks, source, FlushCalls(CarryOf(s, source)), hooks)
  }

  /** Every line a session handles, in order. */
  function Moments(s: Session, operations: seq<Operation>, hooks: Hooks, closing: FlushHook): seq<Moment>
    decreases |operations|
  {
    if operations == [] then []
    else OperationMoments(s, operations[0], hooks) + Moments(Perform(s, operations[0], hooks, closing), operations[1..], hooks, closing)
  }

  predicate MomentLeaves(m: Moment, hooks: Hooks, i: nat) {
    LineLeaves(m.before, m.source, hooks(m.before.handled, m.source, m.text, m.metadata), i)
  }

  predicate SomeMomentLeaves(moments: seq<Moment>, hooks: Hooks, i: nat) {
    exists k :: 0 <= k < |moments| && MomentLeaves(moments[k], hooks, i)
  }

  ghost predicate Settles(closing: FlushHook) {
    forall source :: closing(source).relabel == SettleStatus
  }

  lemma SomeMomentJoined(first: seq<Moment>, second: seq<Moment>, hooks: Hooks, i: nat)
    ensures SomeMomentLeaves(first + second, hooks, i) <==> SomeMomentLeaves(first, hooks, i) || SomeMomentLeaves(second, hooks, i)
  {
    var all := first + second;
    if SomeMomentLeaves(second, hooks, i) {
      var k :| 0 <= k < |second| && MomentLeaves(second[k], hooks, i);
      assert all[|first| + k] == second[k];
    }
    if SomeMomentLeaves(first, hooks, i) {
      var k :| 0 <= k < |first| && MomentLeaves(first[k], hooks, i);
      assert all[k] == first[k];
    }
  }

  lemma {:induction false} CallMomentsLeave(b: Blocks, source: string, calls: seq<Call>, hooks: Hooks, i: nat)
    ensures CallsLeave(b, source, calls, hooks, i) <==> SomeMomentLeaves(CallMoments(b, source, calls, hooks), hooks, i)
    decreases |calls|
  {
    if calls != [] {
      var after := ApplyCall(b, source, calls[0], hooks);
      CallMomentsLeave(after, source, calls[1..], hooks, i);
      SomeMomentJoined(MomentOf(b, source, calls[0]), CallMoments(after, source, calls[1..], hooks), hooks, i);
      FirstMomentLeaves(b, source, calls[0], hooks, i);
    }
  }

  lemma FirstMomentLeaves(b: Blocks, source: string, call: Call, hooks: Hooks, i: nat)
    ensures CallLeaves(b, source, call, hooks, i) <==> SomeMomentLeaves(MomentOf(b, source, call), hooks, i)
  {
    if call.Line? {
      assert MomentOf(b, source, call)[0] == Moment(b, source, call.text, call.metadata);
    }
  }

  lemma OperationMomentsLeave(s: Session, operation: Operation, hooks: Hooks, closing: FlushHook, i: nat)
    requires Settles(closing)
    ensures OperationLeaves(s, operation, hooks, closing, i) <==> SomeMomentLeaves(OperationMoments(s, operation, hooks), hooks, i)
  {
    var source := NormalizeSource(operation.source);
    match operation
    case AppendTo(_, text, metadata) => CallMomentsLeave(s.blocks, source, Append(CarryOf(s, source), text, metadata).1, hooks, i);
    case FlushOf(_) => CallMomentsLeave(s.blocks, source, FlushCalls(CarryOf(s, source)), hooks, i);
  }

  lemma {:induction false} MomentsLeave(s: Session, operations: seq<Operation>, hooks: Hooks, closing: FlushHook, i: nat)
    requires Settles(closing)
    ensures SomeOperationLeaves(s, operations, hooks, closing, i) <==> SomeMomentLeaves(Moments(s, operations, hooks, closing), hooks, i)
    decreases |operations|
  {
    if operations != [] {
      var after := Perform(s, operations[0], hooks, closing);
      OperationMomentsLeave(s, operations[0], hooks, closing, i);
      MomentsLeave(after, operations[1..], hooks, closing, i);
      SomeMomentJoined(OperationMoments(s, operations[0], hooks), Moments(after, operations[1..], hooks, closing), hooks, i);
    }
  }

  /** If flushes settle what they close, only a handled line can leave an entry closed and running. */
  lemma OnlyLinesLeaveRunning(limits: Limits, operations: seq<Operation>, hooks: Hooks, closing: FlushHook, i: nat)
    requires StrictHooks(hooks) && Settles(closing)
    ensures SaysRunning(PerformAll(Empty(limits), operations, hooks, closing).blocks, i) <==>
      SomeMomentLeaves(Moments(Empty(limits), operations, hooks, closing), hooks, i)
  {
    ClosedRunningExactly(limits, operations, hooks, closing, i);
    MomentsLeave(Empty(limits), operations, hooks, closing, i);
  }
}
