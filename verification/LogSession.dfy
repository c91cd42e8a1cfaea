/** One log session: text appended to sources in any order, flushed at the end; and what then always holds. */
module LogSession {
  import opened Wrappers
  import opened LogText
  import opened LogPipeline
  import StreamReader

  datatype Partial = Partial(text: string, metadata: Metadata)

  datatype Session = Session(blocks: Blocks, partials: map<string, Partial>)

  /** What the close hook does at a flush. */
  type FlushHook = string -> Change

  datatype Operation =
    | AppendTo(source: string, text: string, metadata: Metadata)
    | FlushOf(source: string)

  function NormalizeSource(source: string): string {
    if source in {"", "output", "stdout"} then "stdout" else source
  }

  function Empty(limits: Limits): Session {
    Session(Blocks(limits, [], [], map[], map[], 0, 0), map[])
  }

  function CarryOf(s: Session, source: string): Carry {
    var partial := if source in s.partials then s.partials[source] else Partial("", map[]);
    Carry(partial.text, partial.metadata, source in s.blocks.terminals)
  }

  function WithPartial(partials: map<string, Partial>, source: string, carry: Carry): map<string, Partial> {
    if carry.partial == "" then partials - {source} else partials[source := Partial(carry.partial, carry.metadata)]
  }

  function AppendNormalized(s: Session, source: string, text: string, metadata: Metadata, hooks: Hooks): Session {
    if text == "" then s
    else
      var (carry, calls) := Append(CarryOf(s, source), text, metadata);
      Session(ApplyCalls(s.blocks, source, calls, hooks), WithPartial(s.partials, source, carry))
  }

  /** The calls a flush makes for the pending partial line. */
  function FlushCalls(carry: Carry): seq<Call> {
    (if carry.partial == "" then []
     else if carry.open then [Update(carry.partial, carry.metadata)]
     else [Line(carry.partial, carry.metadata)])
    + if carry.open then [Finalize] else []
  }

  function FlushNormalized(s: Session, source: string, hooks: Hooks, closing: FlushHook): Session {
    var carry := CarryOf(s, source);
    Session(CloseActive(ApplyCalls(s.blocks, source, FlushCalls(carry), hooks), source, closing(source)), s.partials - {source})
  }

  function Perform(s: Session, operation: Operation, hooks: Hooks, closing: FlushHook): Session {
    match operation
    case AppendTo(source, text, metadata) => AppendNormalized(s, NormalizeSource(source), text, metadata, hooks)
    case FlushOf(source) => FlushNormalized(s, NormalizeSource(source), hooks, closing)
  }

  function PerformAll(s: Session, operations: seq<Operation>, hooks: Hooks, closing: FlushHook): Session
    decreases |operations|
  {
    if operations == [] then s else PerformAll(Perform(s, operations[0], hooks, closing), operations[1..], hooks, closing)
  }

  // ---------------------------------------------------------------------------
  // What holds in every reachable session
  // ---------------------------------------------------------------------------

  ghost predicate Valid(s: Session) {
    BlocksOk(s.blocks) && forall source :: source in s.partials ==> s.partials[source].text != "" && Literal(s.partials[source].text)
  }

  lemma OperationKeepsValid(s: Session, operation: Operation, hooks: Hooks, closing: FlushHook)
    requires Valid(s) && HooksOk(hooks)
    ensures Valid(Perform(s, operation, hooks, closing))
  {
    var source := NormalizeSource(operation.source);
    var carry := CarryOf(s, source);
    match operation
    case AppendTo(_, text, metadata) =>
      if text != "" {
        ScanLineLiteral(carry.partial + text, "", carry.open, LineMetadata(carry, metadata));
        CallsKeepOk(s.blocks, source, Append(carry, text, metadata).1, hooks);
      }
    case FlushOf(_) =>
      CallsKeepOk(s.blocks, source, FlushCalls(carry), hooks);
      CloseActiveKeepsOk(ApplyCalls(s.blocks, source, FlushCalls(carry), hooks), source, closing(source));
  }

  lemma {:induction false} OperationsKeepValid(s: Session, operations: seq<Operation>, hooks: Hooks, closing: FlushHook)
    requires Valid(s) && HooksOk(hooks)
    ensures Valid(PerformAll(s, operations, hooks, closing))
    decreases |operations|
  {
    if operations != [] {
      OperationKeepsValid(s, operations[0], hooks, closing);
      OperationsKeepValid(Perform(s, operations[0], hooks, closing), operations[1..], hooks, closing);
    }
  }

  lemma {:induction false} LimitsStay(b: Blocks, source: string, calls: seq<Call>, hooks: Hooks)
    ensures ApplyCalls(b, source, calls, hooks).limits == b.limits
    decreases |calls|
  {
    if calls != [] { LimitsStay(ApplyCall(b, source, calls[0], hooks), source, calls[1..], hooks); }
  }

  lemma {:induction false} SessionLimitsStay(s: Session, operations: seq<Operation>, hooks: Hooks, closing: FlushHook)
    ensures PerformAll(s, operations, hooks, closing).blocks.limits == s.blocks.limits
    decreases |operations|
  {
    if operations != [] {
      var source := NormalizeSource(operations[0].source);
      match operations[0] {
        case AppendTo(_, text, metadata) => LimitsStay(s.blocks, source, Append(CarryOf(s, source), text, metadata).1, hooks);
        case FlushOf(_) => LimitsStay(s.blocks, source, FlushCalls(CarryOf(s, source)), hooks);
      }
      SessionLimitsStay(Perform(s, operations[0], hooks, closing), operations[1..], hooks, closing);
    }
  }

  /** In every reachable session an open entry is the active block or the terminal line of its own source, and
      the visible entries are the latest ones issued, contiguous and no more than allowed. */
  lemma BlockMachine(limits: Limits, operations: seq<Operation>, hooks: Hooks, closing: FlushHook, i: nat)
    requires HooksOk(hooks)
    ensures
      var b := PerformAll(Empty(limits), operations, hooks, closing).blocks;
      && (i < |b.issued| && !b.issued[i].closed ==> Owned(i, b.issued[i].source, b.active, b.terminals))
      && |b.listed| <= |b.issued| && (limits.entries >= 0 ==> |b.listed| <= limits.entries)
      && (i < |b.listed| ==> b.listed[i] == |b.issued| - |b.listed| + i)
  {
    OperationsKeepValid(Empty(limits), operations, hooks, closing);
    SessionLimitsStay(Empty(limits), operations, hooks, closing);
  }

  /** The lists of every visible entry stay within their limits, except for a limit of 0. */
  lemma BuffersBounded(limits: Limits, operations: seq<Operation>, hooks: Hooks, closing: FlushHook, i: nat)
    requires HooksOk(hooks)
    requires i < |PerformAll(Empty(limits), operations, hooks, closing).blocks.listed|
    ensures
      var b := PerformAll(Empty(limits), operations, hooks, closing).blocks;
      && b.listed[i] < |b.issued|
      && (limits.messages > 0 ==> |b.issued[b.listed[i]].messages| <= limits.messages)
      && (limits.lines > 0 ==> |b.issued[b.listed[i]].lines| <= limits.lines)
      && (limits.messages == 0 ==> |b.issued[b.listed[i]].messages| <= 1)
  {
    OperationsKeepValid(Empty(limits), operations, hooks, closing);
    SessionLimitsStay(Empty(limits), operations, hooks, closing);
  }

  lemma RewriteCalls(open: bool)
    ensures Append(Carry("", map[], open), "a\r", map[]) == (Carry("", map[], true), [Update("a", map[])])
  {
    var text, none: Metadata := "a\r", map[];
    var calls := [Update("a", none)];
    assert "" + text == text && text[1..] == "\r" && "\r"[1..] == "" && "" + [text[0]] == "a" && text[0] == 'a';
    DisplayOfLetter();
    assert ScanFrom("", "", true, none) == Scan("", true, []);
    assert ScanFrom("\r", "a", open, none) == Calling(calls, ScanFrom("", "", true, none)) == Scan("", true, calls) by {
      assert calls + [] == calls;
    }
    assert !StartsCrLf(text) && ScanFrom(text, "", open, none) == ScanFrom("\r", "a", open, none);
  }

  lemma DisplayOfLetter()
    ensures Display("a") == "a"
  {
  }

  lemma OneCall(s: Session, operation: Operation, call: Call, hooks: Hooks, closing: FlushHook, open: bool, after: bool)
    requires operation.AppendTo? && operation.text != "" && NormalizeSource(operation.source) == operation.source
    requires operation.source !in s.partials && (operation.source in s.blocks.terminals <==> open)
    requires Append(Carry("", map[], open), operation.text, operation.metadata) == (Carry("", map[], after), [call])
    ensures Perform(s, operation, hooks, closing) == Session(ApplyCall(s.blocks, operation.source, call, hooks), s.partials)
  {
    var source := operation.source;
    assert CarryOf(s, source) == Carry("", map[], open);
    assert ApplyCalls(s.blocks, source, [call], hooks) == ApplyCalls(ApplyCall(s.blocks, source, call, hooks), source, [], hooks);
    assert s.partials - {source} == s.partials;
  }

  /** With a limit of 0 the second rewrite of a terminal line leaves a message no trimming has seen. */
  lemma ZeroLimitIsExceeded(hooks: Hooks, closing: FlushHook)
    ensures
      var rewrite := AppendTo("out", "a\r", map[]);
      var b := PerformAll(Empty(Limits(10, 0, 10)), [rewrite, rewrite], hooks, closing).blocks;
      b.listed == [0] && |b.issued| == 1 && |b.issued[0].messages| == 1
  {
    var rewrite := AppendTo("out", "a\r", map[]);
    var start := Empty(Limits(10, 0, 10));
    RewriteCalls(false);
    RewriteCalls(true);
    DisplayOfLetter();
    OneCall(start, rewrite, Update("a", map[]), hooks, closing, false, true);
    var first := Perform(start, rewrite, hooks, closing);
    assert [] + [0] == [0] && first.blocks.terminals == map["out" := 0] && |first.blocks.issued| == 1 && first.blocks.listed == [0];
    OneCall(first, rewrite, Update("a", map[]), hooks, closing, true, true);
    var second := Perform(first, rewrite, hooks, closing);
    assert PerformAll(start, [rewrite, rewrite], hooks, closing) == second by {
      assert [rewrite, rewrite][1..] == [rewrite] && [rewrite][1..] == [];
      assert PerformAll(first, [rewrite], hooks, closing) == PerformAll(second, [], hooks, closing);
    }
  }

  // ---------------------------------------------------------------------------
  // Flush
  // ---------------------------------------------------------------------------

  /** Nothing of this source is open, pending or active. */
  predicate Quiet(s: Session, source: string) {
    source !in s.blocks.active && source !in s.blocks.terminals && source !in s.partials
  }

  lemma CallTouchesOneSource(b: Blocks, source: string, call: Call, hooks: Hooks, other: string)
    requires other != source && other !in b.active && other !in b.terminals
    ensures other !in ApplyCall(b, source, call, hooks).active && other !in ApplyCall(b, source, call, hooks).terminals
  {
  }

  lemma {:induction false} CallsTouchOneSource(b: Blocks, source: string, calls: seq<Call>, hooks: Hooks, other: string)
    requires other != source && other !in b.active && other !in b.terminals
    ensures other !in ApplyCalls(b, source, calls, hooks).active && other !in ApplyCalls(b, source, calls, hooks).terminals
    decreases |calls|
  {
    if calls != [] {
      CallTouchesOneSource(b, source, calls[0], hooks, other);
      CallsTouchOneSource(ApplyCall(b, source, calls[0], hooks), source, calls[1..], hooks, other);
    }
  }

  lemma CallTracksTerminal(b: Blocks, source: string, call: Call, hooks: Hooks)
    ensures source in ApplyCall(b, source, call, hooks).terminals <==> OpenAfter(source in b.terminals, call)
  {
  }

  function OpenAfter(open: bool, call: Call): bool {
    match call
    case Line(_, _) => open
    case Update(text, _) => open || Display(text) != ""
    case Finalize => false
  }

  function OpenAfterAll(open: bool, calls: seq<Call>): bool
    decreases |calls|
  {
    if calls == [] then open else OpenAfterAll(OpenAfter(open, calls[0]), calls[1..])
  }

  /** The block machine has a terminal line for the source exactly when the calls say so. */
  lemma {:induction false} CallsTrackTerminal(b: Blocks, source: string, calls: seq<Call>, hooks: Hooks)
    ensures source in ApplyCalls(b, source, calls, hooks).terminals <==> OpenAfterAll(source in b.terminals, calls)
    decreases |calls|
  {
    if calls != [] {
      CallTracksTerminal(b, source, calls[0], hooks);
      CallsTrackTerminal(ApplyCall(b, source, calls[0], hooks), source, calls[1..], hooks);
    }
  }

  lemma FlushMakesQuiet(s: Session, source: string, hooks: Hooks, closing: FlushHook)
    ensures Quiet(FlushNormalized(s, source, hooks, closing), source)
  {
    var carry := CarryOf(s, source);
    CallsTrackTerminal(s.blocks, source, FlushCalls(carry), hooks);
    var calls := FlushCalls(carry);
    assert !OpenAfterAll(carry.open, calls) by {
      if |calls| == 2 { assert calls[1..] == [Finalize] && OpenAfterAll(OpenAfter(carry.open, calls[0]), [Finalize]) == OpenAfterAll(false, []); }
    }
  }

  lemma FlushKeepsQuiet(s: Session, source: string, hooks: Hooks, closing: FlushHook, other: string)
    requires Quiet(s, other) && other != source
    ensures Quiet(FlushNormalized(s, source, hooks, closing), other)
  {
    CallsTouchOneSource(s.blocks, source, FlushCalls(CarryOf(s, source)), hooks, other);
  }

  function FlushAll(s: Session, order: seq<string>, hooks: Hooks, closing: FlushHook): Session
    decreases |order|
  {
    if order == [] then s else FlushAll(FlushNormalized(s, order[0], hooks, closing), order[1..], hooks, closing)
  }

  lemma {:induction false} FlushAllQuiet(s: Session, order: seq<string>, hooks: Hooks, closing: FlushHook, source: string)
    requires source in order || Quiet(s, source)
    ensures Quiet(FlushAll(s, order, hooks, closing), source)
    decreases |order|
  {
    if order != [] {
      if source == order[0] {
        FlushMakesQuiet(s, source, hooks, closing);
      } else if Quiet(s, source) {
        FlushKeepsQuiet(s, order[0], hooks, closing, source);
      }
      FlushAllQuiet(FlushNormalized(s, order[0], hooks, closing), order[1..], hooks, closing, source);
    }
  }

  lemma {:induction false} FlushAllValid(s: Session, order: seq<string>, hooks: Hooks, closing: FlushHook)
    requires Valid(s) && HooksOk(hooks)
    ensures Valid(FlushAll(s, order, hooks, closing))
    decreases |order|
  {
    if order != [] {
      var carry := CarryOf(s, order[0]);
      CallsKeepOk(s.blocks, order[0], FlushCalls(carry), hooks);
      CloseActiveKeepsOk(ApplyCalls(s.blocks, order[0], FlushCalls(carry), hooks), order[0], closing(order[0]));
      FlushAllValid(FlushNormalized(s, order[0], hooks, closing), order[1..], hooks, closing);
    }
  }

  /** A full flush, in whatever order it visits the sources, leaves nothing active, pending or open at all. */
  lemma FlushSealsEverything(s: Session, order: seq<string>, hooks: Hooks, closing: FlushHook)
    requires Valid(s) && HooksOk(hooks)
    requires forall source :: source in s.blocks.active || source in s.blocks.terminals || source in s.partials ==> source in order
    ensures
      var flushed := FlushAll(s, order, hooks, closing);
      && flushed.blocks.active == map[] && flushed.blocks.terminals == map[] && flushed.partials == map[]
      && forall i :: 0 <= i < |flushed.blocks.issued| ==> flushed.blocks.issued[i].closed
  {
    var flushed := FlushAll(s, order, hooks, closing);
    FlushAllValid(s, order, hooks, closing);
    forall source ensures Quiet(flushed, source) {
      FlushAllQuiet(s, order, hooks, closing, source);
    }
    QuietIsEmpty(flushed);
    UnownedIsClosed(flushed.blocks);
  }

  lemma QuietIsEmpty(s: Session)
    requires forall source :: Quiet(s, source)
    ensures s.blocks.active == map[] && s.blocks.terminals == map[] && s.partials == map[]
  {
    assert forall source :: Quiet(s, source) ==> source !in s.blocks.active && source !in s.blocks.terminals && source !in s.partials;
  }

  lemma UnownedIsClosed(b: Blocks)
    requires BlocksOk(b) && b.active == map[] && b.terminals == map[]
    ensures forall i :: 0 <= i < |b.issued| ==> b.issued[i].closed
  {
  }
}
