/** Whole-stream results: process output through the line reader into a log session. */
module LogTheorems {
  import opened Wrappers
  import opened LogText
  import opened LogPipeline
  import opened LogSession
  import StreamReader

  // ---------------------------------------------------------------------------
  // Appending in pieces, on the whole session
  // ---------------------------------------------------------------------------

  lemma {:induction false} ApplyCallsConcat(b: Blocks, source: string, first: seq<Call>, second: seq<Call>, hooks: Hooks)
    ensures ApplyCalls(b, source, first + second, hooks) == ApplyCalls(ApplyCalls(b, source, first, hooks), source, second, hooks)
    decreases |first|
  {
    if first == [] {
      assert first + second == second;
    } else {
      assert (first + second)[1..] == first[1..] + second;
      ApplyCallsConcat(ApplyCall(b, source, first[0], hooks), source, first[1..], second, hooks);
    }
  }

  lemma {:induction false} OpenAfterConcat(open: bool, first: seq<Call>, second: seq<Call>)
    ensures OpenAfterAll(open, first + second) == OpenAfterAll(OpenAfterAll(open, first), second)
    decreases |first|
  {
    if first == [] {
      assert first + second == second;
    } else {
      assert (first + second)[1..] == first[1..] + second;
      OpenAfterConcat(OpenAfter(open, first[0]), first[1..], second);
    }
  }

  lemma FirstCallsOpen(text: string, line: string, open: bool, metadata: Metadata)
    requires text != ""
    ensures OpenAfterAll(open, FirstCalls(text, line, open, metadata)) == NextOpen(text, line, open)
  {
    var calls := FirstCalls(text, line, open, metadata);
    if |calls| == 1 {
      assert OpenAfterAll(open, calls) == OpenAfterAll(OpenAfter(open, calls[0]), []);
    } else if |calls| == 2 {
      assert calls[1..] == [Finalize];
      assert OpenAfterAll(OpenAfter(open, calls[0]), [Finalize]) == OpenAfterAll(false, []);
    }
  }

  /** The scanner's idea of the terminal line is what its own calls bring about. */
  lemma {:induction false} ScanTracksOpen(text: string, line: string, open: bool, metadata: Metadata)
    ensures ScanFrom(text, line, open, metadata).open == OpenAfterAll(open, ScanFrom(text, line, open, metadata).calls)
    decreases |text|
  {
    if text != "" {
      ScanUnfolds(text, line, open, metadata);
      FirstCallsOpen(text, line, open, metadata);
      var next := ScanFrom(Rest(text), NextLine(text, line), NextOpen(text, line, open), metadata);
      ScanTracksOpen(Rest(text), NextLine(text, line), NextOpen(text, line, open), metadata);
      OpenAfterConcat(open, FirstCalls(text, line, open, metadata), next.calls);
    }
  }

  lemma ValidCarry(s: Session, source: string)
    requires Valid(s)
    ensures Literal(CarryOf(s, source).partial)
    ensures source in s.partials || CarryOf(s, source) == Carry("", map[], source in s.blocks.terminals)
  {
  }

  /** The session carries from append to append exactly what the scanner carries. */
  lemma AppendCarries(s: Session, source: string, text: string, metadata: Metadata, hooks: Hooks)
    requires Valid(s)
    ensures CarryOk(CarryOf(s, source))
    ensures CarryOf(AppendNormalized(s, source, text, metadata, hooks), source) == Append(CarryOf(s, source), text, metadata).0
  {
    var carry := CarryOf(s, source);
    ValidCarry(s, source);
    if text != "" {
      var calls := Append(carry, text, metadata).1;
      ScanTracksOpen(carry.partial + text, "", carry.open, LineMetadata(carry, metadata));
      CallsTrackTerminal(s.blocks, source, calls, hooks);
    }
  }

  /** Appending in two pieces leaves the very session that appending at once leaves, unless the cut splits a CRLF. */
  lemma AppendTwice(s: Session, source: string, a: string, b: string, metadata: Metadata, hooks: Hooks)
    requires Valid(s) && SameMetadata(CarryOf(s, source), metadata) && !SplitsCrLf(a, b)
    ensures
      var first := AppendNormalized(s, source, a, metadata, hooks);
      && SameMetadata(CarryOf(first, source), metadata)
      && AppendNormalized(first, source, b, metadata, hooks) == AppendNormalized(s, source, a + b, metadata, hooks)
  {
    var carry := CarryOf(s, source);
    AppendCarries(s, source, a, metadata, hooks);
    AppendConcat(carry, a, b, metadata);
    var (middle, calls) := Append(carry, a, metadata);
    var (last, more) := Append(middle, b, metadata);
    ApplyCallsConcat(s.blocks, source, calls, more, hooks);
    var first := AppendNormalized(s, source, a, metadata, hooks);
    if a == "" {
      assert a + b == b;
    } else if b == "" {
      assert a + b == a;
    } else {
      assert WithPartial(first.partials, source, last) == WithPartial(s.partials, source, last);
    }
  }

  function AppendTexts(s: Session, source: string, texts: seq<string>, metadata: Metadata, hooks: Hooks): Session
    decreases |texts|
  {
    if texts == [] then s
    else AppendTexts(AppendNormalized(s, source, texts[0], metadata, hooks), source, texts[1..], metadata, hooks)
  }

  lemma {:induction false} AppendTextsConcat(s: Session, source: string, texts: seq<string>, metadata: Metadata, hooks: Hooks)
    requires Valid(s) && HooksOk(hooks) && SameMetadata(CarryOf(s, source), metadata) && CutsKeepCrLf(texts)
    ensures AppendTexts(s, source, texts, metadata, hooks) == AppendNormalized(s, source, StreamReader.Concat(texts), metadata, hooks)
    decreases |texts|
  {
    if texts != [] {
      var rest := StreamReader.Concat(texts[1..]);
      AppendTwice(s, source, texts[0], rest, metadata, hooks);
      AppendNormalizedValid(s, source, texts[0], metadata, hooks);
      AppendTextsConcat(AppendNormalized(s, source, texts[0], metadata, hooks), source, texts[1..], metadata, hooks);
    }
  }

  lemma AppendNormalizedValid(s: Session, source: string, text: string, metadata: Metadata, hooks: Hooks)
    requires Valid(s) && HooksOk(hooks)
    ensures Valid(AppendNormalized(s, source, text, metadata, hooks))
  {
    var carry := CarryOf(s, source);
    if text != "" {
      ScanLineLiteral(carry.partial + text, "", carry.open, LineMetadata(carry, metadata));
      CallsKeepOk(s.blocks, source, Append(carry, text, metadata).1, hooks);
    }
  }

  // ---------------------------------------------------------------------------
  // Reader and session together
  // ---------------------------------------------------------------------------

  /** The texts handed over for the records, each with its delimiter. */
  function Texts(records: seq<StreamReader.Record>): seq<string> {
    if records == [] then [] else [records[0].text + records[0].ending] + Texts(records[1..])
  }

  lemma {:induction false} TextsJoin(records: seq<StreamReader.Record>)
    ensures StreamReader.Concat(Texts(records)) == StreamReader.Joined(records)
  {
    if records != [] {
      TextsJoin(records[1..]);
      assert Texts(records)[1..] == Texts(records[1..]);
    }
  }

  lemma {:induction false} RecordsKeepCrLf(records: seq<StreamReader.Record>, rest: string, last: seq<StreamReader.Record>)
    requires StreamReader.KeepsCrLf(records, rest) && last == StreamReader.Finished(rest)
    ensures CutsKeepCrLf(Texts(records + last))
  {
    if records == [] {
      assert records + last == last;
      assert CutsKeepCrLf(Texts(last)) by {
        if last != [] { assert Texts(last) == [last[0].text + last[0].ending] + Texts([]) && Texts(last)[1..] == []; }
      }
    } else {
      var following := records[1..] + last;
      assert (records + last)[1..] == following;
      RecordsKeepCrLf(records[1..], rest, last);
      TextsJoin(following);
      StreamReader.JoinedAppend(records[1..], last);
      StreamReader.FinishedJoins(rest);
      var first := records[0].text + records[0].ending;
      assert Texts(records + last)[1..] == Texts(following);
      assert StreamReader.Concat(Texts(following)) == StreamReader.Joined(records[1..]) + rest;
      assert EndsWithCr(first) ==> records[0].ending == "\r";
    }
  }

  /** However the output of a process is chunked, the session ends as if the reader's records had been appended
      in one piece, and, while no unfinished line exceeds the reader's limit, as if the output itself had been. */
  lemma OutputReachesSessionUnchanged(s: Session, source: string, chunks: seq<string>, metadata: Metadata, hooks: Hooks)
    requires Valid(s) && HooksOk(hooks) && SameMetadata(CarryOf(s, source), metadata)
    ensures
      var records := StreamReader.Emitted(chunks);
      var after := AppendTexts(s, source, Texts(records), metadata, hooks);
      && after == AppendNormalized(s, source, StreamReader.Joined(records), metadata, hooks)
      && (StreamReader.WithinLimit("", chunks, StreamReader.MAX_PARTIAL_LINE_CHARS) ==>
           after == AppendNormalized(s, source, StreamReader.Concat(chunks), metadata, hooks))
  {
    var d := StreamReader.Fed("", chunks, StreamReader.MAX_PARTIAL_LINE_CHARS);
    StreamReader.FedKeepsCrLf("", chunks, StreamReader.MAX_PARTIAL_LINE_CHARS);
    RecordsKeepCrLf(d.records, d.rest, StreamReader.Finished(d.rest));
    TextsJoin(StreamReader.Emitted(chunks));
    AppendTextsConcat(s, source, Texts(StreamReader.Emitted(chunks)), metadata, hooks);
    StreamReader.ChunkIndependence(chunks);
  }

  // ---------------------------------------------------------------------------
  // What a change of one source leaves alone
  // ---------------------------------------------------------------------------

  /** Entries that are not under way for the source stay as they are, and so does every other source's work. */
  ghost predicate Untouched(b: Blocks, after: Blocks, source: string) {
    && |b.issued| <= |after.issued|
    && (forall i :: 0 <= i < |b.issued| && !Owned(i, source, b.active, b.terminals) ==> SameContent(b.issued[i], after.issued[i], b.limits))
    && (forall i :: 0 <= i < |b.issued| && Owned(i, source, after.active, after.terminals) ==> Owned(i, source, b.active, b.terminals))
    && after.active - {source} == b.active - {source} && after.terminals - {source} == b.terminals - {source}
    && after.limits == b.limits
  }

  predicate RealLimits(limits: Limits) {
    limits.messages != 0 && limits.lines != 0
  }

  /** The entry is as it was; with a limit of 0 it may have lost what that limit does not allow. */
  predicate SameContent(before: Entry, after: Entry, limits: Limits) {
    after == before || (!RealLimits(limits) && after == TrimmedEntry(before, limits))
  }

  lemma AppendBlockUntouched(b: Blocks, e: Entry)
    requires BlocksOk(b)
    ensures
      var after := AppendBlock(b, e);
      |after.issued| == |b.issued| + 1 && forall i :: 0 <= i < |b.issued| ==> SameContent(b.issued[i], after.issued[i], b.limits)
  {
  }

  lemma CloseActiveUntouched(b: Blocks, source: string, change: Change)
    requires BlocksOk(b)
    ensures Untouched(b, CloseActive(b, source, change), source)
  {
  }

  lemma StartBlockUntouched(b: Blocks, source: string, start: Start)
    requires BlocksOk(b) && source !in b.active
    ensures Untouched(b, StartBlock(b, source, start), source)
  {
  }

  lemma UntouchedTransitive(a: Blocks, b: Blocks, c: Blocks, source: string)
    requires Untouched(a, b, source) && Untouched(b, c, source)
    ensures Untouched(a, c, source)
  {
  }

  lemma PlaceLineUntouched(b: Blocks, source: string, d: Decision)
    requires BlocksOk(b) && DecisionOk(d)
    ensures Untouched(b, PlaceLine(b, source, d), source)
  {
    if d.start.Some? {
      var ended := CloseActive(b, source, d.closing);
      CloseActiveKeepsOk(b, source, d.closing);
      CloseActiveUntouched(b, source, d.closing);
      StartBlockUntouched(ended, source, d.start.value);
      UntouchedTransitive(b, ended, PlaceLine(b, source, d), source);
    } else if source !in b.active && d.messages != [] {
      AppendBlockUntouched(b, FallbackEntry(source, d));
    }
  }

  lemma DecideLineUntouched(b: Blocks, source: string, d: Decision)
    requires BlocksOk(b) && DecisionOk(d)
    ensures Untouched(b, DecideLine(b, source, d), source)
  {
    var ended := CloseActive(b, source, d.closing);
    CloseActiveKeepsOk(b, source, d.closing);
    CloseActiveUntouched(b, source, d.closing);
    PlaceLineUntouched(b, source, d);
    PlaceLineUntouched(ended, source, d);
    UntouchedTransitive(b, ended, PlaceLine(ended, source, d), source);
  }

  lemma HandleLineUntouched(b: Blocks, source: string, text: string, metadata: Metadata, hooks: Hooks)
    requires BlocksOk(b) && HooksOk(hooks)
    ensures Untouched(b, HandleLine(b, source, text, metadata, hooks), source)
  {
    var d := hooks(b.handled, source, text, metadata);
    assert DecisionOk(d);
    DecideLineUntouched(b, source, d);
  }

  lemma TerminalUpdateUntouched(b: Blocks, source: string, raw: string)
    requires BlocksOk(b)
    ensures Untouched(b, TerminalUpdate(b, source, raw), source)
  {
  }

  lemma CallUntouched(b: Blocks, source: string, call: Call, hooks: Hooks)
    requires BlocksOk(b) && HooksOk(hooks)
    ensures Untouched(b, ApplyCall(b, source, call, hooks), source)
  {
    match call
    case Line(text, metadata) => HandleLineUntouched(b, source, text, metadata, hooks);
    case Update(text, _) => TerminalUpdateUntouched(b, source, text);
    case Finalize =>
  }

  lemma {:induction false} CallsUntouched(b: Blocks, source: string, calls: seq<Call>, hooks: Hooks)
    requires BlocksOk(b) && HooksOk(hooks)
    ensures Untouched(b, ApplyCalls(b, source, calls, hooks), source)
    decreases |calls|
  {
    if calls != [] {
      var next := ApplyCall(b, source, calls[0], hooks);
      CallUntouched(b, source, calls[0], hooks);
      CallKeepsOk(b, source, calls[0], hooks);
      CallsUntouched(next, source, calls[1..], hooks);
      UntouchedTransitive(b, next, ApplyCalls(next, source, calls[1..], hooks), source);
    }
  }

  /** Whatever is appended to a source, or flushed from it, an entry of another source and an entry of its own
      that is neither its active block nor its terminal line keep their content for good; only a limit of 0 may still
      take from them what it does not allow. */
  lemma OnlyWorkUnderWayChanges(s: Session, operation: Operation, hooks: Hooks, closing: FlushHook, i: nat)
    requires Valid(s) && HooksOk(hooks) && i < |s.blocks.issued|
    requires
      var source := NormalizeSource(operation.source);
      s.blocks.issued[i].source != source || !Owned(i, source, s.blocks.active, s.blocks.terminals)
    ensures
      var after := Perform(s, operation, hooks, closing).blocks;
      i < |after.issued| && SameContent(s.blocks.issued[i], after.issued[i], s.blocks.limits)
  {
    var source := NormalizeSource(operation.source);
    var b := s.blocks;
    assert !Owned(i, source, b.active, b.terminals);
    match operation
    case AppendTo(_, text, metadata) =>
      CallsUntouched(b, source, Append(CarryOf(s, source), text, metadata).1, hooks);
    case FlushOf(_) =>
      var calls := FlushCalls(CarryOf(s, source));
      CallsUntouched(b, source, calls, hooks);
      CallsKeepOk(b, source, calls, hooks);
      CloseActiveUntouched(ApplyCalls(b, source, calls, hooks), source, closing(source));
  }

  /** Where a handled line goes. An end without reprocessing takes the whole line; else a start opens the only new
      entry; else the block under way takes the line, unless it was closed by it, when the fallback shows it. */
  lemma LineGoesToOnePlace(b: Blocks, source: string, d: Decision)
    requires BlocksOk(b) && d.processed != ""
    ensures
      var after := DecideLine(b, source, d);
      var wasActive := source in b.active;
      var ended := wasActive && (d.endMatch.Some? || d.boundary);
      && (wasActive && d.endMatch == Some(false) ==> source !in after.active && |after.issued| == |b.issued|)
      && (!(wasActive && d.endMatch == Some(false)) && d.start.Some? ==>
           && |after.issued| == |b.issued| + 1 && after.issued[|b.issued|].closed == d.start.value.closes
           && (source in after.active <==> d.start.value.keepActive)
           && (source in after.active ==> after.active[source] == |b.issued|))
      && (d.start.None? && wasActive && !ended ==>
           |after.issued| == |b.issued| && source in after.active && after.active[source] == b.active[source])
      && (!(wasActive && d.endMatch == Some(false)) && d.start.None? && (ended || !wasActive) ==>
           source !in after.active && |after.issued| == |b.issued| + (if d.messages != [] then 1 else 0))
      && (wasActive && (ended || d.start.Some?) ==> after.issued[b.active[source]].closed)
  {
    var closed := CloseActive(b, source, d.closing);
    CloseActiveKeepsOk(b, source, d.closing);
    AppendBlockGrows(closed, NewEntry(source));
    AppendBlockGrows(closed, FallbackEntry(source, d));
  }

  // ---------------------------------------------------------------------------
  // The generation counter
  // ---------------------------------------------------------------------------

  predicate SameView(b: Blocks, after: Blocks) {
    after == b.(handled := after.handled)
  }

  lemma CallCounts(b: Blocks, source: string, call: Call, hooks: Hooks)
    ensures b.generation <= ApplyCall(b, source, call, hooks).generation
    ensures b.generation == ApplyCall(b, source, call, hooks).generation ==> SameView(b, ApplyCall(b, source, call, hooks))
  {
  }

  lemma {:induction false} CallsCount(b: Blocks, source: string, calls: seq<Call>, hooks: Hooks)
    ensures b.generation <= ApplyCalls(b, source, calls, hooks).generation
    ensures b.generation == ApplyCalls(b, source, calls, hooks).generation ==> SameView(b, ApplyCalls(b, source, calls, hooks))
    decreases |calls|
  {
    if calls != [] {
      CallCounts(b, source, calls[0], hooks);
      CallsCount(ApplyCall(b, source, calls[0], hooks), source, calls[1..], hooks);
    }
  }

  /** An operation that reports no change has changed nothing that is visible. */
  lemma EveryChangeIsReported(s: Session, operation: Operation, hooks: Hooks, closing: FlushHook)
    ensures
      var after := Perform(s, operation, hooks, closing).blocks;
      && s.blocks.generation <= after.generation
      && (s.blocks.generation == after.generation ==> SameView(s.blocks, after))
  {
    var source := NormalizeSource(operation.source);
    match operation
    case AppendTo(_, text, metadata) =>
      CallsCount(s.blocks, source, Append(CarryOf(s, source), text, metadata).1, hooks);
    case FlushOf(_) =>
      CallsCount(s.blocks, source, FlushCalls(CarryOf(s, source)), hooks);
  }

  // ---------------------------------------------------------------------------
  // Bounded buffers
  // ---------------------------------------------------------------------------

  function MessagesOf(edits: seq<Edit>): seq<string> {
    if edits == [] then []
    else (if edits[0].message.Some? then [edits[0].message.value] else []) + MessagesOf(edits[1..])
  }

  function LinesOf(edits: seq<Edit>): seq<string> {
    if edits == [] then []
    else (if edits[0].line.Some? then [edits[0].line.value] else []) + LinesOf(edits[1..])
  }

  lemma TrimEarly<T>(a: seq<T>, b: seq<T>, c: seq<T>, limit: int)
    ensures TrimmedList(TrimmedList(a + b, limit) + c, limit) == TrimmedList(a + (b + c), limit)
  {
    assert a + (b + c) == (a + b) + c;
    var kept := TrimmedList(a + b, limit);
    assert a + b == (a + b)[..|a + b| - |kept|] + kept;
  }

  /** Trimming after every record keeps what trimming once at the end keeps: the latest messages and lines. */
  lemma {:induction false} BuffersHoldTheLatest(e: Entry, edits: seq<Edit>, limits: Limits)
    requires edits != []
    ensures
      var after := EditedAll(e, edits, limits);
      && after.messages == TrimmedList(e.messages + MessagesOf(edits), limits.messages)
      && after.lines == TrimmedList(e.lines + LinesOf(edits), limits.lines)
    decreases |edits|
  {
    var first := Edited(e, edits[0], limits);
    var message := if edits[0].message.Some? then [edits[0].message.value] else [];
    var line := if edits[0].line.Some? then [edits[0].line.value] else [];
    if edits[1..] == [] {
      assert message + [] == message && line + [] == line;
    } else {
      BuffersHoldTheLatest(first, edits[1..], limits);
      TrimEarly(e.messages, message, MessagesOf(edits[1..]), limits.messages);
      TrimEarly(e.lines, line, LinesOf(edits[1..]), limits.lines);
    }
  }
}
