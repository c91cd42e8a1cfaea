/** What a handled line leaves in the entries: which messages and raw lines, and in what order. */
module LogContents {
  import opened Wrappers
  import opened LogText
  import opened LogPipeline
  import opened LogSession
  import opened LogTheorems

  /** The last ones of all these, as many as the limit allows; a negative limit allows all. */
  predicate Latest(kept: seq<string>, all: seq<string>, limit: int) {
    && |kept| == (if limit < 0 || |all| <= limit then |all| else limit)
    && kept == all[|all| - |kept|..]
  }

  /** The entry holds what it held and after it what the edits add, as far as the limits allow. */
  predicate Received(before: Entry, edits: seq<Edit>, after: Entry, limits: Limits) {
    after.source == before.source &&
    if edits == [] then SameTexts(before, after, limits)
    else
      && Latest(after.messages, before.messages + MessagesOf(edits), limits.messages)
      && Latest(after.lines, before.lines + LinesOf(edits), limits.lines)
  }

  /** An entry nothing is added to keeps its texts; a limit of 0 may still clear them. */
  predicate SameTexts(before: Entry, after: Entry, limits: Limits) {
    && (after.messages == before.messages || (limits.messages == 0 && after.messages == []))
    && (after.lines == before.lines || (limits.lines == 0 && after.lines == []))
  }

  /** A new entry has exactly these texts; without room for any entry it is not even trimmed. */
  predicate Fresh(e: Entry, messages: seq<string>, lines: seq<string>, limits: Limits) {
    if limits.entries == 0 then e.messages == messages && e.lines == lines
    else Latest(e.messages, messages, limits.messages) && Latest(e.lines, lines, limits.lines)
  }

  lemma TrimmedIsLatest(values: seq<string>, limit: int)
    ensures Latest(TrimmedList(values, limit), values, limit)
    ensures limit >= 0 ==> TrimmedList(TrimmedList(values, limit), limit) == TrimmedList(values, limit)
  {
  }

  lemma EditedReceives(e: Entry, edits: seq<Edit>, limits: Limits)
    ensures Received(e, edits, EditedAll(e, edits, limits), limits)
  {
    if edits != [] {
      BuffersHoldTheLatest(e, edits, limits);
      TrimmedIsLatest(e.messages + MessagesOf(edits), limits.messages);
      TrimmedIsLatest(e.lines + LinesOf(edits), limits.lines);
    }
  }

  /** Trimming an entry that is within its limits, or has just been trimmed, changes nothing but what a limit of 0 clears. */
  lemma TrimmedReceives(before: Entry, edits: seq<Edit>, after: Entry, limits: Limits)
    requires Received(before, edits, after, limits) && (edits == [] ==> EntryWithin(after, limits))
    ensures Received(before, edits, TrimmedEntry(after, limits), limits)
  {
  }

  // ---------------------------------------------------------------------------
  // A handled line
  // ---------------------------------------------------------------------------

  /** A line for the block under way: the block holds what it held and then the line's messages and raw lines, the latest
      of them within the limits, and no other entry changes. */
  lemma ContentGoesIntoBlock(b: Blocks, source: string, d: Decision, i: nat)
    requires BlocksOk(b) && i < |b.issued|
    requires source in b.active && d.processed != "" && d.endMatch.None? && !d.boundary && d.start.None?
    ensures
      var after := DecideLine(b, source, d);
      && |after.issued| == |b.issued|
      && (i == b.active[source] ==>
            && Received(b.issued[i], d.content.edits, after.issued[i], b.limits) && after.issued[i].closed == b.issued[i].closed
            && after.issued[i].status == Relabelled(b.issued[i].status, d.content.relabel))
      && (i != b.active[source] ==> after.issued[i] == b.issued[i])
  {
    EditedReceives(b.issued[b.active[source]], d.content.edits, b.limits);
  }

  lemma ClosedReceives(b: Blocks, source: string, change: Change)
    requires BlocksOk(b) && source in b.active
    ensures
      var (i, after) := (b.active[source], CloseActive(b, source, change));
      && |after.issued| == |b.issued| && after.limits == b.limits && after.issued[i].closed
      && Received(b.issued[i], change.edits, after.issued[i], b.limits)
      && after.issued[i].status == Relabelled(b.issued[i].status, change.relabel)
      && (forall j :: 0 <= j < |b.issued| && j != i ==> after.issued[j] == b.issued[j])
  {
    EditedReceives(b.issued[b.active[source]], change.edits, b.limits);
  }

  /** A new entry leaves the texts of the others alone. */
  lemma AppendReceives(b: Blocks, e: Entry, before: Entry, edits: seq<Edit>, i: nat)
    requires BlocksOk(b) && i < |b.issued| && Received(before, edits, b.issued[i], b.limits)
    ensures
      var after := AppendBlock(b, e);
      && i < |after.issued| && Received(before, edits, after.issued[i], b.limits)
      && after.issued[i].closed == b.issued[i].closed && after.issued[i].status == b.issued[i].status
  {
    if i in AppendBlock(b, e).listed {
      ListedIsWithin(b, e, i);
      TrimmedReceives(before, edits, b.issued[i], b.limits);
    }
  }

  lemma ListedIsWithin(b: Blocks, e: Entry, i: nat)
    requires BlocksOk(b) && i < |b.issued| && i in AppendBlock(b, e).listed
    ensures EntryWithin(b.issued[i], b.limits)
  {
    assert i in b.listed;
  }

  lemma NewIsFresh(b: Blocks, e: Entry)
    requires BlocksOk(b)
    ensures
      var after := AppendBlock(b, e);
      && |after.issued| == |b.issued| + 1 && Fresh(after.issued[|b.issued|], e.messages, e.lines, b.limits)
      && after.issued[|b.issued|] == e.(messages := after.issued[|b.issued|].messages, lines := after.issued[|b.issued|].lines)
  {
    NewIsListed(b, e);
    TrimmedIsLatest(e.messages, b.limits.messages);
    TrimmedIsLatest(e.lines, b.limits.lines);
  }

  lemma NewIsListed(b: Blocks, e: Entry)
    requires BlocksOk(b)
    ensures
      var after := AppendBlock(b, e);
      && |after.issued| == |b.issued| + 1
      && after.issued[|b.issued|] == if b.limits.entries == 0 then e else TrimmedEntry(e, b.limits)
  {
    var listed := b.listed + [|b.issued|];
    var kept := TrimmedList(listed, b.limits.entries);
    assert AppendBlock(b, e).listed == kept;
    if b.limits.entries == 0 {
      assert kept == [];
    } else {
      assert kept[|kept| - 1] == |b.issued|;
    }
  }

  /** The line is taken by the end of the active block and goes no further. */
  predicate EndsHere(b: Blocks, source: string, d: Decision) {
    source in b.active && d.endMatch == Some(false)
  }

  /** The line closes the block under way. */
  predicate ClosesBlock(b: Blocks, source: string, d: Decision) {
    source in b.active && (d.endMatch.Some? || d.boundary || d.start.Some?)
  }

  /** A line that closes the block under way: the block holds what it held and then what the close adds, and is closed. */
  lemma ClosingGoesIntoBlock(b: Blocks, source: string, d: Decision)
    requires BlocksOk(b) && DecisionOk(d) && d.processed != "" && ClosesBlock(b, source, d)
    ensures
      var (i, after) := (b.active[source], DecideLine(b, source, d));
      && i < |after.issued| && after.issued[i].closed && Received(b.issued[i], d.closing.edits, after.issued[i], b.limits)
      && after.issued[i].status == Relabelled(b.issued[i].status, d.closing.relabel)
  {
    var (i, closed) := (b.active[source], CloseActive(b, source, d.closing));
    ClosedReceives(b, source, d.closing);
    CloseActiveKeepsOk(b, source, d.closing);
    AppendReceives(closed, NewEntry(source), b.issued[i], d.closing.edits, i);
    AppendReceives(closed, FallbackEntry(source, d), b.issued[i], d.closing.edits, i);
    assert DecideLine(b, source, d) in {closed, PlaceLine(closed, source, d)} by { ClosedFirst(b, source, d); }
  }

  /** Closing comes before placing, also where only a start closes the block. */
  lemma ClosedFirst(b: Blocks, source: string, d: Decision)
    requires d.processed != "" && ClosesBlock(b, source, d)
    ensures
      var closed := CloseActive(b, source, d.closing);
      DecideLine(b, source, d) == if EndsHere(b, source, d) then closed else PlaceLine(closed, source, d)
  {
  }

  /** A line that starts a block: the new entry holds exactly what the start adds, with the status the hook gave it. */
  lemma StartGoesIntoNewEntry(b: Blocks, source: string, d: Decision)
    requires BlocksOk(b) && DecisionOk(d) && d.processed != "" && d.start.Some? && !EndsHere(b, source, d)
    ensures
      var (n, after, start) := (|b.issued|, DecideLine(b, source, d), d.start.value);
      && |after.issued| == n + 1 && after.issued[n].source == source && after.issued[n].closed == start.closes
      && after.issued[n].status == start.status
      && Latest(after.issued[n].messages, MessagesOf(start.edits), b.limits.messages)
      && Latest(after.issued[n].lines, LinesOf(start.edits), b.limits.lines)
  {
    var closed := CloseActive(b, source, d.closing);
    CloseActiveKeepsOk(b, source, d.closing);
    StartedReceives(closed, source, d.start.value);
    if source in b.active {
      ClosedFirst(b, source, d);
      assert CloseActive(closed, source, d.closing) == closed;
    }
  }

  lemma StartedReceives(b: Blocks, source: string, start: Start)
    requires BlocksOk(b)
    ensures
      var (n, after) := (|b.issued|, StartBlock(b, source, start));
      && |after.issued| == n + 1 && after.issued[n].source == source && after.issued[n].closed == start.closes
      && after.issued[n].status == start.status
      && Latest(after.issued[n].messages, MessagesOf(start.edits), b.limits.messages)
      && Latest(after.issued[n].lines, LinesOf(start.edits), b.limits.lines)
  {
    var e := NewEntry(source);
    AppendBlockLists(b, e);
    assert AppendBlock(b, e).issued[|b.issued|] == e;
    EditedReceives(e, start.edits, b.limits);
    assert [] + MessagesOf(start.edits) == MessagesOf(start.edits) && [] + LinesOf(start.edits) == LinesOf(start.edits);
  }

  /** A line of no block that has messages: the new entry has exactly those messages, and exactly those raw lines. */
  lemma FallbackGoesIntoNewEntry(b: Blocks, source: string, d: Decision)
    requires BlocksOk(b) && d.processed != "" && d.start.None? && !EndsHere(b, source, d)
    requires source !in b.active || d.endMatch.Some? || d.boundary
    ensures
      var (n, after) := (|b.issued|, DecideLine(b, source, d));
      if d.messages == [] then |after.issued| == n
      else
        && |after.issued| == n + 1 && Fresh(after.issued[n], d.messages, d.lines, b.limits)
        && after.issued[n].source == source && after.issued[n].closed && after.issued[n].status == d.status
  {
    var closed := CloseActive(b, source, d.closing);
    CloseActiveKeepsOk(b, source, d.closing);
    NewIsFresh(closed, FallbackEntry(source, d));
    if source in b.active { ClosedFirst(b, source, d); }
  }

  /** A rewritten terminal line shows exactly the displayed text, as its one message and its one raw line. */
  lemma RewriteShowsText(b: Blocks, source: string, raw: string)
    requires BlocksOk(b) && Display(raw) != ""
    ensures
      var after := TerminalUpdate(b, source, raw);
      && source in after.terminals && after.terminals[source] < |after.issued|
      && var e := after.issued[after.terminals[source]];
         && e.source == source && !e.closed && Fresh(e, [Display(raw)], [Display(raw)], if source in b.terminals then NO_LIMIT else b.limits)
         && (source !in b.terminals ==> after.terminals[source] == |b.issued| && e.status == "default")
         && (source in b.terminals ==> after.terminals == b.terminals && |after.issued| == |b.issued|)
  {
    NewIsFresh(b, TerminalEntry(source, Display(raw)));
  }

  const NO_LIMIT := Limits(-1, -1, -1)

  /** What a hook does to a status, word for word. */
  lemma RelabelledExactly(status: string, other: string)
    ensures Relabelled(status, KeepStatus) == status && Relabelled(status, SetStatus(other)) == other
    ensures Relabelled("running", SettleStatus) == "unfinished" && (status != "running" ==> Relabelled(status, SettleStatus) == status)
    ensures Relabelled("failed", StopStatus) == "failed" && (status != "failed" ==> Relabelled(status, StopStatus) == "stopped")
  {
  }

  /** A flush closes the block under way with what its hook adds. */
  lemma FlushGoesIntoBlock(s: Session, source: string, hooks: Hooks, closing: FlushHook)
    requires Valid(s) && HooksOk(hooks)
    ensures
      var pending := ApplyCalls(s.blocks, source, FlushCalls(CarryOf(s, source)), hooks);
      var after := FlushNormalized(s, source, hooks, closing).blocks;
      source in pending.active ==>
        && pending.active[source] < |pending.issued| == |after.issued|
        && Received(pending.issued[pending.active[source]], closing(source).edits, after.issued[pending.active[source]], pending.limits)
        && after.issued[pending.active[source]].closed
  {
    var pending := ApplyCalls(s.blocks, source, FlushCalls(CarryOf(s, source)), hooks);
    CallsKeepOk(s.blocks, source, FlushCalls(CarryOf(s, source)), hooks);
    if source in pending.active { ClosedReceives(pending, source, closing(source)); }
  }
}
