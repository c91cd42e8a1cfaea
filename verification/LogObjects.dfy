/** The mutable log session: shared entry objects edited in place, proved against the block machine. */
module LogObjects {
  import opened Wrappers
  import opened LogText
  import opened LogPipeline
  import opened LogSession
  import LogTheorems
  import StreamReader

  class LogEntry {
    const id: nat
    const source: string
    var closed: bool
    var messages: seq<string>
    var lines: seq<string>
    var status: string

    constructor (id: nat, e: Entry)
      ensures View() == e && this.id == id
    {
      this.id, source, closed, messages, lines, status := id, e.source, e.closed, e.messages, e.lines, e.status;
    }

    function View(): Entry
      reads this
    {
      Entry(source, closed, messages, lines, status)
    }

    method Trim(limits: Limits)
      modifies this`messages, this`lines
      ensures View() == TrimmedEntry(old(View()), limits)
    {
      messages := TrimmedList(messages, limits.messages);
      lines := TrimmedList(lines, limits.lines);
    }

    method AppendRecord(edit: Edit, limits: Limits)
      modifies this`messages, this`lines
      ensures View() == Edited(old(View()), edit, limits)
    {
      if edit.line.Some? { lines := lines + [edit.line.value]; }
      if edit.message.Some? { messages := messages + [edit.message.value]; }
      Trim(limits);
    }

    method AppendRecords(edits: seq<Edit>, limits: Limits)
      modifies this`messages, this`lines
      ensures View() == EditedAll(old(View()), edits, limits)
    {
      var i := 0;
      while i < |edits|
        invariant 0 <= i <= |edits|
        invariant EditedAll(old(View()), edits, limits) == EditedAll(View(), edits[i..], limits)
      {
        assert edits[i..][0] == edits[i] && edits[i..][1..] == edits[i + 1..];
        AppendRecord(edits[i], limits);
        i := i + 1;
      }
    }
  }

  /** The blocks after a pending partial line has been handled as a whole one. */
  function PartialHandled(b: LogPipeline.Blocks, source: string, partial: Partial, hooks: Hooks): LogPipeline.Blocks {
    if partial.text == "" then b
    else if source in b.terminals then TerminalUpdate(b, source, partial.text)
    else HandleLine(b, source, partial.text, partial.metadata, hooks)
  }

  lemma TrimmedAgain(e: Entry, limits: Limits)
    ensures TrimmedEntry(TrimmedEntry(e, limits), limits) == TrimmedEntry(e, limits)
  {
  }

  /** A started block: its hook's records and flag, then the active table. */
  lemma StartSteps(grown: LogPipeline.Blocks, b: LogPipeline.Blocks, source: string, start: Start)
    requires grown == LogPipeline.AppendBlock(b, NewEntry(source))
    ensures
      var i := |b.issued|;
      var edited := SetEntry(grown, i, EditedAll(EntryAt(grown, i), start.edits, b.limits).(closed := start.closes, status := start.status));
      LogPipeline.StartBlock(b, source, start) ==
        edited.(active := if start.keepActive then edited.active[source := i] else edited.active - {source})
  {
  }

  class LogPipelineSession {
    const limits: Limits
    const hooks: Hooks
    const closing: FlushHook
    var entriesList: seq<LogEntry>
    var activeBlocks: map<string, LogEntry>
    var terminals: map<string, LogEntry>
    var partials: map<string, Partial>
    var generation: nat
    var nextEntryId: nat
    var handled: nat
    // the entries ever issued, as a list and as a set, and all blocks as a value
    ghost var issued: seq<LogEntry>
    ghost var repr: set<LogEntry>
    ghost var blocks: Blocks

    constructor (limits: Limits, hooks: Hooks, closing: FlushHook)
      ensures Valid() && View() == Empty(limits) && this.limits == limits && this.hooks == hooks && this.closing == closing
      ensures repr == {}
    {
      this.limits, this.hooks, this.closing := limits, hooks, closing;
      entriesList, activeBlocks, terminals, partials := [], map[], map[], map[];
      generation, nextEntryId, handled, issued, repr := 0, 1, 0, [], {};
      blocks := Empty(limits).blocks;
    }

    /** The object is the entry at that position. */
    ghost predicate IsAt(entry: LogEntry, i: nat)
      reads this
    {
      i < |issued| && issued[i] == entry
    }

    ghost predicate SameTable(objects: map<string, LogEntry>, positions: map<string, nat>)
      reads this
    {
      objects.Keys == positions.Keys && forall source :: source in objects ==> IsAt(objects[source], positions[source])
    }

    ghost predicate SameList()
      reads this
    {
      |entriesList| == |blocks.listed| && forall k :: 0 <= k < |entriesList| ==> IsAt(entriesList[k], blocks.listed[k])
    }

    ghost predicate SameEntries()
      reads this, repr
    {
      && |issued| == |blocks.issued|
      && forall i :: 0 <= i < |issued| ==> issued[i] in repr && issued[i].id == i + 1 && issued[i].View() == blocks.issued[i]
    }

    ghost predicate Valid()
      reads this, repr
    {
      && SameEntries()
      && SameList()
      && SameTable(activeBlocks, blocks.active)
      && SameTable(terminals, blocks.terminals)
      && nextEntryId == |issued| + 1
      && blocks.(issued := [], listed := [], active := map[], terminals := map[]) ==
           LogPipeline.Blocks(limits, [], [], map[], map[], generation, handled)
    }

    ghost function View(): Session
      reads this
    {
      Session(blocks, partials)
    }

    /** Entries added to the session are new objects. */
    twostate predicate Grew()
      reads this
    {
      forall entry :: entry in repr && entry !in old(repr) ==> fresh(entry)
    }

    method TrimList()
      requires Valid()
      modifies this`entriesList, this`blocks
      ensures Valid() && blocks == old(blocks).(listed := TrimmedList(old(blocks).listed, limits.entries))
    {
      entriesList := TrimmedList(entriesList, limits.entries);
      blocks := blocks.(listed := TrimmedList(blocks.listed, limits.entries));
    }

    method TrimEntries()
      requires SameList() && SameEntries()
      modifies repr
      ensures forall p :: 0 <= p < |issued| ==>
        issued[p].View() == if p in blocks.listed then TrimmedEntry(blocks.issued[p], limits) else blocks.issued[p]
    {
      var i := 0;
      while i < |entriesList|
        modifies repr
        invariant 0 <= i <= |entriesList|
        invariant forall p :: 0 <= p < |issued| ==>
          issued[p].View() == if p in blocks.listed[..i] then TrimmedEntry(blocks.issued[p], limits) else blocks.issued[p]
      {
        ghost var p := blocks.listed[i];
        assert IsAt(entriesList[i], p) && blocks.listed[..i + 1] == blocks.listed[..i] + [p];
        TrimmedAgain(blocks.issued[p], limits);
        entriesList[i].Trim(limits);
        i := i + 1;
      }
      assert blocks.listed[..i] == blocks.listed;
    }

    /** Trims the list and then every entry still in it. */
    method Trim()
      requires Valid()
      modifies this`entriesList, this`blocks, repr
      ensures Valid() && blocks == LogPipeline.Trim(old(blocks))
    {
      TrimList();
      TrimEntries();
      blocks := LogPipeline.Trim(old(blocks));
    }

    method CountGeneration()
      requires Valid()
      modifies this`generation, this`blocks
      ensures Valid() && blocks == old(blocks).(generation := old(blocks).generation + 1)
    {
      generation := generation + 1;
      blocks := blocks.(generation := generation);
    }

    /** Gives the next id to a new entry and lists it. */
    method Issue(e: Entry) returns (entry: LogEntry)
      requires Valid()
      modifies this`entriesList, this`nextEntryId, this`issued, this`repr, this`blocks
      ensures Valid() && Grew() && IsAt(entry, |old(blocks).issued|)
      ensures
        var b := old(blocks);
        blocks == b.(issued := b.issued + [e], listed := b.listed + [|b.issued|])
    {
      entry := new LogEntry(nextEntryId, e);
      nextEntryId := nextEntryId + 1;
      entriesList := entriesList + [entry];
      issued := issued + [entry];
      repr := repr + {entry};
      blocks := blocks.(issued := blocks.issued + [entry.View()], listed := blocks.listed + [|blocks.issued|]);
    }

    method AppendBlock(e: Entry) returns (entry: LogEntry)
      requires Valid()
      modifies this`entriesList, this`generation, this`nextEntryId, this`issued, this`repr, this`blocks, repr
      ensures Valid() && Grew() && IsAt(entry, |old(blocks).issued|)
      ensures blocks == LogPipeline.AppendBlock(old(blocks), e)
    {
      entry := Issue(e);
      CountGeneration();
      Trim();
    }

    method AppendActiveRecords(entry: LogEntry, ghost i: nat, edits: seq<Edit>)
      requires Valid() && IsAt(entry, i)
      modifies this`blocks, repr
      ensures Valid() && blocks == SetEntry(old(blocks), i, EditedAll(EntryAt(old(blocks), i), edits, limits))
    {
      entry.AppendRecords(edits, limits);
      blocks := SetEntry(blocks, i, entry.View());
    }

    method SetState(entry: LogEntry, ghost i: nat, closed: bool, status: string)
      requires Valid() && IsAt(entry, i)
      modifies this`blocks, repr
      ensures Valid() && blocks == SetEntry(old(blocks), i, EntryAt(old(blocks), i).(closed := closed, status := status))
    {
      entry.closed := closed;
      entry.status := status;
      blocks := SetEntry(blocks, i, entry.View());
    }

    method Rewrite(entry: LogEntry, ghost i: nat, text: string)
      requires Valid() && IsAt(entry, i)
      modifies this`blocks, repr
      ensures Valid() && blocks == SetEntry(old(blocks), i, EntryAt(old(blocks), i).(messages := [text], lines := [text]))
    {
      entry.messages := [text];
      entry.lines := [text];
      blocks := SetEntry(blocks, i, entry.View());
    }

    method SetActive(source: string, entry: LogEntry, ghost i: nat, keep: bool)
      requires Valid() && IsAt(entry, i)
      modifies this`activeBlocks, this`blocks
      ensures Valid()
      ensures blocks == old(blocks).(active := if keep then old(blocks).active[source := i] else old(blocks).active - {source})
    {
      activeBlocks := if keep then activeBlocks[source := entry] else activeBlocks - {source};
      blocks := blocks.(active := if keep then blocks.active[source := i] else blocks.active - {source});
    }

    method SetTerminal(source: string, entry: LogEntry, ghost i: nat, keep: bool)
      requires Valid() && IsAt(entry, i)
      modifies this`terminals, this`blocks
      ensures Valid()
      ensures blocks == old(blocks).(terminals := if keep then old(blocks).terminals[source := i] else old(blocks).terminals - {source})
    {
      terminals := if keep then terminals[source := entry] else terminals - {source};
      blocks := blocks.(terminals := if keep then blocks.terminals[source := i] else blocks.terminals - {source});
    }

    /** The hook's records go into the entry, which then gets its flag and status. */
    method EditEntry(entry: LogEntry, ghost i: nat, edits: seq<Edit>, closed: bool, status: string)
      requires Valid() && IsAt(entry, i)
      modifies this`blocks, repr
      ensures Valid() && blocks == SetEntry(old(blocks), i, EditedAll(EntryAt(old(blocks), i), edits, limits).(closed := closed, status := status))
    {
      AppendActiveRecords(entry, i, edits);
      SetState(entry, i, closed, status);
    }

    method CloseActive(source: string, change: Change)
      requires Valid()
      modifies this`activeBlocks, this`generation, this`blocks, repr
      ensures Valid() && blocks == LogPipeline.CloseActive(old(blocks), source, change)
    {
      if source !in activeBlocks { return; }
      var entry := activeBlocks[source];
      ghost var i := blocks.active[source];
      SetActive(source, entry, i, false);
      EditEntry(entry, i, change.edits, true, Relabelled(entry.status, change.relabel));
      CountGeneration();
    }

    method StartBlock(source: string, start: Start)
      requires Valid()
      modifies this`entriesList, this`activeBlocks, this`generation, this`nextEntryId, this`issued, this`repr, this`blocks, repr
      ensures Valid() && Grew() && blocks == LogPipeline.StartBlock(old(blocks), source, start)
    {
      ghost var i := |blocks.issued|;
      var entry := AppendBlock(NewEntry(source));
      StartSteps(blocks, old(blocks), source, start);
      EditEntry(entry, i, start.edits, start.closes, start.status);
      SetActive(source, entry, i, start.keepActive);
    }

    /** A line of content for the block under way. */
    method TranslateActive(entry: LogEntry, source: string, change: Change)
      requires Valid() && source in blocks.active && IsAt(entry, blocks.active[source])
      modifies this`generation, this`blocks, repr
      ensures Valid() && blocks == LogPipeline.TranslateActive(old(blocks), source, change)
    {
      EditEntry(entry, blocks.active[source], change.edits, entry.closed, Relabelled(entry.status, change.relabel));
      CountGeneration();
    }

    method PlaceLine(source: string, d: Decision)
      requires Valid()
      modifies this`entriesList, this`activeBlocks, this`generation, this`nextEntryId, this`issued, this`repr, this`blocks, repr
      ensures Valid() && Grew() && blocks == LogPipeline.PlaceLine(old(blocks), source, d)
    {
      if d.start.Some? {
        CloseActive(source, d.closing);
        StartBlock(source, d.start.value);
      } else if source in activeBlocks {
        TranslateActive(activeBlocks[source], source, d.content);
      } else if d.messages != [] {
        var _ := AppendBlock(FallbackEntry(source, d));
      }
    }

    method DecideLine(source: string, d: Decision)
      requires Valid()
      modifies this`entriesList, this`activeBlocks, this`generation, this`nextEntryId, this`issued, this`repr, this`blocks, repr
      ensures Valid() && Grew() && blocks == LogPipeline.DecideLine(old(blocks), source, d)
    {
      if d.processed == "" { return; }
      if source in activeBlocks && d.endMatch.Some? {
        CloseActive(source, d.closing);
        if !d.endMatch.value { return; }
      } else if source in activeBlocks && d.boundary {
        CloseActive(source, d.closing);
      }
      PlaceLine(source, d);
    }

    method CountLine()
      requires Valid()
      modifies this`handled, this`blocks
      ensures Valid() && blocks == old(blocks).(handled := old(blocks).handled + 1)
    {
      handled := handled + 1;
      blocks := blocks.(handled := handled);
    }

    method HandleLine(source: string, text: string, metadata: Metadata)
      requires Valid()
      modifies this`entriesList, this`activeBlocks, this`generation, this`nextEntryId, this`issued, this`repr, this`blocks, this`handled, repr
      ensures Valid() && Grew() && blocks == LogPipeline.HandleLine(old(blocks), source, text, metadata, hooks)
    {
      DecideLine(source, hooks(handled, source, text, metadata));
      CountLine();
    }

    method OpenTerminal(source: string, text: string)
      requires Valid() && source !in terminals
      modifies this`entriesList, this`terminals, this`generation, this`nextEntryId, this`issued, this`repr, this`blocks, repr
      ensures Valid() && Grew()
      ensures
        var b := LogPipeline.AppendBlock(old(blocks), TerminalEntry(source, text));
        blocks == b.(terminals := b.terminals[source := |old(blocks).issued|])
    {
      var entry := AppendBlock(TerminalEntry(source, text));
      SetTerminal(source, entry, |old(blocks).issued|, true);
    }

    method RewriteTerminal(entry: LogEntry, ghost i: nat, text: string)
      requires Valid() && IsAt(entry, i)
      modifies this`generation, this`blocks, repr
      ensures Valid()
      ensures
        var b := old(blocks);
        blocks == SetEntry(b, i, EntryAt(b, i).(messages := [text], lines := [text])).(generation := b.generation + 1)
    {
      Rewrite(entry, i, text);
      CountGeneration();
    }

    method HandleTerminalUpdate(source: string, raw: string)
      requires Valid()
      modifies this`entriesList, this`terminals, this`generation, this`nextEntryId, this`issued, this`repr, this`blocks, repr
      ensures Valid() && Grew() && blocks == LogPipeline.TerminalUpdate(old(blocks), source, raw)
    {
      var text := Display(raw);
      if text == "" { return; }
      if source !in terminals {
        OpenTerminal(source, text);
      } else {
        RewriteTerminal(terminals[source], blocks.terminals[source], text);
      }
    }

    method FinalizeTerminalUpdate(source: string)
      requires Valid()
      modifies this`terminals, this`generation, this`blocks, repr
      ensures Valid() && blocks == LogPipeline.FinalizeTerminal(old(blocks), source)
    {
      if source !in terminals { return; }
      var entry := terminals[source];
      ghost var i := blocks.terminals[source];
      SetTerminal(source, entry, i, false);
      SetState(entry, i, true, entry.status);
      CountGeneration();
    }

    /** A bare LF: ends the terminal line if there is one, else an ordinary line. */
    method EndLine(source: string, line: string, metadata: Metadata)
      requires Valid()
      modifies this`entriesList, this`activeBlocks, this`terminals, this`generation, this`nextEntryId, this`issued, this`repr,
               this`blocks, this`handled, repr
      ensures Valid() && Grew()
      ensures blocks == ApplyCalls(old(blocks), source, LfCalls(line, source in old(blocks).terminals, metadata), hooks)
    {
      CallsOfLf(blocks, source, line, metadata, hooks);
      if source in terminals {
        EndTerminalLine(source, line);
      } else {
        HandleLine(source, line, metadata);
      }
    }

    method EndTerminalLine(source: string, line: string)
      requires Valid()
      modifies this`entriesList, this`terminals, this`generation, this`nextEntryId, this`issued, this`repr, this`blocks, repr
      ensures Valid() && Grew()
      ensures blocks == FinalizeTerminal(if line != "" then TerminalUpdate(old(blocks), source, line) else old(blocks), source)
    {
      if line != "" {
        HandleTerminalUpdate(source, line);
      }
      FinalizeTerminalUpdate(source);
    }

    /** One step of the scan: a delimiter, an erasure or one more character of the line. */
    method ReadNext(text: string, index: nat, line: string, source: string, metadata: Metadata) returns (next: nat, rest: string)
      requires Valid() && index < |text|
      modifies this`entriesList, this`activeBlocks, this`terminals, this`generation, this`nextEntryId, this`issued, this`repr,
               this`blocks, this`handled, repr
      ensures Valid() && Grew()
      ensures index < next <= |text| && Rest(text[index..]) == text[next..] && rest == NextLine(text[index..], line)
      ensures blocks == ApplyCalls(old(blocks), source, FirstCalls(text[index..], line, source in old(blocks).terminals, metadata), hooks)
    {
      ghost var tail := text[index..];
      ghost var before := blocks;
      assert tail[0] == text[index] && (|tail| >= 2 ==> tail[1] == text[index + 1]);
      CallsOfOne(before, source, Line(line, metadata), hooks);
      CallsOfOne(before, source, Update(line, metadata), hooks);
      next, rest := index + 1, "";
      if text[index] == '\r' {
        if index + 1 < |text| && text[index + 1] == '\n' {
          HandleLine(source, line, metadata);
          next := index + 2;
        } else {
          HandleTerminalUpdate(source, line);
        }
      } else if text[index] == '\n' {
        EndLine(source, line, metadata);
      } else if text[index] in {'\U{08}', '\U{7F}'} {
        rest := Erased(line);
      } else {
        rest := line + [text[index]];
      }
    }

    method AppendText(text: string, source: string, metadata: Metadata) returns (line: string)
      requires Valid()
      modifies this`entriesList, this`activeBlocks, this`terminals, this`generation, this`nextEntryId, this`issued, this`repr,
               this`blocks, this`handled, repr
      ensures Valid() && Grew()
      ensures
        var scan := ScanFrom(text, "", source in old(blocks).terminals, metadata);
        line == scan.line && blocks == ApplyCalls(old(blocks), source, scan.calls, hooks)
    {
      ghost var scan := ScanFrom(text, "", source in blocks.terminals, metadata);
      ghost var made: seq<Call> := [];
      line := "";
      var index := 0;
      assert text[0..] == text && [] + scan.calls == scan.calls;
      while index < |text|
        invariant 0 <= index <= |text| && Valid() && Grew()
        invariant blocks == ApplyCalls(old(blocks), source, made, hooks)
        invariant scan == Calling(made, ScanFrom(text[index..], line, source in blocks.terminals, metadata))
      {
        ghost var (tail, open, before) := (text[index..], source in blocks.terminals, blocks);
        ghost var calls := FirstCalls(tail, line, open, metadata);
        StepOfScan(old(blocks), source, made, tail, line, open, metadata, hooks);
        index, line := ReadNext(text, index, line, source, metadata);
        made := made + calls;
      }
      assert text[index..] == "" && made + [] == made;
    }

    /** The pending partial line goes in front of the new text and brings its own metadata. */
    method TakePartial(text: string, source: string, metadata: Metadata) returns (whole: string, lineMetadata: Metadata)
      requires Valid()
      modifies this`partials
      ensures Valid() && partials == old(partials) - {source}
      ensures
        var carry := CarryOf(old(View()), source);
        whole == carry.partial + text && lineMetadata == LineMetadata(carry, metadata)
    {
      whole, lineMetadata := text, metadata;
      if source in partials && partials[source].text != "" {
        whole := partials[source].text + text;
        lineMetadata := if partials[source].metadata != map[] then partials[source].metadata else metadata;
      }
      partials := partials - {source};
    }

    method AppendNormalized(text: string, source: string, metadata: Metadata)
      requires Valid() && text != ""
      modifies this, repr
      ensures Valid() && Grew()
      ensures View() == LogSession.AppendNormalized(old(View()), source, text, metadata, hooks)
    {
      AppendIs(View(), source, text, metadata, hooks);
      var whole, lineMetadata := TakePartial(text, source, metadata);
      var line := AppendText(whole, source, lineMetadata);
      StorePartial(source, line, lineMetadata);
    }

    method StorePartial(source: string, line: string, metadata: Metadata)
      requires Valid() && source !in partials
      modifies this`partials
      ensures Valid() && partials == if line != "" then old(partials)[source := Partial(line, metadata)] else old(partials)
    {
      if line != "" {
        partials := partials[source := Partial(line, metadata)];
      }
    }

    /** Returns whether the counter moved, which is how callers learn that something is to be shown anew. */
    method Append(text: string, rawSource: string, metadata: Metadata) returns (changed: bool)
      requires Valid()
      modifies this, repr
      ensures Valid() && Grew()
      ensures View() == Perform(old(View()), AppendTo(rawSource, text, metadata), hooks, closing)
      ensures changed <==> blocks.generation != old(blocks).generation
      ensures !changed ==> LogTheorems.SameView(old(blocks), blocks)
    {
      LogTheorems.EveryChangeIsReported(View(), AppendTo(rawSource, text, metadata), hooks, closing);
      if text == "" { return false; }
      var before := generation;
      AppendNormalized(text, NormalizeSource(rawSource), metadata);
      return generation != before;
    }

    method HandlePartial(source: string, partial: Partial)
      requires Valid()
      modifies this`entriesList, this`activeBlocks, this`terminals, this`generation, this`nextEntryId, this`issued, this`repr,
               this`blocks, this`handled, repr
      ensures Valid() && Grew()
      ensures blocks == PartialHandled(old(blocks), source, partial, hooks)
    {
      if partial.text == "" { return; }
      if source in terminals {
        HandleTerminalUpdate(source, partial.text);
      } else {
        HandleLine(source, partial.text, partial.metadata);
      }
    }

    method FlushSource(source: string)
      requires Valid()
      modifies this, repr
      ensures Valid() && Grew()
      ensures View() == FlushNormalized(old(View()), source, hooks, closing)
    {
      FlushIs(View(), source, hooks, closing);
      var partial := ReleasePartial(source);
      FlushLine(source, partial);
      CloseActive(source, closing(source));
    }

    method FlushLine(source: string, partial: Partial)
      requires Valid()
      modifies this`entriesList, this`activeBlocks, this`terminals, this`generation, this`nextEntryId, this`issued, this`repr,
               this`blocks, this`handled, repr
      ensures Valid() && Grew() && blocks == FinalizeTerminal(PartialHandled(old(blocks), source, partial, hooks), source)
    {
      HandlePartial(source, partial);
      FinalizeTerminalUpdate(source);
    }

    method ReleasePartial(source: string) returns (partial: Partial)
      requires Valid()
      modifies this`partials
      ensures Valid() && partials == old(partials) - {source}
      ensures partial == if source in old(partials) then old(partials)[source] else Partial("", map[])
    {
      partial := if source in partials then partials[source] else Partial("", map[]);
      partials := partials - {source};
    }

    /** Flushes the given sources, in their order. */
    method Flush(order: seq<string>)
      requires Valid()
      modifies this, repr
      ensures Valid() && Grew()
      ensures View() == FlushAll(old(View()), order, hooks, closing)
    {
      var i := 0;
      while i < |order|
        invariant 0 <= i <= |order| && Valid() && Grew()
        invariant FlushAll(old(View()), order, hooks, closing) == FlushAll(View(), order[i..], hooks, closing)
      {
        assert order[i..][0] == order[i] && order[i..][1..] == order[i + 1..];
        FlushSource(order[i]);
        i := i + 1;
      }
    }
  }

  lemma AppendIs(s: Session, source: string, text: string, metadata: Metadata, hooks: Hooks)
    requires text != ""
    ensures
      var carry := CarryOf(s, source);
      var lineMetadata := LineMetadata(carry, metadata);
      var scan := ScanFrom(carry.partial + text, "", source in s.blocks.terminals, lineMetadata);
      var rest := s.partials - {source};
      LogSession.AppendNormalized(s, source, text, metadata, hooks) ==
        Session(ApplyCalls(s.blocks, source, scan.calls, hooks),
                if scan.line != "" then rest[source := Partial(scan.line, lineMetadata)] else rest)
  {
  }

  lemma FlushIs(s: Session, source: string, hooks: Hooks, closing: FlushHook)
    ensures
      var partial := if source in s.partials then s.partials[source] else Partial("", map[]);
      FlushNormalized(s, source, hooks, closing) ==
        Session(CloseActive(FinalizeTerminal(PartialHandled(s.blocks, source, partial, hooks), source), source, closing(source)), s.partials - {source})
  {
    CallsOfFlush(s.blocks, source, CarryOf(s, source), hooks);
  }

  lemma CallsOfFlush(b: LogPipeline.Blocks, source: string, carry: Carry, hooks: Hooks)
    requires carry.open <==> source in b.terminals
    ensures
      ApplyCalls(b, source, FlushCalls(carry), hooks) ==
        FinalizeTerminal(PartialHandled(b, source, Partial(carry.partial, carry.metadata), hooks), source)
  {
    CallsOfOne(b, source, Finalize, hooks);
    if carry.partial != "" {
      if carry.open {
        CallsOfOne(TerminalUpdate(b, source, carry.partial), source, Finalize, hooks);
        assert FlushCalls(carry)[1..] == [Finalize];
      } else {
        CallsOfOne(b, source, Line(carry.partial, carry.metadata), hooks);
      }
    }
  }

  lemma CallsOfOne(b: LogPipeline.Blocks, source: string, call: Call, hooks: Hooks)
    ensures ApplyCalls(b, source, [call], hooks) == ApplyCall(b, source, call, hooks)
    ensures ApplyCalls(b, source, [], hooks) == b
  {
  }

  lemma CallsOfLf(b: LogPipeline.Blocks, source: string, line: string, metadata: Metadata, hooks: Hooks)
    ensures ApplyCalls(b, source, LfCalls(line, source in b.terminals, metadata), hooks) ==
      if source !in b.terminals then HandleLine(b, source, line, metadata, hooks)
      else FinalizeTerminal(if line != "" then TerminalUpdate(b, source, line) else b, source)
  {
    CallsOfOne(b, source, Line(line, metadata), hooks);
    CallsOfOne(b, source, Finalize, hooks);
    if line != "" {
      var updated := TerminalUpdate(b, source, line);
      CallsOfOne(updated, source, Finalize, hooks);
      assert [Update(line, metadata), Finalize][1..] == [Finalize];
    }
  }

  /** What one step of the scan adds to the calls made so far. */
  lemma StepOfScan(b: LogPipeline.Blocks, source: string, made: seq<Call>, tail: string, line: string, open: bool, metadata: Metadata, hooks: Hooks)
    requires tail != "" && (open <==> source in ApplyCalls(b, source, made, hooks).terminals)
    ensures
      var calls := FirstCalls(tail, line, open, metadata);
      var after := ApplyCalls(b, source, made + calls, hooks);
      && after == ApplyCalls(ApplyCalls(b, source, made, hooks), source, calls, hooks)
      && Calling(made, ScanFrom(tail, line, open, metadata)) ==
           Calling(made + calls, ScanFrom(Rest(tail), NextLine(tail, line), source in after.terminals, metadata))
  {
    var calls := FirstCalls(tail, line, open, metadata);
    LogTheorems.ApplyCallsConcat(b, source, made, calls, hooks);
    CallsTrackTerminal(ApplyCalls(b, source, made, hooks), source, calls, hooks);
    LogTheorems.FirstCallsOpen(tail, line, open, metadata);
    ScanUnfolds(tail, line, open, metadata);
    CallingTwice(made, calls, ScanFrom(Rest(tail), NextLine(tail, line), NextOpen(tail, line, open), metadata));
  }
}
