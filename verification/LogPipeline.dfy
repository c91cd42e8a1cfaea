/** The block machine of the log pipeline: entries, one active block per source, terminal lines, bounded buffers. */
module LogPipeline {
  import opened Wrappers
  import opened LogText

  /** A negative limit means no limit. */
  datatype Limits = Limits(entries: int, messages: int, lines: int)

  datatype Entry = Entry(source: string, closed: bool, messages: seq<string>, lines: seq<string>, status: string)

  /** All entries ever issued, in the order of their ids; `listed` holds the positions of the visible ones. */
  datatype Blocks = Blocks(
    limits: Limits,
    issued: seq<Entry>,
    listed: seq<nat>,
    active: map<string, nat>,
    terminals: map<string, nat>,
    generation: nat,
    handled: nat)

  /** One call of `append_active_record`. */
  datatype Edit = Edit(message: Option<string>, line: Option<string>)

  /** What a hook does to the status of an entry: settling turns a running one into an unfinished one, and stopping
      leaves a failed one as it is. */
  datatype Relabel = KeepStatus | SetStatus(status: string) | SettleStatus | StopStatus

  datatype Change = Change(edits: seq<Edit>, relabel: Relabel)

  datatype Start = Start(edits: seq<Edit>, keepActive: bool, closes: bool, status: string)

  /** What the preprocessor, the matchers and the hooks decide about one line. */
  datatype Decision = Decision(
    processed: string,
    endMatch: Option<bool>,
    boundary: bool,
    closing: Change,
    start: Option<Start>,
    content: Change,
    messages: seq<string>,
    lines: seq<string>,
    status: string)

  type Hooks = (nat, string, string, Metadata) -> Decision

  /** The contract of a start hook: a block that is not kept active has been closed by the hook. */
  predicate DecisionOk(d: Decision) {
    d.start.Some? && !d.start.value.keepActive ==> d.start.value.closes
  }

  ghost predicate HooksOk(hooks: Hooks) {
    forall n, source, text, metadata :: DecisionOk(hooks(n, source, text, metadata))
  }

  // ---------------------------------------------------------------------------
  // Bounded buffers
  // ---------------------------------------------------------------------------

  function TrimmedList<T>(values: seq<T>, limit: int): seq<T> {
    if limit < 0 || |values| <= limit then values else values[|values| - limit..]
  }

  function TrimmedEntry(e: Entry, limits: Limits): Entry {
    e.(messages := TrimmedList(e.messages, limits.messages), lines := TrimmedList(e.lines, limits.lines))
  }

  function Edited(e: Entry, edit: Edit, limits: Limits): Entry {
    TrimmedEntry(
      e.(lines := e.lines + if edit.line.Some? then [edit.line.value] else [],
         messages := e.messages + if edit.message.Some? then [edit.message.value] else []),
      limits)
  }

  function EditedAll(e: Entry, edits: seq<Edit>, limits: Limits): (r: Entry)
    ensures r.source == e.source && r.closed == e.closed && r.status == e.status
    decreases |edits|
  {
    if edits == [] then e else EditedAll(Edited(e, edits[0], limits), edits[1..], limits)
  }

  function Relabelled(status: string, relabel: Relabel): string {
    match relabel
    case KeepStatus => status
    case SetStatus(other) => other
    case SettleStatus => if status == "running" then "unfinished" else status
    case StopStatus => if status == "failed" then status else "stopped"
  }

  function Changed(e: Entry, change: Change, limits: Limits): Entry {
    EditedAll(e, change.edits, limits).(status := Relabelled(e.status, change.relabel))
  }

  /** Every listed entry is trimmed after the list itself. */
  function Trim(b: Blocks): Blocks {
    var listed := TrimmedList(b.listed, b.limits.entries);
    b.(listed := listed,
       issued := seq(|b.issued|, i requires 0 <= i < |b.issued| =>
         if i in listed then TrimmedEntry(b.issued[i], b.limits) else b.issued[i]))
  }

  // ---------------------------------------------------------------------------
  // Operations
  // ---------------------------------------------------------------------------

  function AppendBlock(b: Blocks, e: Entry): (after: Blocks)
    ensures after == b.(issued := after.issued, listed := after.listed, generation := b.generation + 1)
  {
    Trim(b.(issued := b.issued + [e], listed := b.listed + [|b.issued|], generation := b.generation + 1))
  }

  function SetEntry(b: Blocks, i: nat, e: Entry): (after: Blocks)
    ensures after == b.(issued := after.issued) && |after.issued| == |b.issued|
  {
    if i < |b.issued| then b.(issued := b.issued[i := e]) else b
  }

  function EntryAt(b: Blocks, i: nat): Entry {
    if i < |b.issued| then b.issued[i] else Entry("", true, [], [], "")
  }

  /** Only this source's active block may have changed hands. */
  ghost predicate SameElsewhere(b: Blocks, after: Blocks, source: string) {
    && after.limits == b.limits && after.terminals == b.terminals
    && after.active - {source} == b.active - {source}
  }

  function CloseActive(b: Blocks, source: string, change: Change): (after: Blocks)
    ensures SameElsewhere(b, after, source) && source !in after.active
  {
    if source !in b.active then b
    else
      var i := b.active[source];
      SetEntry(b, i, Changed(EntryAt(b, i), change, b.limits).(closed := true))
        .(active := b.active - {source}, generation := b.generation + 1)
  }

  function NewEntry(source: string): Entry {
    Entry(source, false, [], [], "")
  }

  function TerminalEntry(source: string, text: string): Entry {
    Entry(source, false, [text], [text], "default")
  }

  function StartBlock(b: Blocks, source: string, start: Start): (after: Blocks)
    ensures SameElsewhere(b, after, source)
  {
    var i := |b.issued|;
    var grown := AppendBlock(b, NewEntry(source));
    SetEntry(grown, i, EditedAll(EntryAt(grown, i), start.edits, b.limits).(closed := start.closes, status := start.status))
      .(active := if start.keepActive then grown.active[source := i] else grown.active - {source})
  }

  function TranslateActive(b: Blocks, source: string, change: Change): (after: Blocks)
    requires source in b.active
    ensures SameElsewhere(b, after, source)
  {
    var i := b.active[source];
    SetEntry(b, i, Changed(EntryAt(b, i), change, b.limits)).(generation := b.generation + 1)
  }

  function FallbackEntry(source: string, d: Decision): Entry {
    Entry(source, true, d.messages, d.lines, d.status)
  }

  /** The end of a handled line, once the active block has been given the chance to end. */
  function PlaceLine(b: Blocks, source: string, d: Decision): (after: Blocks)
    ensures SameElsewhere(b, after, source)
  {
    if d.start.Some? then StartBlock(CloseActive(b, source, d.closing), source, d.start.value)
    else if source in b.active then TranslateActive(b, source, d.content)
    else if d.messages != [] then AppendBlock(b, FallbackEntry(source, d))
    else b
  }

  function DecideLine(b: Blocks, source: string, d: Decision): (after: Blocks)
    ensures SameElsewhere(b, after, source)
  {
    if d.processed == "" then b
    else if source in b.active && d.endMatch.Some? then
      var ended := CloseActive(b, source, d.closing);
      if d.endMatch.value then PlaceLine(ended, source, d) else ended
    else if source in b.active && d.boundary then PlaceLine(CloseActive(b, source, d.closing), source, d)
    else PlaceLine(b, source, d)
  }

  function HandleLine(b: Blocks, source: string, text: string, metadata: Metadata, hooks: Hooks): (after: Blocks)
    ensures SameElsewhere(b, after, source)
  {
    DecideLine(b, source, hooks(b.handled, source, text, metadata)).(handled := b.handled + 1)
  }

  function TerminalUpdate(b: Blocks, source: string, raw: string): (after: Blocks)
    ensures after.limits == b.limits && after.active == b.active
    ensures after.terminals.Keys == b.terminals.Keys + (if Display(raw) == "" then {} else {source})
    ensures after.terminals - {source} == b.terminals - {source}
  {
    var text := Display(raw);
    if text == "" then b
    else if source !in b.terminals then
      AppendBlock(b, TerminalEntry(source, text)).(terminals := b.terminals[source := |b.issued|])
    else
      var i := b.terminals[source];
      SetEntry(b, i, EntryAt(b, i).(messages := [text], lines := [text])).(generation := b.generation + 1)
  }

  function FinalizeTerminal(b: Blocks, source: string): (after: Blocks)
    ensures after.limits == b.limits && after.active == b.active && after.terminals == b.terminals - {source}
  {
    if source !in b.terminals then b
    else
      var i := b.terminals[source];
      SetEntry(b, i, EntryAt(b, i).(closed := true)).(terminals := b.terminals - {source}, generation := b.generation + 1)
  }

  function ApplyCall(b: Blocks, source: string, call: Call, hooks: Hooks): Blocks {
    match call
    case Line(text, metadata) => HandleLine(b, source, text, metadata, hooks)
    case Update(text, _) => TerminalUpdate(b, source, text)
    case Finalize => FinalizeTerminal(b, source)
  }

  function ApplyCalls(b: Blocks, source: string, calls: seq<Call>, hooks: Hooks): Blocks
    decreases |calls|
  {
    if calls == [] then b else ApplyCalls(ApplyCall(b, source, calls[0], hooks), source, calls[1..], hooks)
  }

  // ---------------------------------------------------------------------------
  // The invariant
  // ---------------------------------------------------------------------------

  predicate Within(n: nat, limit: int) {
    limit < 0 || n <= limit || n <= 1
  }

  predicate EntryWithin(e: Entry, limits: Limits) {
    Within(|e.messages|, limits.messages) && Within(|e.lines|, limits.lines)
  }

  /** Visible entries are the latest issued ones, in order, no more than allowed, each within its own limits. */
  ghost predicate ListOk(issued: seq<Entry>, listed: seq<nat>, limits: Limits) {
    && |listed| <= |issued|
    && (forall k :: 0 <= k < |listed| ==> listed[k] == |issued| - |listed| + k)
    && (limits.entries >= 0 ==> |listed| <= limits.entries)
    && (forall i :: |issued| - |listed| <= i < |issued| ==> EntryWithin(issued[i], limits))
  }

  /** Every source's blocks are its own, and an entry is open only while it is someone's. */
  ghost predicate OwnersOk(issued: seq<Entry>, active: map<string, nat>, terminals: map<string, nat>) {
    && (forall source :: source in active ==> active[source] < |issued| && issued[active[source]].source == source)
    && (forall source :: source in terminals ==>
         terminals[source] < |issued| && issued[terminals[source]].source == source && !issued[terminals[source]].closed)
    && (forall source :: source in active && source in terminals ==> active[source] != terminals[source])
    && (forall i :: 0 <= i < |issued| && !issued[i].closed ==> Owned(i, issued[i].source, active, terminals))
  }

  predicate Owned(i: nat, source: string, active: map<string, nat>, terminals: map<string, nat>) {
    || (source in active && active[source] == i)
    || (source in terminals && terminals[source] == i)
  }

  ghost predicate BlocksOk(b: Blocks) {
    ListOk(b.issued, b.listed, b.limits) && OwnersOk(b.issued, b.active, b.terminals)
  }

  lemma SetEntryKeepsList(issued: seq<Entry>, listed: seq<nat>, limits: Limits, i: nat, e: Entry)
    requires ListOk(issued, listed, limits) && i < |issued|
    requires EntryWithin(issued[i], limits) ==> EntryWithin(e, limits)
    ensures ListOk(issued[i := e], listed, limits)
  {
  }

  lemma {:induction false} EditedAllWithin(e: Entry, edits: seq<Edit>, limits: Limits)
    requires EntryWithin(e, limits)
    ensures EntryWithin(EditedAll(e, edits, limits), limits)
    decreases |edits|
  {
    if edits != [] { EditedAllWithin(Edited(e, edits[0], limits), edits[1..], limits); }
  }

  /** Which positions are listed after one more entry has been appended. */
  lemma AppendBlockLists(b: Blocks, e: Entry)
    requires ListOk(b.issued, b.listed, b.limits)
    ensures
      var after := AppendBlock(b, e);
      && |after.issued| == |b.issued| + 1 && ListOk(after.issued, after.listed, b.limits)
      && (forall i :: 0 <= i < |b.issued| ==> after.issued[i] in {b.issued[i], TrimmedEntry(b.issued[i], b.limits)})
      && after.issued[|b.issued|] in {e, TrimmedEntry(e, b.limits)}
  {
    var listed := b.listed + [|b.issued|];
    var kept := TrimmedList(listed, b.limits.entries);
    var after := AppendBlock(b, e);
    assert forall k :: 0 <= k < |kept| ==> kept[k] == |b.issued| + 1 - |kept| + k;
    forall i | |b.issued| + 1 - |kept| <= i < |b.issued| + 1 ensures EntryWithin(after.issued[i], b.limits) {
      assert i == kept[i - (|b.issued| + 1 - |kept|)];
    }
  }

  predicate SameOwnership(before: Entry, after: Entry) {
    after.source == before.source && after.closed == before.closed
  }

  ghost predicate Grown(issued: seq<Entry>, after: seq<Entry>) {
    |after| == |issued| + 1 && forall i :: 0 <= i < |issued| ==> SameOwnership(issued[i], after[i])
  }

  lemma GrowClosed(issued: seq<Entry>, after: seq<Entry>, active: map<string, nat>, terminals: map<string, nat>)
    requires OwnersOk(issued, active, terminals) && Grown(issued, after) && after[|issued|].closed
    ensures OwnersOk(after, active, terminals)
  {
  }

  lemma GrowTerminal(issued: seq<Entry>, after: seq<Entry>, active: map<string, nat>, terminals: map<string, nat>, source: string)
    requires OwnersOk(issued, active, terminals) && Grown(issued, after) && source !in terminals
    requires after[|issued|].source == source && !after[|issued|].closed
    ensures OwnersOk(after, active, terminals[source := |issued|])
  {
  }

  lemma GrowActive(issued: seq<Entry>, after: seq<Entry>, active: map<string, nat>, terminals: map<string, nat>, source: string)
    requires OwnersOk(issued, active, terminals) && Grown(issued, after) && source !in active
    requires after[|issued|].source == source
    ensures OwnersOk(after, active[source := |issued|], terminals)
  {
  }

  lemma AppendBlockGrows(b: Blocks, e: Entry)
    requires ListOk(b.issued, b.listed, b.limits)
    ensures
      var after := AppendBlock(b, e);
      && after == b.(issued := after.issued, listed := after.listed, generation := b.generation + 1)
      && ListOk(after.issued, after.listed, b.limits)
      && Grown(b.issued, after.issued) && SameOwnership(e, after.issued[|b.issued|])
  {
    AppendBlockLists(b, e);
  }

  lemma CloseActiveKeepsOk(b: Blocks, source: string, change: Change)
    requires BlocksOk(b)
    ensures BlocksOk(CloseActive(b, source, change))
  {
    if source in b.active {
      var i := b.active[source];
      if EntryWithin(b.issued[i], b.limits) { EditedAllWithin(b.issued[i], change.edits, b.limits); }
      SetEntryKeepsList(b.issued, b.listed, b.limits, i, Changed(b.issued[i], change, b.limits).(closed := true));
    }
  }

  lemma TranslateKeepsOk(b: Blocks, source: string, change: Change)
    requires BlocksOk(b) && source in b.active
    ensures BlocksOk(TranslateActive(b, source, change))
  {
    var i := b.active[source];
    if EntryWithin(b.issued[i], b.limits) { EditedAllWithin(b.issued[i], change.edits, b.limits); }
    SetEntryKeepsList(b.issued, b.listed, b.limits, i, Changed(b.issued[i], change, b.limits));
  }

  lemma StartBlockKeepsOk(b: Blocks, source: string, start: Start)
    requires BlocksOk(b) && source !in b.active && (!start.keepActive ==> start.closes)
    ensures BlocksOk(StartBlock(b, source, start))
  {
    var i := |b.issued|;
    var grown := AppendBlock(b, NewEntry(source));
    AppendBlockGrows(b, NewEntry(source));
    var edited := EditedAll(grown.issued[i], start.edits, b.limits).(closed := start.closes, status := start.status);
    if EntryWithin(grown.issued[i], b.limits) { EditedAllWithin(grown.issued[i], start.edits, b.limits); }
    SetEntryKeepsList(grown.issued, grown.listed, b.limits, i, edited);
    var after := grown.issued[i := edited];
    assert Grown(b.issued, after);
    if start.keepActive {
      GrowActive(b.issued, after, b.active, b.terminals, source);
    } else {
      GrowClosed(b.issued, after, b.active, b.terminals);
      assert b.active - {source} == b.active;
    }
  }

  lemma PlaceLineKeepsOk(b: Blocks, source: string, d: Decision)
    requires BlocksOk(b) && DecisionOk(d)
    ensures BlocksOk(PlaceLine(b, source, d))
  {
    if d.start.Some? {
      CloseActiveKeepsOk(b, source, d.closing);
      StartBlockKeepsOk(CloseActive(b, source, d.closing), source, d.start.value);
    } else if source in b.active {
      TranslateKeepsOk(b, source, d.content);
    } else if d.messages != [] {
      AppendBlockGrows(b, FallbackEntry(source, d));
      GrowClosed(b.issued, AppendBlock(b, FallbackEntry(source, d)).issued, b.active, b.terminals);
    }
  }

  lemma DecideLineKeepsOk(b: Blocks, source: string, d: Decision)
    requires BlocksOk(b) && DecisionOk(d)
    ensures BlocksOk(DecideLine(b, source, d))
  {
    var ended := CloseActive(b, source, d.closing);
    CloseActiveKeepsOk(b, source, d.closing);
    PlaceLineKeepsOk(b, source, d);
    PlaceLineKeepsOk(ended, source, d);
  }

  lemma TerminalUpdateKeepsOk(b: Blocks, source: string, raw: string)
    requires BlocksOk(b)
    ensures BlocksOk(TerminalUpdate(b, source, raw))
  {
    var text := Display(raw);
    if text != "" {
      if source !in b.terminals {
        AppendBlockGrows(b, TerminalEntry(source, text));
        GrowTerminal(b.issued, AppendBlock(b, TerminalEntry(source, text)).issued, b.active, b.terminals, source);
      } else {
        var i := b.terminals[source];
        SetEntryKeepsList(b.issued, b.listed, b.limits, i, b.issued[i].(messages := [text], lines := [text]));
      }
    }
  }

  lemma FinalizeKeepsOk(b: Blocks, source: string)
    requires BlocksOk(b)
    ensures BlocksOk(FinalizeTerminal(b, source))
  {
  }

  lemma HandleLineKeepsOk(b: Blocks, source: string, text: string, metadata: Metadata, hooks: Hooks)
    requires BlocksOk(b) && HooksOk(hooks)
    ensures BlocksOk(HandleLine(b, source, text, metadata, hooks))
  {
    var d := hooks(b.handled, source, text, metadata);
    assert DecisionOk(d);
    DecideLineKeepsOk(b, source, d);
    var decided := DecideLine(b, source, d);
    assert HandleLine(b, source, text, metadata, hooks) == decided.(handled := b.handled + 1);
  }

  lemma CallKeepsOk(b: Blocks, source: string, call: Call, hooks: Hooks)
    requires BlocksOk(b) && HooksOk(hooks)
    ensures BlocksOk(ApplyCall(b, source, call, hooks))
  {
    match call
    case Line(text, metadata) => HandleLineKeepsOk(b, source, text, metadata, hooks);
    case Update(text, _) => TerminalUpdateKeepsOk(b, source, text);
    case Finalize => FinalizeKeepsOk(b, source);
  }

  lemma {:induction false} CallsKeepOk(b: Blocks, source: string, calls: seq<Call>, hooks: Hooks)
    requires BlocksOk(b) && HooksOk(hooks)
    ensures BlocksOk(ApplyCalls(b, source, calls, hooks))
    decreases |calls|
  {
    if calls != [] {
      CallKeepsOk(b, source, calls[0], hooks);
      CallsKeepOk(ApplyCall(b, source, calls[0], hooks), source, calls[1..], hooks);
    }
  }
}
