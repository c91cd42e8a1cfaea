/** The hooks a template puts on the log pipeline: where blocks start and end, and the status they close with. */
module TemplateRuntime {
  import opened Wrappers
  import opened Templates
  import opened LogPipeline
  import opened LogSession
  import opened LogStatus
  import LogText
  import Patterns

  datatype Boundary = Boundary(atStart: bool, rule: BoundaryRule, captures: map<string, Patterns.Capture>)

  /** A block that starts, and the rule that starts it. */
  datatype Opening = Opening(block: Block, boundary: Boundary)

  /** The block under way as its hooks see it; an empty name says that none is known yet. */
  datatype ActiveBlock = ActiveBlock(block: Block, currentName: string)

  /** What the hooks know beside the line: the block under way, the set metadata flags, what the translation engine
      makes of the line, and what the line shows when it belongs to no block. */
  datatype Situation = Situation(
    active: Option<ActiveBlock>,
    flags: set<string>,
    processed: string,
    translated: seq<Edit>,
    tone: Option<string>,
    messages: seq<string>,
    status: string)

  function CapturesOf(pattern: Pattern, line: string): Option<map<string, Patterns.Capture>> {
    var pieces := Patterns.Match(pattern.tokens, line);
    if pieces.Some? && |pieces.value| == |pattern.tokens| then Some(Patterns.Captures(pattern.tokens, pieces.value)) else None
  }

  predicate RuleMatches(rule: BoundaryRule, source: string, line: string) {
    rule.source == source && CapturesOf(rule.pattern, line).Some?
  }

  /** The first rule of this source whose pattern matches the line. */
  function MatchRules(rules: seq<(string, BoundaryRule)>, atStart: bool, source: string, line: string): (found: Option<Boundary>)
    ensures found.Some? <==> exists i :: 0 <= i < |rules| && RuleMatches(rules[i].1, source, line)
    ensures found.Some? ==> found.value.atStart == atStart
    ensures found.Some? ==> exists i ::
      && 0 <= i < |rules| && found.value.rule == rules[i].1 && RuleMatches(rules[i].1, source, line)
      && forall j :: 0 <= j < i ==> !RuleMatches(rules[j].1, source, line)
  {
    if rules == [] then None
    else if RuleMatches(rules[0].1, source, line) then
      Some(Boundary(atStart, rules[0].1, CapturesOf(rules[0].1.pattern, line).value))
    else
      var rest := MatchRules(rules[1..], atStart, source, line);
      assert forall i :: 0 <= i < |rules[1..]| ==> rules[1..][i] == rules[i + 1];
      assert forall i :: 1 <= i < |rules| ==> rules[i] == rules[1..][i - 1];
      rest
  }

  function MatchStart(block: Block, source: string, line: string): Option<Boundary> {
    var start := MatchRules(block.parts.start, true, source, line);
    if start.Some? then start else MatchRules(block.parts.end, false, source, line)
  }

  /** An end that names another source does not end this block. */
  predicate NamesOther(boundary: Boundary, currentName: string) {
    && "source_name" in boundary.captures && currentName != ""
    && Patterns.Shown(boundary.captures["source_name"]) != currentName
  }

  function MatchEnd(active: ActiveBlock, source: string, line: string): Option<Boundary> {
    var end := MatchRules(active.block.parts.end, false, source, line);
    if end.Some? && NamesOther(end.value, active.currentName) then None else end
  }

  /** Only blocks with start rules take part; the first of them that matches starts. */
  function FirstStart(blocks: seq<(string, Block)>, source: string, line: string): Option<Opening> {
    if blocks == [] then None
    else
      var found := if blocks[0].1.parts.start == [] then None else MatchStart(blocks[0].1, source, line);
      if found.Some? then Some(Opening(blocks[0].1, found.value)) else FirstStart(blocks[1..], source, line)
  }

  function MessageEdit(message: Option<string>): seq<Edit> {
    if message.Some? then [Edit(message, None)] else []
  }

  /** A status the rule brings with it, if it is one. */
  function RuleStatus(rule: BoundaryRule): Option<string> {
    var value := Get(rule.values, "status");
    if value.Str? && value.text in STATUSES then Some(value.text) else None
  }

  /** What a translated message does to the status of its block. */
  function ToneRelabel(block: Block, tone: Option<string>): Relabel {
    if !block.flags.statusFromMessageTone then KeepStatus
    else if tone == Some("danger") then SetStatus("failed")
    else if tone == Some("warning") then StopStatus
    else KeepStatus
  }

  /** The status a block starts with. */
  function OpeningStatus(opening: Opening, tone: Option<string>): string {
    var own := RuleStatus(opening.boundary.rule);
    var status := if own.Some? then own.value else opening.block.words.status;
    if opening.block.flags.emitStart then Relabelled(status, ToneRelabel(opening.block, tone)) else status
  }

  /** The block a boundary opens: an end rule opens one that is closed at once. */
  function StartOf(opening: Opening, situation: Situation): Start {
    var status := OpeningStatus(opening, situation.tone);
    if opening.boundary.atStart then Start(situation.translated, true, false, status)
    else Start(situation.translated + MessageEdit(opening.boundary.rule.message), false, true, status)
  }

  /** A rule closes a block with its own status, if it has one; every other close settles a running block. */
  function ClosingChange(rule: Option<BoundaryRule>): Change {
    if rule.None? then Change([], SettleStatus)
    else
      var status := RuleStatus(rule.value);
      Change(MessageEdit(rule.value.message), if status.Some? then SetStatus(status.value) else KeepStatus)
  }

  function EndOf(situation: Situation, source: string): Option<Boundary> {
    if situation.active.Some? then MatchEnd(situation.active.value, source, situation.processed) else None
  }

  predicate MetadataCloses(situation: Situation) {
    && situation.active.Some? && situation.active.value.block.flags.closeOnMetadata.Some?
    && situation.active.value.block.flags.closeOnMetadata.value in situation.flags
  }

  /** The rule that closes the block under way, which may be a rule of another block that starts. */
  function ClosingRule(blocks: seq<(string, Block)>, situation: Situation, source: string): Option<BoundaryRule> {
    var end := EndOf(situation, source);
    if end.Some? then Some(end.value.rule)
    else if MetadataCloses(situation) then None
    else
      var start := FirstStart(blocks, source, situation.processed);
      if start.Some? then Some(start.value.boundary.rule) else None
  }

  /** What the hooks of the template decide about a line. */
  function Decide(blocks: seq<(string, Block)>, situation: Situation, source: string, raw: string): Decision {
    var end := EndOf(situation, source);
    var start := FirstStart(blocks, source, situation.processed);
    Decision(
      situation.processed,
      if end.Some? then Some(end.value.rule.reprocess) else None,
      MetadataCloses(situation),
      ClosingChange(ClosingRule(blocks, situation, source)),
      if start.Some? then Some(StartOf(start.value, situation)) else None,
      Change(situation.translated, if situation.active.Some? then ToneRelabel(situation.active.value.block, situation.tone) else KeepStatus),
      situation.messages,
      [raw],
      situation.status)
  }

  function HooksOf(blocks: seq<(string, Block)>, situation: nat -> Situation): Hooks {
    (n: nat, source: string, text: string, metadata: LogText.Metadata) => Decide(blocks, situation(n), source, text)
  }

  /** Whatever the template, its hooks keep the contract of the block machine: a block they open is closed at once
      exactly if it does not stay under way. */
  lemma TemplateHooksOk(blocks: seq<(string, Block)>, situation: nat -> Situation)
    ensures StrictHooks(HooksOf(blocks, situation)) && HooksOk(HooksOf(blocks, situation))
  {
    var hooks := HooksOf(blocks, situation);
    forall n, source, text, metadata ensures StrictDecision(hooks(n, source, text, metadata)) {
      assert hooks(n, source, text, metadata) == Decide(blocks, situation(n), source, text);
    }
    StrictHooksAreOk(hooks);
  }

  // ---------------------------------------------------------------------------
  // Blocks left running
  // ---------------------------------------------------------------------------

  /** The rule closes a block of this status and leaves it running. */
  predicate RuleLeaves(rule: BoundaryRule, status: string) {
    RuleStatus(rule) == Some("running") || (RuleStatus(rule).None? && status == "running")
  }

  /** The line closes the block under way, for one reason or another. */
  predicate Ends(blocks: seq<(string, Block)>, situation: Situation, source: string) {
    EndOf(situation, source).Some? || MetadataCloses(situation) || FirstStart(blocks, source, situation.processed).Some?
  }

  /** The line goes on to the start rules: no end rule has taken it for itself. */
  predicate GoesOn(situation: Situation, source: string) {
    var end := EndOf(situation, source);
    end.None? || end.value.rule.reprocess
  }

  /** The block under way is closed and left running. */
  predicate EndsRunning(blocks: seq<(string, Block)>, situation: Situation, source: string, status: string) {
    var rule := ClosingRule(blocks, situation, source);
    rule.Some? && RuleLeaves(rule.value, status)
  }

  /** The line leaves a new entry closed and running: a block opened by an end rule, or a line outside all blocks. */
  predicate OpensRunning(blocks: seq<(string, Block)>, situation: Situation, source: string, under: bool) {
    (under ==> GoesOn(situation, source)) &&
    var start := FirstStart(blocks, source, situation.processed);
    if start.Some? then !start.value.boundary.atStart && OpeningStatus(start.value, situation.tone) == "running"
    else (under ==> Ends(blocks, situation, source)) && situation.messages != [] && situation.status == "running"
  }

  predicate TemplateLeaves(blocks: seq<(string, Block)>, situation: Situation, b: Blocks, source: string, i: nat) {
    situation.processed != "" &&
    (|| (source in b.active && b.active[source] == i && EndsRunning(blocks, situation, source, EntryAt(b, i).status))
     || (i == |b.issued| && OpensRunning(blocks, situation, source, source in b.active)))
  }

  lemma DecisionLeaves(blocks: seq<(string, Block)>, situation: Situation, b: Blocks, source: string, raw: string, i: nat)
    ensures LineLeaves(b, source, Decide(blocks, situation, source, raw), i) <==> TemplateLeaves(blocks, situation, b, source, i)
  {
  }

  // ---------------------------------------------------------------------------
  // Ends that name another source
  // ---------------------------------------------------------------------------

  lemma {:induction false} FirstStartSkips(blocks: seq<(string, Block)>, p: nat, source: string, line: string)
    requires p <= |blocks| && FirstStart(blocks[..p], source, line).None?
    ensures FirstStart(blocks, source, line) == FirstStart(blocks[p..], source, line)
    decreases p
  {
    if p > 0 {
      assert blocks[..p][1..] == blocks[1..][..p - 1] && blocks[..p][0] == blocks[0] && blocks[1..][p - 1..] == blocks[p..];
      FirstStartSkips(blocks[1..], p - 1, source, line);
    } else {
      assert blocks[p..] == blocks;
    }
  }

  /** An end line that names another source does not end the block, even if a later end rule would match it too: unless
      an earlier block takes the line, it opens and closes a block of its own, which supersedes the one under way. */
  lemma ForeignEndSupersedes(blocks: seq<(string, Block)>, p: nat, situation: Situation, source: string, raw: string)
    requires situation.active.Some? && p < |blocks| && blocks[p].1 == situation.active.value.block && blocks[p].1.parts.start != []
    requires FirstStart(blocks[..p], source, situation.processed).None?
    requires MatchRules(blocks[p].1.parts.start, true, source, situation.processed).None?
    requires
      var end := MatchRules(blocks[p].1.parts.end, false, source, situation.processed);
      end.Some? && NamesOther(end.value, situation.active.value.currentName)
    ensures
      var d := Decide(blocks, situation, source, raw);
      && d.endMatch.None? && d.start.Some? && !d.start.value.keepActive && d.start.value.closes
  {
    FirstStartSkips(blocks, p, source, situation.processed);
  }
}
