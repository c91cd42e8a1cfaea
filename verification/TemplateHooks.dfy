/** What the hooks of a template decide about a line, spelled out: when a block ends, starts and closes, and with what. */
module TemplateHooks {
  import opened Wrappers
  import opened Templates
  import opened LogPipeline
  import opened TemplateRuntime
  import LogTheorems
  import Patterns

  /** A boundary rule is taken by the lines of its source that its pattern decomposes. */
  lemma RuleMatchesExactly(rule: BoundaryRule, source: string, line: string)
    ensures RuleMatches(rule, source, line) <==>
      rule.source == source && exists pieces :: Patterns.Decomposes(rule.pattern.tokens, line, pieces)
  {
    var tokens := rule.pattern.tokens;
    Patterns.MatchExactly(tokens, line);
    if pieces :| Patterns.Decomposes(tokens, line, pieces) {
      assert Patterns.HasDecomposition(tokens, line);
      Patterns.PiecesPerToken(tokens, line, Patterns.Match(tokens, line).value);
      assert CapturesOf(rule.pattern, line).Some?;
      assert exists other :: Patterns.Decomposes(tokens, line, other);
    } else {
      assert !Patterns.HasDecomposition(tokens, line);
    }
  }

  /** A line ends the block under way exactly if one of its end rules takes it, and the first that does captures no name of
      a source other than the block's own, if that is known. */
  lemma EndsExactly(blocks: seq<(string, Block)>, situation: Situation, source: string, raw: string)
    ensures
      var d := Decide(blocks, situation, source, raw);
      if situation.active.None? then d.endMatch == None
      else
        var (block, name) := (situation.active.value.block, situation.active.value.currentName);
        var first := MatchRules(block.parts.end, false, source, situation.processed);
        if first.None? then d.endMatch == None
        else
          var captured := first.value.captures;
          var foreign := name != "" && "source_name" in captured && Patterns.Shown(captured["source_name"]) != name;
          d.endMatch == if foreign then None else Some(first.value.rule.reprocess)
  {
  }

  /** Metadata closes a block exactly if the block names a flag and the line carries it. */
  lemma MetadataExactly(blocks: seq<(string, Block)>, situation: Situation, source: string, raw: string)
    ensures Decide(blocks, situation, source, raw).boundary <==>
      exists block: ActiveBlock, flag :: situation.active == Some(block) && block.block.flags.closeOnMetadata == Some(flag) && flag in situation.flags
  {
  }

  /** The first block with start rules one of whose start rules, or else one of whose end rules, takes the line is started
      by it; an end rule leaves its block closed at once, with its message added. */
  lemma {:induction false} FirstStartExactly(blocks: seq<(string, Block)>, source: string, line: string, p: nat)
    requires p < |blocks| && blocks[p].1.parts.start != []
    requires forall k :: 0 <= k < p && blocks[k].1.parts.start != [] ==>
      MatchRules(blocks[k].1.parts.start, true, source, line).None? && MatchRules(blocks[k].1.parts.end, false, source, line).None?
    ensures
      var starts := MatchRules(blocks[p].1.parts.start, true, source, line);
      var ends := MatchRules(blocks[p].1.parts.end, false, source, line);
      && (starts.Some? ==> FirstStart(blocks, source, line) == Some(Opening(blocks[p].1, starts.value)))
      && (starts.None? && ends.Some? ==> FirstStart(blocks, source, line) == Some(Opening(blocks[p].1, ends.value)))
    decreases p
  {
    if p > 0 {
      assert forall k :: 0 <= k < |blocks[1..]| ==> blocks[1..][k] == blocks[k + 1];
      FirstStartExactly(blocks[1..], source, line, p - 1);
    }
  }

  /** What a boundary rule brings: its message as the one message, and its status if it is one of the known ones. */
  lemma RuleBrings(rule: BoundaryRule, status: string)
    ensures
      var change := ClosingChange(Some(rule));
      var value := Get(rule.values, "status");
      var known := value.Str? && value.text in {"default", "running", "succeeded", "failed", "stopped", "unknown", "unfinished", "warning"};
      && LogTheorems.MessagesOf(change.edits) == (if rule.message.Some? then [rule.message.value] else [])
      && LogTheorems.LinesOf(change.edits) == []
      && Relabelled(status, change.relabel) == (if known then value.text else status)
  {
  }

  /** A close without a rule adds nothing, and makes a running block unfinished. */
  lemma NoRuleSettles(status: string)
    ensures
      var change := ClosingChange(None);
      change.edits == [] && Relabelled(status, change.relabel) == if status == "running" then "unfinished" else status
  {
  }

  /** A translated message touches the status only of blocks that ask for it: a danger fails the block, a warning stops it
      unless it has failed. */
  lemma ToneExactly(block: Block, tone: Option<string>, status: string)
    ensures Relabelled(status, ToneRelabel(block, tone)) ==
      if block.flags.statusFromMessageTone && tone == Some("danger") then "failed"
      else if block.flags.statusFromMessageTone && tone == Some("warning") && status != "failed" then "stopped"
      else status
  {
  }

  /** A block starts with the status its rule brings, or else its own; if it translates its start line, that may change it. */
  lemma StartsWith(opening: Opening, situation: Situation)
    ensures
      var start := StartOf(opening, situation);
      var value := Get(opening.boundary.rule.values, "status");
      var brought := if value.Str? && value.text in STATUSES then value.text else opening.block.words.status;
      && start.status == (if opening.block.flags.emitStart then Relabelled(brought, ToneRelabel(opening.block, situation.tone)) else brought)
      && start.keepActive == opening.boundary.atStart && start.closes == !opening.boundary.atStart
      && LogTheorems.MessagesOf(start.edits) == LogTheorems.MessagesOf(situation.translated) +
           (if !opening.boundary.atStart && opening.boundary.rule.message.Some? then [opening.boundary.rule.message.value] else [])
      && LogTheorems.LinesOf(start.edits) == LogTheorems.LinesOf(situation.translated)
  {
    var added := if opening.boundary.atStart then [] else MessageEdit(opening.boundary.rule.message);
    TextsJoined(situation.translated, added);
    assert situation.translated + [] == situation.translated;
    assert LogTheorems.MessagesOf(situation.translated) + [] == LogTheorems.MessagesOf(situation.translated);
    assert LogTheorems.LinesOf(situation.translated) + [] == LogTheorems.LinesOf(situation.translated);
  }

  lemma {:induction false} TextsJoined(first: seq<Edit>, second: seq<Edit>)
    ensures LogTheorems.MessagesOf(first + second) == LogTheorems.MessagesOf(first) + LogTheorems.MessagesOf(second)
    ensures LogTheorems.LinesOf(first + second) == LogTheorems.LinesOf(first) + LogTheorems.LinesOf(second)
    decreases |first|
  {
    if first == [] {
      assert first + second == second;
    } else {
      assert (first + second)[1..] == first[1..] + second && (first + second)[0] == first[0];
      TextsJoined(first[1..], second);
    }
  }

  /** What the line is closed with, what it adds to the block under way, and what it shows outside all blocks. */
  lemma DecidesExactly(blocks: seq<(string, Block)>, situation: Situation, source: string, raw: string)
    ensures
      var d := Decide(blocks, situation, source, raw);
      var start := FirstStart(blocks, source, situation.processed);
      && d.processed == situation.processed && d.content.edits == situation.translated
      && d.messages == situation.messages && d.lines == [raw] && d.status == situation.status
      && (d.start.Some? <==> start.Some?) && (start.Some? ==> d.start == Some(StartOf(start.value, situation)))
      && (d.endMatch.Some? ==>
            var first := MatchRules(situation.active.value.block.parts.end, false, source, situation.processed);
            d.closing == ClosingChange(Some(first.value.rule)))
      && (d.endMatch.None? && d.boundary ==> d.closing == ClosingChange(None))
      && (d.endMatch.None? && !d.boundary && start.Some? ==> d.closing == ClosingChange(Some(start.value.boundary.rule)))
      && (situation.active.Some? ==> d.content.relabel == ToneRelabel(situation.active.value.block, situation.tone))
  {
  }
}
