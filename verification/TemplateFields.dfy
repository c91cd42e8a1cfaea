/** What the loaders read from a table, key by key: which tables load, with which values, and what stands in for an
    absent key. */
module TemplateFields {
  import opened Wrappers
  import opened Templates
  import Patterns
  import LiveState

  const Tones := {"default", "success", "warning", "danger", "info", "theme"}
  const Statuses := {"default", "running", "succeeded", "failed", "stopped", "unknown", "unfinished", "warning"}

  predicate WordAt(table: Dict, key: string, default: string, allowed: set<string>, word: string) {
    word in allowed && Get(table, key) in {Absent, Str(word)} && (Get(table, key).Absent? ==> word == default)
  }

  predicate TextAt(table: Dict, key: string, default: string, text: string) {
    Get(table, key) in {Absent, Str(text)} && (Get(table, key).Absent? ==> text == default)
  }

  predicate FlagAt(table: Dict, key: string, flag: bool) {
    Get(table, key) in {Absent, Bool(flag)} && (Get(table, key).Absent? ==> !flag)
  }

  predicate CountAt(table: Dict, key: string, count: nat) {
    Get(table, key) in {Absent, Integer(count)} && (Get(table, key).Absent? ==> count == 0)
  }

  predicate OptionAt(table: Dict, key: string, text: Option<string>) {
    if text.None? then Get(table, key).Absent? else text.value != "" && Get(table, key) == Str(text.value)
  }

  predicate OptionalWordAt(table: Dict, key: string, allowed: set<string>, word: Option<string>) {
    if word.None? then Get(table, key).Absent? else word.value in allowed && Get(table, key) == Str(word.value)
  }

  predicate ValuesAt(table: Dict, key: string, values: Dict) {
    if Get(table, key).Absent? then values == [] else Get(table, key) == Table(values)
  }

  predicate PatternAt(table: Dict, key: string, pattern: Pattern) {
    pattern.source != "" && Get(table, key) == Str(pattern.source) && Patterns.Compile(pattern.source) == Ok(pattern.tokens)
  }

  /** A table of strings, or nothing. */
  predicate StringsAt(table: Dict, key: string, strings: Strings) {
    if Get(table, key).Absent? then strings == []
    else Get(table, key).Table? && AreStrings(Get(table, key).entries, strings)
  }

  predicate AreStrings(entries: Dict, strings: Strings) {
    |entries| == |strings| && forall i :: 0 <= i < |entries| ==> entries[i] == (strings[i].0, Str(strings[i].1))
  }

  predicate OnlyNames(text: string, allowed: set<string>) {
    forall name :: name in Patterns.Names(Patterns.Tokens(text)) ==> name in allowed
  }

  // ---------------------------------------------------------------------------
  // Tables of strings
  // ---------------------------------------------------------------------------

  lemma {:induction false} AllStringsExactly(items: Dict, load: Loader<string>, strings: Strings)
    requires forall name, item :: load(name, item) == StringValue(item)
    ensures LoadAll(items, load) == Loaded(strings) <==> AreStrings(items, strings)
    decreases |items|
  {
    if items != [] {
      assert load(items[0].0, items[0].1) == StringValue(items[0].1);
      if strings != [] {
        AllStringsExactly(items[1..], load, strings[1..]);
        StringsCons(items, strings);
        assert strings == [strings[0]] + strings[1..];
      }
      if items[0].1.Str? && LoadAll(items[1..], load).Loaded? {
        var rest := LoadAll(items[1..], load).value;
        var all := [(items[0].0, items[0].1.text)] + rest;
        assert LoadAll(items, load) == Loaded(all) && all[0] == (items[0].0, items[0].1.text) && all[1..] == rest;
      }
    }
  }

  lemma StringsCons(items: Dict, strings: Strings)
    requires items != [] && strings != []
    ensures AreStrings(items, strings) <==> items[0] == (strings[0].0, Str(strings[0].1)) && AreStrings(items[1..], strings[1..])
  {
    if AreStrings(items[1..], strings[1..]) && items[0] == (strings[0].0, Str(strings[0].1)) {
      forall i | 0 <= i < |items| ensures items[i] == (strings[i].0, Str(strings[i].1)) {
        if i > 0 { assert items[1..][i - 1] == items[i] && strings[1..][i - 1] == strings[i]; }
      }
    }
  }

  lemma StringsExactly(table: Dict, key: string, strings: Strings)
    ensures StringMapping(Get(table, key)) == Loaded(strings) <==> StringsAt(table, key, strings)
  {
    if Get(table, key).Table? {
      AllStringsExactly(Get(table, key).entries, (name, item) => StringValue(item), strings);
    }
  }

  // ---------------------------------------------------------------------------
  // Fields, styles, segments
  // ---------------------------------------------------------------------------

  /** A field is text unless it says otherwise, comes from outside only if it says so, and a fallback is of its type. */
  lemma FieldExactly(table: Dict, spec: FieldSpec)
    ensures LoadField(table) == Loaded(spec) <==>
      && WordAt(table, "type", "string", {"string", "integer", "boolean"}, spec.fieldType)
      && FlagAt(table, "external", spec.external) && spec.fallback == Get(table, "fallback")
      && (spec.fallback.Absent?
          || (spec.fieldType == "string" && spec.fallback.Str?) || (spec.fieldType == "integer" && spec.fallback.Integer?)
          || (spec.fieldType == "boolean" && spec.fallback.Bool?))
  {
  }

  lemma StyleExactly(name: string, raw: Toml, references: set<string>, style: Style)
    ensures LoadStyle(name, raw, references) == Loaded(style) <==>
      && name in references && raw.Table? && Unknown(raw.entries, {"tone", "strong"}) == []
      && WordAt(raw.entries, "tone", "default", Tones, style.tone) && FlagAt(raw.entries, "strong", style.strong)
  {
  }

  lemma SegmentExactly(raw: Toml, references: set<string>, segment: Segment)
    ensures LoadSegment(raw, references) == Loaded(segment) <==>
      && raw.Table? && Unknown(raw.entries, {"text", "tone", "strong"}) == []
      && segment.text != "" && Get(raw.entries, "text") == Str(segment.text) && OnlyNames(segment.text, references)
      && WordAt(raw.entries, "tone", "default", Tones, segment.tone) && FlagAt(raw.entries, "strong", segment.strong)
  {
  }

  lemma LookupExactly(raw: Toml, strings: Strings)
    ensures LoadLookup(raw) == Loaded(strings) <==> raw.Table? && AreStrings(raw.entries, strings)
  {
    if raw.Table? { AllStringsExactly(raw.entries, (name, item) => StringValue(item), strings); }
  }

  /** All items load, one by one, in order and under their own names. */
  lemma {:induction false} AllExactly<T>(items: Dict, load: Loader<T>, loaded: seq<(string, T)>)
    ensures LoadAll(items, load) == Loaded(loaded) <==>
      && |loaded| == |items|
      && forall i :: 0 <= i < |items| ==> loaded[i].0 == items[i].0 && load(items[i].0, items[i].1) == Loaded(loaded[i].1)
    decreases |items|
  {
    if items != [] && loaded != [] {
      AllExactly(items[1..], load, loaded[1..]);
      assert loaded == [loaded[0]] + loaded[1..];
      assert forall i :: 1 <= i < |items| ==> items[i] == items[1..][i - 1];
      assert forall i :: 1 <= i < |loaded| ==> loaded[i] == loaded[1..][i - 1];
    }
    if items != [] && load(items[0].0, items[0].1).Loaded? && LoadAll(items[1..], load).Loaded? {
      var all := [(items[0].0, load(items[0].0, items[0].1).value)] + LoadAll(items[1..], load).value;
      assert LoadAll(items, load) == Loaded(all) && all[0].0 == items[0].0 && all[1..] == LoadAll(items[1..], load).value;
    }
  }

  /** A section is absent, or a list whose items are named by their numbers, or a table. */
  lemma ItemsExactly(value: Toml, list: bool, items: Dict)
    ensures ItemsOf(value, list) == Loaded(items) <==>
      || (value.Absent? && items == [])
      || (list && value.List? && |items| == |value.items|
          && forall i :: 0 <= i < |items| ==> items[i] == (LiveState.Decimal(i), value.items[i]))
      || (!list && value == Table(items))
  {
    if list && value.List? && |items| == |value.items| {
      assert (forall i :: 0 <= i < |items| ==> items[i] == Indexed(value.items)[i]) <==> items == Indexed(value.items);
      assert forall i :: 0 <= i < |items| ==> Indexed(value.items)[i] == (LiveState.Decimal(i), value.items[i]);
    }
  }

  lemma KeysExactly<T>(table: seq<(string, T)>, key: string)
    ensures key in Keys(table) <==> exists i :: 0 <= i < |table| && table[i].0 == key
  {
  }

  // ---------------------------------------------------------------------------
  // Rules and boundaries
  // ---------------------------------------------------------------------------

  lemma PatternExactly(table: Dict, key: string, pattern: Pattern)
    ensures CompilePattern(Get(table, key)) == Loaded(pattern) <==> PatternAt(table, key, pattern)
  {
  }

  lemma ReferencesExactly(text: string, allowed: set<string>)
    ensures ValidateReferences(text, allowed).Loaded? <==> OnlyNames(text, allowed)
    ensures !ValidateReferences(text, allowed).Loaded? ==> ValidateReferences(text, allowed).Rejected?
  {
  }

  /** A rule needs a pattern, emits unless it says drop, and its text may refer to what it captures, sets or finds among
      the fields. */
  lemma RuleHeadExactly(table: Dict, fields: Fields, head: RuleHead)
    ensures LoadRuleHead(table, fields) == Loaded(head) <==>
      && PatternAt(table, "match", head.pattern)
      && WordAt(table, "action", "emit", {"emit", "drop"}, head.action)
      && TextAt(table, "text", "", head.text) && ValuesAt(table, "values", head.values)
      && head.references == CaptureNames(head.pattern) + Keys(head.values) + Keys(fields) && OnlyNames(head.text, head.references)
  {
    PatternExactly(table, "match", head.pattern);
    ReferencesExactly(head.text, head.references);
  }

  lemma RuleWordsExactly(table: Dict, head: RuleHead, fields: Fields, lookups: Lookups, words: RuleWords)
    ensures LoadRuleWords(table, head, fields, lookups) == Loaded(words) <==>
      && OptionalWordAt(table, "tone", Tones, words.tone) && StringsAt(table, "lookups", words.lookups)
      && (forall i :: 0 <= i < |words.lookups| ==>
           words.lookups[i].0 in CaptureNames(head.pattern) + Keys(fields) && words.lookups[i].1 in Keys(lookups))
      && OptionalWordAt(table, "fold_role", {"noise", "emit_once"}, words.foldRole) && CountAt(table, "indent", words.indent)
  {
    StringsExactly(table, "lookups", words.lookups);
  }

  lemma RulePartsExactly(table: Dict, references: set<string>)
    ensures
      var parts := LoadRuleParts(table, references);
      var styles := LoadSection(Get(table, "styles"), false, StyleLoader(references));
      var segments := LoadSection(Get(table, "segments"), true, SegmentLoader(references));
      var replacements := LoadSection(Get(table, "replacements"), false, LookupLoader());
      var foldGroup := OptionalNonEmpty(Get(table, "fold_group"));
      && (parts.Loaded? <==> styles.Loaded? && segments.Loaded? && replacements.Loaded? && foldGroup.Loaded?)
      && (parts.Loaded? ==>
            && parts.value == RuleParts(styles.value, segments.value, replacements.value, foldGroup.value)
            && OptionAt(table, "fold_group", parts.value.foldGroup))
  {
  }

  lemma RuleExactly(table: Dict, fields: Fields, lookups: Lookups, rule: TemplateRule)
    ensures LoadRule(table, fields, lookups) == Loaded(rule) <==>
      && LoadRuleHead(table, fields) == Loaded(rule.head)
      && LoadRuleWords(table, rule.head, fields, lookups) == Loaded(rule.words)
      && LoadRuleParts(table, rule.head.references) == Loaded(rule.parts)
  {
  }

  /** A boundary needs a source and a pattern; it does not reprocess its line, and brings no message and no values, unless
      it says so. */
  lemma BoundaryExactly(table: Dict, rule: BoundaryRule)
    ensures LoadBoundary(table) == Loaded(rule) <==>
      && rule.source != "" && Get(table, "source") == Str(rule.source) && PatternAt(table, "match", rule.pattern)
      && ValuesAt(table, "values", rule.values) && FlagAt(table, "reprocess", rule.reprocess)
      && OptionAt(table, "message", rule.message) && WordAt(table, "message_tone", "default", Tones, rule.messageTone)
  {
  }

  // ---------------------------------------------------------------------------
  // Blocks
  // ---------------------------------------------------------------------------

  /** The kind of a block is its name unless it has another; status and tones are the default ones unless given. */
  lemma BlockWordsExactly(name: string, table: Dict, words: BlockWords)
    ensures LoadBlockWords(name, table) == Loaded(words) <==>
      && words.kind != "" && TextAt(table, "kind", name, words.kind) && TextAt(table, "title", "", words.title)
      && WordAt(table, "status", "default", Statuses, words.status)
      && WordAt(table, "tone", "default", Tones, words.tone) && WordAt(table, "message_tone", "default", Tones, words.messageTone)
      && OptionAt(table, "panel_kind", words.panelKind) && StringsAt(table, "entry", words.entryFields)
      && Keys(words.entryFields) <= {"title", "name", "task_id", "source_name"}
  {
    StringsExactly(table, "entry", words.entryFields);
  }

  lemma BlockFlagsExactly(table: Dict, flags: BlockFlags)
    ensures LoadBlockFlags(table) == Loaded(flags) <==>
      && FlagAt(table, "capture_start", flags.captureStart) && FlagAt(table, "emit_start", flags.emitStart)
      && FlagAt(table, "track_elapsed", flags.trackElapsed) && CountAt(table, "fallback_indent", flags.fallbackIndent)
      && FlagAt(table, "status_from_message_tone", flags.statusFromMessageTone)
      && OptionAt(table, "close_on_metadata", flags.closeOnMetadata)
  {
  }

  /** The title and the entry fields of a block may refer to fields and to what its boundaries capture, and to no other. */
  lemma BlockExactly(name: string, table: Dict, fields: Fields, parts: BlockParts, block: Block)
    ensures LoadBlock(name, table, fields, parts) == Loaded(block) <==>
      && block.parts == parts && LoadBlockWords(name, table) == Loaded(block.words) && LoadBlockFlags(table) == Loaded(block.flags)
      && var names := Keys(fields) + BoundaryCaptures(parts.start) + BoundaryCaptures(parts.end);
         && OnlyNames(block.words.title, names)
         && forall i :: 0 <= i < |block.words.entryFields| ==> OnlyNames(block.words.entryFields[i].1, names)
  {
    var names := Keys(fields) + BoundaryCaptures(parts.start) + BoundaryCaptures(parts.end);
    forall text ensures ValidateReferences(text, names).Loaded? <==> OnlyNames(text, names) {
    }
  }

  lemma {:induction false} BoundaryCapturesExactly(boundaries: seq<(string, BoundaryRule)>, name: string)
    ensures name in BoundaryCaptures(boundaries) <==>
      exists i :: 0 <= i < |boundaries| && name in Patterns.Names(boundaries[i].1.pattern.tokens)
  {
    if boundaries != [] {
      BoundaryCapturesExactly(boundaries[1..], name);
      assert forall i :: 1 <= i < |boundaries| ==> boundaries[i] == boundaries[1..][i - 1];
      if name in BoundaryCaptures(boundaries[1..]) {
        var i :| 0 <= i < |boundaries[1..]| && name in Patterns.Names(boundaries[1..][i].1.pattern.tokens);
        assert boundaries[i + 1] == boundaries[1..][i];
      }
    }
  }

  /** Strict loading needs version 1, no unknown keys, a global section and at least one block; everything is loaded
      against the fields and lookups of the document. */
  lemma DocumentExactly(document: Dict, template: Template)
    ensures LoadStrict(document) == Loaded(template) <==>
      && Get(document, "version") in {Integer(1), Float(1.0)} && Unknown(document, {"version", "global", "blocks"}) == []
      && Get(document, "global").Table?
      && var section := Get(document, "global").entries;
         && Unknown(section, {"fields", "lookups", "translations", "rules"}) == []
         && LoadSection(Get(section, "fields"), false, FieldLoader()) == Loaded(template.fields)
         && LoadSection(Get(section, "lookups"), false, LookupLoader()) == Loaded(template.lookups)
         && StringsAt(section, "translations", template.translations)
         && LoadSection(Get(section, "rules"), true, RuleLoader(template.fields, template.lookups)) == Loaded(template.rules)
         && Get(document, "blocks").Table? && Get(document, "blocks").entries != []
         && LoadAll(Get(document, "blocks").entries, BlockLoader(template.fields, template.lookups)) == Loaded(template.blocks)
  {
    if Get(document, "global").Table? { StringsExactly(Get(document, "global").entries, "translations", template.translations); }
  }

  /** A value is found under the first entry with its key, and absent if there is none. */
  lemma {:induction false} GetExactly(table: Dict, key: string, i: nat)
    requires i <= |table| && forall j :: 0 <= j < i ==> table[j].0 != key
    ensures i == |table| ==> Get(table, key) == Absent
    ensures i < |table| && table[i].0 == key ==> Get(table, key) == table[i].1
    decreases |table|
  {
    if table != [] && i > 0 { GetExactly(table[1..], key, i - 1); }
  }

  // ---------------------------------------------------------------------------
  // Diagnostics
  // ---------------------------------------------------------------------------

  /** What tolerant loading says about one item of a list of rules: the unknown keys it ignored, and where the item stands if
      it is dropped. */
  predicate Says<T>(result: Load<(Option<T>, Diagnostics)>, ignored: seq<string>, place: string) {
    result.Loaded? ==> result.value.1 == ignored + if result.value.0.Some? then [] else [place]
  }

  lemma ItemDiagnostics(location: string, name: string, raw: Toml, fields: Fields, lookups: Lookups)
    ensures
      var table := if raw.Table? then raw.entries else [];
      && Says(RuleTolerator(location, fields, lookups)(name, raw), Unknown(table, RULE_KEYS), location + "." + name)
      && Says(BoundaryTolerator(location)(name, raw), Unknown(table, BOUNDARY_KEYS), location + "." + name)
      && Says(FieldTolerator()(name, raw), Unknown(table, FIELD_KEYS), "global.fields." + name)
      && Says(LookupTolerator()(name, raw), [], "global.lookups." + name)
      && Says(StringTolerator(location)(name, raw), [], location + "." + name)
  {
  }

  /** A section of a block that has the wrong shape is dropped whole, and named. */
  lemma SectionDiagnostics(location: string, table: Dict, fields: Fields, lookups: Lookups, key: string)
    requires key in {"rules", "start", "end"} && !Get(table, key).Absent? && !Get(table, key).List?
    requires TolerantParts(location, table, fields, lookups).Loaded?
    ensures (location + "." + key) in TolerantParts(location, table, fields, lookups).value.1
  {
    assert location + ".rules" == location + "." + "rules" && location + ".start" == location + "." + "start"
      && location + ".end" == location + "." + "end";
  }

  /** So is a part of the global section that has the wrong shape. */
  lemma GlobalDiagnostics(document: Dict)
    requires LoadTolerant(document).Loaded? && Get(document, "global").Table?
    ensures
      var (section, said) := (Cleaned(Get(document, "global").entries, GLOBAL_KEYS), LoadTolerant(document).value.1);
      && (!Get(section, "fields").Absent? && !Get(section, "fields").Table? ==> "global.fields" in said)
      && (!Get(section, "lookups").Absent? && !Get(section, "lookups").Table? ==> "global.lookups" in said)
      && (!Get(section, "translations").Absent? && !Get(section, "translations").Table? ==> "global.translations" in said)
      && (!Get(section, "rules").Absent? && !Get(section, "rules").List? ==> "global.rules" in said)
  {
  }

  /** So are a global section that is no table, blocks there are none of, and keys of the document nobody knows. */
  lemma DocumentDiagnostics(document: Dict, key: string)
    requires LoadTolerant(document).Loaded?
    ensures !Get(document, "global").Table? ==> "global" in LoadTolerant(document).value.1
    ensures !Get(document, "blocks").Table? || Get(document, "blocks").entries == [] ==> "blocks" in LoadTolerant(document).value.1
    ensures key in Unknown(document, DOCUMENT_KEYS) ==> key in LoadTolerant(document).value.1
  {
  }

  /** An unknown key is one that is not among the known ones; nothing else of the table is cleaned away. */
  lemma {:induction false} CleanedExactly(table: Dict, allowed: set<string>)
    ensures forall key :: key in Unknown(table, allowed) <==> key !in allowed && key in Keys(table)
    ensures forall item :: item in Cleaned(table, allowed) <==> item in table && item.0 in allowed
    decreases |table|
  {
    if table != [] {
      CleanedExactly(table[1..], allowed);
      assert table == [table[0]] + table[1..];
      assert forall key :: key in Keys(table) <==> key == table[0].0 || key in Keys(table[1..]) by { KeysStep(table); }
    }
  }

  lemma KeysStep(table: Dict)
    requires table != []
    ensures forall key :: key in Keys(table) <==> key == table[0].0 || key in Keys(table[1..])
  {
    forall key | key in Keys(table) ensures key == table[0].0 || key in Keys(table[1..]) {
      var i :| 0 <= i < |table| && table[i].0 == key;
      if i > 0 { assert table[1..][i - 1] == table[i]; }
    }
    forall key | key in Keys(table[1..]) ensures key in Keys(table) {
      var i :| 0 <= i < |table[1..]| && table[1..][i].0 == key;
      assert table[i + 1] == table[1..][i];
    }
    assert table[0].0 in Keys(table);
  }
}
