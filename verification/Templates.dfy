/** Loading of log templates, strict and tolerant: what the one accepts, and what the other keeps. */
module Templates {
  import opened Wrappers
  import LiveState
  import Patterns

  /** A decoded TOML value; a table keeps the order of its keys. */
  datatype Toml =
    | Absent
    | Bool(flag: bool)
    | Integer(number: int)
    | Float(value: real)
    | Str(text: string)
    | List(items: seq<Toml>)
    | Table(entries: Dict)

  type Dict = seq<(string, Toml)>

  /** A loader succeeds, rejects its input with a validation error, or fails with an error nobody expects. */
  datatype Load<+T> = Loaded(value: T) | Rejected | Crashed {
    predicate IsFailure() {
      !Loaded?
    }
    function PropagateFailure<U>(): Load<U>
      requires IsFailure()
    {
      if Rejected? then Rejected else Crashed
    }
    function Extract(): T
      requires !IsFailure()
    {
      value
    }
  }

  type Diagnostics = seq<string>

  // ---------------------------------------------------------------------------
  // Values
  // ---------------------------------------------------------------------------

  function Get(table: Dict, key: string): Toml {
    if table == [] then Absent else if table[0].0 == key then table[0].1 else Get(table[1..], key)
  }

  function GetOr(table: Dict, key: string, default: Toml): Toml {
    if Get(table, key).Absent? then default else Get(table, key)
  }

  function Keys<T>(table: seq<(string, T)>): set<string> {
    set i | 0 <= i < |table| :: table[i].0
  }

  function StringValue(value: Toml): Load<string> {
    if value.Str? then Loaded(value.text) else Rejected
  }

  function NonEmpty(value: Toml): Load<string> {
    if value.Str? && value.text != "" then Loaded(value.text) else Rejected
  }

  function OptionalNonEmpty(value: Toml): Load<Option<string>> {
    if value.Absent? then Loaded(None) else var text :- NonEmpty(value); Loaded(Some(text))
  }

  function BoolValue(value: Toml): Load<bool> {
    if value.Bool? then Loaded(value.flag) else Rejected
  }

  function NonNegative(value: Toml): Load<nat> {
    if value.Integer? && value.number >= 0 then Loaded(value.number) else Rejected
  }

  /** Membership in a set of strings; a list or a table cannot even be looked up there. */
  function OneOf(value: Toml, allowed: set<string>): Load<string> {
    if value.List? || value.Table? then Crashed
    else if value.Str? && value.text in allowed then Loaded(value.text)
    else Rejected
  }

  const TONES := {"default", "success", "warning", "danger", "info", "theme"}
  const STATUSES := {"default", "running", "succeeded", "failed", "stopped", "unknown", "unfinished", "warning"}

  // ---------------------------------------------------------------------------
  // Loading many items
  // ---------------------------------------------------------------------------

  type Loader<!T> = (string, Toml) -> Load<T>

  /** What a tolerant loader makes of one item: its value, if it survived, and what was discarded. */
  type Tolerator<!T> = (string, Toml) -> Load<(Option<T>, Diagnostics)>

  /** Strictly: the first item that fails ends it all. */
  function LoadAll<T>(items: Dict, load: Loader<T>): Load<seq<(string, T)>> {
    if items == [] then Loaded([])
    else
      var first :- load(items[0].0, items[0].1);
      var rest :- LoadAll(items[1..], load);
      Loaded([(items[0].0, first)] + rest)
  }

  /** Tolerantly: items that do not survive leave diagnostics. */
  function TolerateAll<T>(items: Dict, load: Tolerator<T>): Load<(seq<(string, T)>, Diagnostics)> {
    if items == [] then Loaded(([], []))
    else
      var first :- load(items[0].0, items[0].1);
      var rest :- TolerateAll(items[1..], load);
      Loaded(((if first.0.Some? then [(items[0].0, first.0.value)] else []) + rest.0, first.1 + rest.1))
  }

  function Indexed(items: seq<Toml>): Dict {
    seq(|items|, i requires 0 <= i < |items| => (LiveState.Decimal(i), items[i]))
  }

  /** A section is absent, or has the right shape; `list` says which shape that is. */
  function ItemsOf(value: Toml, list: bool): Load<Dict> {
    if value.Absent? then Loaded([])
    else if list && value.List? then Loaded(Indexed(value.items))
    else if !list && value.Table? then Loaded(value.entries)
    else Rejected
  }

  function LoadSection<T>(value: Toml, list: bool, load: Loader<T>): Load<seq<(string, T)>> {
    var items :- ItemsOf(value, list);
    LoadAll(items, load)
  }

  function TolerateSection<T>(value: Toml, list: bool, location: string, load: Tolerator<T>): Load<(seq<(string, T)>, Diagnostics)> {
    var items := ItemsOf(value, list);
    if items.Loaded? then TolerateAll(items.value, load) else Loaded(([], [location]))
  }

  function Unknown(table: Dict, allowed: set<string>): seq<string> {
    if table == [] then []
    else (if table[0].0 in allowed then [] else [table[0].0]) + Unknown(table[1..], allowed)
  }

  function Cleaned(table: Dict, allowed: set<string>): Dict {
    if table == [] then []
    else (if table[0].0 in allowed then [table[0]] else []) + Cleaned(table[1..], allowed)
  }

  /** An item that must be a table with known keys only. */
  function LoadTable<T>(raw: Toml, allowed: set<string>, load: Dict -> Load<T>): Load<T> {
    if !raw.Table? || Unknown(raw.entries, allowed) != [] then Rejected else load(raw.entries)
  }

  /** A rejected load becomes a diagnostic; a crash stays one. */
  function Isolated<T>(result: Load<T>, location: string, diagnostics: Diagnostics): Load<(Option<T>, Diagnostics)> {
    match result
    case Loaded(value) => Loaded((Some(value), diagnostics))
    case Rejected => Loaded((None, diagnostics + [location]))
    case Crashed => Crashed
  }

  function TolerateTable<T>(raw: Toml, allowed: set<string>, location: string, load: Dict -> Load<T>): Load<(Option<T>, Diagnostics)> {
    if !raw.Table? then Loaded((None, [location]))
    else Isolated(load(Cleaned(raw.entries, allowed)), location, Unknown(raw.entries, allowed))
  }

  // ---------------------------------------------------------------------------
  // Fragments
  // ---------------------------------------------------------------------------

  datatype FieldSpec = FieldSpec(fieldType: string, external: bool, fallback: Toml)

  datatype Style = Style(tone: string, strong: bool)

  datatype Segment = Segment(text: string, tone: string, strong: bool)

  datatype Pattern = Pattern(source: string, tokens: seq<Patterns.Token>)

  datatype TemplateRule = TemplateRule(head: RuleHead, words: RuleWords, parts: RuleParts)

  datatype BoundaryRule = BoundaryRule(
    source: string,
    pattern: Pattern,
    values: Dict,
    reprocess: bool,
    message: Option<string>,
    messageTone: string)

  type Fields = seq<(string, FieldSpec)>
  type Strings = seq<(string, string)>
  type Lookups = seq<(string, Strings)>

  const FIELD_KEYS := {"type", "external", "fallback"}
  const STYLE_KEYS := {"tone", "strong"}
  const SEGMENT_KEYS := {"text", "tone", "strong"}
  const RULE_KEYS := {"match", "action", "text", "tone", "indent", "styles", "segments", "lookups", "replacements", "values",
                      "fold_group", "fold_role"}
  const BOUNDARY_KEYS := {"source", "match", "values", "reprocess", "message", "message_tone"}
  const BLOCK_KEYS := {"translations", "rules", "start", "end", "kind", "title", "status", "tone", "message_tone", "panel_kind",
                       "entry", "capture_start", "emit_start", "track_elapsed", "fallback_indent", "status_from_message_tone",
                       "close_on_metadata"}

  function CompilePattern(value: Toml): Load<Pattern> {
    var source :- NonEmpty(value);
    var compiled := Patterns.Compile(source);
    if compiled.Ok? then Loaded(Pattern(source, compiled.value)) else Rejected
  }

  function CaptureNames(pattern: Pattern): set<string> {
    set name | name in Patterns.Names(pattern.tokens)
  }

  function ValidateReferences(text: string, allowed: set<string>): Load<()> {
    if forall name :: name in Patterns.Names(Patterns.Tokens(text)) ==> name in allowed then Loaded(()) else Rejected
  }

  /** All entries must be strings. */
  function StringMapping(value: Toml): Load<Strings> {
    LoadSection(value, false, (name, item) => StringValue(item))
  }

  function ValuesOf(value: Toml): Load<Dict> {
    if value.Absent? then Loaded([]) else if value.Table? then Loaded(value.entries) else Rejected
  }

  function LoadField(table: Dict): Load<FieldSpec> {
    var fieldType :- OneOf(GetOr(table, "type", Str("string")), {"string", "integer", "boolean"});
    var external :- BoolValue(GetOr(table, "external", Bool(false)));
    var fallback := Get(table, "fallback");
    var fits := match fieldType
      case "string" => fallback.Str?
      case "integer" => fallback.Integer?
      case _ => fallback.Bool?;
    if fallback.Absent? || fits then Loaded(FieldSpec(fieldType, external, fallback)) else Rejected
  }

  /** A lookup is a table of strings; absence is not excused here. */
  function LoadLookup(raw: Toml): Load<Strings> {
    if raw.Table? then StringMapping(raw) else Rejected
  }

  function LoadStyle(name: string, raw: Toml, references: set<string>): Load<Style> {
    if name !in references then Rejected
    else LoadTable(raw, STYLE_KEYS, table =>
      var tone :- OneOf(GetOr(table, "tone", Str("default")), TONES);
      var strong :- BoolValue(GetOr(table, "strong", Bool(false)));
      Loaded(Style(tone, strong)))
  }

  function LoadSegment(raw: Toml, references: set<string>): Load<Segment> {
    LoadTable(raw, SEGMENT_KEYS, table =>
      var text :- NonEmpty(Get(table, "text"));
      var _ :- ValidateReferences(text, references);
      var tone :- OneOf(GetOr(table, "tone", Str("default")), TONES);
      var strong :- BoolValue(GetOr(table, "strong", Bool(false)));
      Loaded(Segment(text, tone, strong)))
  }

  function StyleLoader(references: set<string>): Loader<Style> {
    (name, raw) => LoadStyle(name, raw, references)
  }

  function SegmentLoader(references: set<string>): Loader<Segment> {
    (name, raw) => LoadSegment(raw, references)
  }

  /** Every lookup of a rule names a capture or field and an existing lookup. */
  predicate LookupsKnown(references: Strings, names: set<string>, lookups: Lookups) {
    forall i :: 0 <= i < |references| ==> references[i].0 in names && references[i].1 in Keys(lookups)
  }

  /** The pattern of a rule and what its text may refer to. */
  datatype RuleHead = RuleHead(pattern: Pattern, action: string, text: string, values: Dict, references: set<string>)

  function LoadRuleHead(table: Dict, fields: Fields): Load<RuleHead> {
    var pattern :- CompilePattern(Get(table, "match"));
    var action :- OneOf(GetOr(table, "action", Str("emit")), {"emit", "drop"});
    var text :- StringValue(GetOr(table, "text", Str("")));
    var values :- ValuesOf(Get(table, "values"));
    var references := CaptureNames(pattern) + Keys(values) + Keys(fields);
    var _ :- ValidateReferences(text, references);
    Loaded(RuleHead(pattern, action, text, values, references))
  }

  datatype RuleWords = RuleWords(tone: Option<string>, lookups: Strings, foldRole: Option<string>, indent: nat)

  function LoadRuleWords(table: Dict, head: RuleHead, fields: Fields, lookups: Lookups): Load<RuleWords> {
    var tone :- OptionalTone(Get(table, "tone"));
    var references :- StringMapping(Get(table, "lookups"));
    if !LookupsKnown(references, CaptureNames(head.pattern) + Keys(fields), lookups) then Rejected
    else
      var foldRole :- OptionalOneOf(Get(table, "fold_role"), {"noise", "emit_once"});
      var indent :- NonNegative(GetOr(table, "indent", Integer(0)));
      Loaded(RuleWords(tone, references, foldRole, indent))
  }

  datatype RuleParts = RuleParts(styles: seq<(string, Style)>, segments: seq<(string, Segment)>, replacements: Lookups, foldGroup: Option<string>)

  function LoadRuleParts(table: Dict, references: set<string>): Load<RuleParts> {
    var styles :- LoadSection(Get(table, "styles"), false, StyleLoader(references));
    var segments :- LoadSection(Get(table, "segments"), true, SegmentLoader(references));
    var replacements :- LoadSection(Get(table, "replacements"), false, LookupLoader());
    var foldGroup :- OptionalNonEmpty(Get(table, "fold_group"));
    Loaded(RuleParts(styles, segments, replacements, foldGroup))
  }

  function LoadRule(table: Dict, fields: Fields, lookups: Lookups): Load<TemplateRule> {
    var head :- LoadRuleHead(table, fields);
    var words :- LoadRuleWords(table, head, fields, lookups);
    var parts :- LoadRuleParts(table, head.references);
    Loaded(TemplateRule(head, words, parts))
  }

  function OptionalOneOf(value: Toml, allowed: set<string>): Load<Option<string>> {
    if value.Absent? then Loaded(None) else var text :- OneOf(value, allowed); Loaded(Some(text))
  }

  function OptionalTone(value: Toml): Load<Option<string>> {
    OptionalOneOf(value, TONES)
  }

  function LoadBoundary(table: Dict): Load<BoundaryRule> {
    var values :- ValuesOf(Get(table, "values"));
    var source :- NonEmpty(Get(table, "source"));
    var pattern :- CompilePattern(Get(table, "match"));
    var reprocess :- BoolValue(GetOr(table, "reprocess", Bool(false)));
    var message :- OptionalNonEmpty(Get(table, "message"));
    var messageTone :- OneOf(GetOr(table, "message_tone", Str("default")), TONES);
    Loaded(BoundaryRule(source, pattern, values, reprocess, message, messageTone))
  }

  // ---------------------------------------------------------------------------
  // Blocks
  // ---------------------------------------------------------------------------

  /** The parts of a block that are loaded item by item. */
  datatype BlockParts = BlockParts(
    rules: seq<(string, TemplateRule)>,
    start: seq<(string, BoundaryRule)>,
    end: seq<(string, BoundaryRule)>,
    translations: Strings)

  datatype BlockWords = BlockWords(
    kind: string,
    title: string,
    status: string,
    tone: string,
    messageTone: string,
    panelKind: Option<string>,
    entryFields: Strings)

  datatype BlockFlags = BlockFlags(
    captureStart: bool,
    emitStart: bool,
    trackElapsed: bool,
    fallbackIndent: nat,
    statusFromMessageTone: bool,
    closeOnMetadata: Option<string>)

  datatype Block = Block(parts: BlockParts, words: BlockWords, flags: BlockFlags)

  function BoundaryCaptures(boundaries: seq<(string, BoundaryRule)>): set<string> {
    if boundaries == [] then {} else CaptureNames(boundaries[0].1.pattern) + BoundaryCaptures(boundaries[1..])
  }

  function LoadBlockWords(name: string, table: Dict): Load<BlockWords> {
    var kind :- NonEmpty(GetOr(table, "kind", Str(name)));
    var title :- StringValue(GetOr(table, "title", Str("")));
    var status :- OneOf(GetOr(table, "status", Str("default")), STATUSES);
    var tone :- OneOf(GetOr(table, "tone", Str("default")), TONES);
    var messageTone :- OneOf(GetOr(table, "message_tone", Str("default")), TONES);
    var panelKind :- OptionalNonEmpty(Get(table, "panel_kind"));
    var entryFields :- StringMapping(Get(table, "entry"));
    if Keys(entryFields) <= {"title", "name", "task_id", "source_name"}
    then Loaded(BlockWords(kind, title, status, tone, messageTone, panelKind, entryFields)) else Rejected
  }

  function LoadBlockFlags(table: Dict): Load<BlockFlags> {
    var captureStart :- BoolValue(GetOr(table, "capture_start", Bool(false)));
    var emitStart :- BoolValue(GetOr(table, "emit_start", Bool(false)));
    var trackElapsed :- BoolValue(GetOr(table, "track_elapsed", Bool(false)));
    var fallbackIndent :- NonNegative(GetOr(table, "fallback_indent", Integer(0)));
    var statusFromMessageTone :- BoolValue(GetOr(table, "status_from_message_tone", Bool(false)));
    var closeOnMetadata :- OptionalNonEmpty(Get(table, "close_on_metadata"));
    Loaded(BlockFlags(captureStart, emitStart, trackElapsed, fallbackIndent, statusFromMessageTone, closeOnMetadata))
  }

  /** The title and the entry fields may refer to fields and to what the boundaries capture. */
  predicate BlockRefersToKnown(words: BlockWords, fields: Fields, parts: BlockParts) {
    var references := Keys(fields) + BoundaryCaptures(parts.start) + BoundaryCaptures(parts.end);
    && ValidateReferences(words.title, references).Loaded?
    && forall i :: 0 <= i < |words.entryFields| ==> ValidateReferences(words.entryFields[i].1, references).Loaded?
  }

  /** The rest of a block, given its parts. */
  function LoadBlock(name: string, table: Dict, fields: Fields, parts: BlockParts): Load<Block> {
    var words :- LoadBlockWords(name, table);
    if !BlockRefersToKnown(words, fields, parts) then Rejected
    else
      var flags :- LoadBlockFlags(table);
      Loaded(Block(parts, words, flags))
  }

  function StrictParts(table: Dict, fields: Fields, lookups: Lookups): Load<BlockParts> {
    var rules :- LoadSection(Get(table, "rules"), true, RuleLoader(fields, lookups));
    var start :- LoadSection(Get(table, "start"), true, BoundaryLoader());
    var end :- LoadSection(Get(table, "end"), true, BoundaryLoader());
    var translations :- StringMapping(Get(table, "translations"));
    Loaded(BlockParts(rules, start, end, translations))
  }

  function RuleLoader(fields: Fields, lookups: Lookups): Loader<TemplateRule> {
    (name, raw) => LoadTable(raw, RULE_KEYS, table => LoadRule(table, fields, lookups))
  }

  function BoundaryLoader(): Loader<BoundaryRule> {
    (name, raw) => LoadTable(raw, BOUNDARY_KEYS, LoadBoundary)
  }

  function FieldLoader(): Loader<FieldSpec> {
    (name, raw) => LoadTable(raw, FIELD_KEYS, LoadField)
  }

  function LookupLoader(): Loader<Strings> {
    (name, raw) => LoadLookup(raw)
  }

  function StrictBlock(name: string, raw: Toml, fields: Fields, lookups: Lookups): Load<Block> {
    if !raw.Table? || Unknown(raw.entries, BLOCK_KEYS) != [] then Rejected
    else
      var parts :- StrictParts(raw.entries, fields, lookups);
      LoadBlock(name, raw.entries, fields, parts)
  }

  function BlockLoader(fields: Fields, lookups: Lookups): Loader<Block> {
    (name, raw) => StrictBlock(name, raw, fields, lookups)
  }

  function RuleTolerator(location: string, fields: Fields, lookups: Lookups): Tolerator<TemplateRule> {
    (name, raw) => TolerateTable(raw, RULE_KEYS, location + "." + name, table => LoadRule(table, fields, lookups))
  }

  function BoundaryTolerator(location: string): Tolerator<BoundaryRule> {
    (name, raw) => TolerateTable(raw, BOUNDARY_KEYS, location + "." + name, LoadBoundary)
  }

  function FieldTolerator(): Tolerator<FieldSpec> {
    (name, raw) => TolerateTable(raw, FIELD_KEYS, "global.fields." + name, LoadField)
  }

  function LookupTolerator(): Tolerator<Strings> {
    (name, raw) => Isolated(LoadLookup(raw), "global.lookups." + name, [])
  }

  function StringTolerator(location: string): Tolerator<string> {
    (name, raw) => Isolated(StringValue(raw), location + "." + name, [])
  }

  function TolerantParts(location: string, table: Dict, fields: Fields, lookups: Lookups): Load<(BlockParts, Diagnostics)> {
    var rules :- TolerateSection(Get(table, "rules"), true, location + ".rules", RuleTolerator(location + ".rules", fields, lookups));
    var start :- TolerateSection(Get(table, "start"), true, location + ".start", BoundaryTolerator(location + ".start"));
    var end :- TolerateSection(Get(table, "end"), true, location + ".end", BoundaryTolerator(location + ".end"));
    var translations :- TolerateSection(Get(table, "translations"), false, location + ".translations", StringTolerator(location + ".translations"));
    Loaded((BlockParts(rules.0, start.0, end.0, translations.0), rules.1 + start.1 + end.1 + translations.1))
  }

  function TolerateBlock(name: string, raw: Toml, fields: Fields, lookups: Lookups): Load<(Option<Block>, Diagnostics)> {
    var location := "blocks." + name;
    if !raw.Table? then Loaded((None, [location]))
    else
      var table := Cleaned(raw.entries, BLOCK_KEYS);
      var parts :- TolerantParts(location, table, fields, lookups);
      Isolated(LoadBlock(name, table, fields, parts.0), location, Unknown(raw.entries, BLOCK_KEYS) + parts.1)
  }

  function BlockTolerator(fields: Fields, lookups: Lookups): Tolerator<Block> {
    (name, raw) => TolerateBlock(name, raw, fields, lookups)
  }

  // ---------------------------------------------------------------------------
  // Documents
  // ---------------------------------------------------------------------------

  datatype Template = Template(
    fields: Fields,
    lookups: Lookups,
    translations: Strings,
    rules: seq<(string, TemplateRule)>,
    blocks: seq<(string, Block)>)

  const DOCUMENT_KEYS := {"version", "global", "blocks"}
  const GLOBAL_KEYS := {"fields", "lookups", "translations", "rules"}

  predicate SupportedVersion(document: Dict) {
    Get(document, "version") == Integer(1) || Get(document, "version") == Float(1.0)
  }

  function LoadStrict(document: Dict): Load<Template> {
    if !SupportedVersion(document) || Unknown(document, DOCUMENT_KEYS) != [] then Rejected
    else
      var section := Get(document, "global");
      if !section.Table? || Unknown(section.entries, GLOBAL_KEYS) != [] then Rejected
      else
        var fields :- LoadSection(Get(section.entries, "fields"), false, FieldLoader());
        var lookups :- LoadSection(Get(section.entries, "lookups"), false, LookupLoader());
        var translations :- StringMapping(Get(section.entries, "translations"));
        var rules :- LoadSection(Get(section.entries, "rules"), true, RuleLoader(fields, lookups));
        var blocks :- LoadBlocks(Get(document, "blocks"), fields, lookups);
        Loaded(Template(fields, lookups, translations, rules, blocks))
  }

  /** At least one block is required. */
  function LoadBlocks(value: Toml, fields: Fields, lookups: Lookups): Load<seq<(string, Block)>> {
    if !value.Table? || value.entries == [] then Rejected else LoadAll(value.entries, BlockLoader(fields, lookups))
  }

  function TolerateBlocks(value: Toml, fields: Fields, lookups: Lookups): Load<(seq<(string, Block)>, Diagnostics)> {
    if !value.Table? || value.entries == [] then Loaded(([], ["blocks"])) else TolerateAll(value.entries, BlockTolerator(fields, lookups))
  }

  function LoadTolerant(document: Dict): Load<(Template, Diagnostics)> {
    if !SupportedVersion(document) then Rejected
    else
      var raw := Get(document, "global");
      var section := if raw.Table? then Cleaned(raw.entries, GLOBAL_KEYS) else [];
      var discarded := Unknown(document, DOCUMENT_KEYS) + if raw.Table? then Unknown(raw.entries, GLOBAL_KEYS) else ["global"];
      var fields :- TolerateSection(Get(section, "fields"), false, "global.fields", FieldTolerator());
      var lookups :- TolerateSection(Get(section, "lookups"), false, "global.lookups", LookupTolerator());
      var translations :- TolerateSection(Get(section, "translations"), false, "global.translations", StringTolerator("global.translations"));
      var rules :- TolerateSection(Get(section, "rules"), true, "global.rules", RuleTolerator("global.rules", fields.0, lookups.0));
      var blocks :- TolerateBlocks(Get(document, "blocks"), fields.0, lookups.0);
      Loaded((Template(fields.0, lookups.0, translations.0, rules.0, blocks.0),
              discarded + fields.1 + lookups.1 + translations.1 + rules.1 + blocks.1))
  }

  // ---------------------------------------------------------------------------
  // Tolerant loading refines strict loading
  // ---------------------------------------------------------------------------

  /** The tolerant result without diagnostics is the strict result, and a dropped item is never silent. */
  ghost predicate AgreesOn<T>(tolerant: Load<(Option<T>, Diagnostics)>, strict: Load<T>) {
    && !tolerant.Rejected?
    && (strict.Loaded? <==> tolerant.Loaded? && tolerant.value.1 == [])
    && (strict.Loaded? ==> tolerant.value.0 == Some(strict.value))
  }

  ghost predicate SectionAgrees<T>(tolerant: Load<(T, Diagnostics)>, strict: Load<T>) {
    && !tolerant.Rejected?
    && (strict.Loaded? <==> tolerant.Loaded? && tolerant.value.1 == [])
    && (strict.Loaded? ==> tolerant.value.0 == strict.value)
  }

  lemma {:induction false} NothingToClean(table: Dict, allowed: set<string>)
    requires Unknown(table, allowed) == []
    ensures Cleaned(table, allowed) == table
  {
    if table != [] {
      NothingToClean(table[1..], allowed);
    }
  }

  lemma IsolatedAgrees<T>(result: Load<T>, location: string)
    ensures AgreesOn(Isolated(result, location, []), result)
  {
  }

  lemma TableAgrees<T>(raw: Toml, allowed: set<string>, location: string, load: Dict -> Load<T>)
    ensures AgreesOn(TolerateTable(raw, allowed, location, load), LoadTable(raw, allowed, load))
  {
    if raw.Table? && Unknown(raw.entries, allowed) == [] {
      NothingToClean(raw.entries, allowed);
    }
  }

  lemma {:induction false} AllAgree<T>(items: Dict, tolerate: Tolerator<T>, load: Loader<T>)
    requires forall name, raw :: AgreesOn(tolerate(name, raw), load(name, raw))
    ensures SectionAgrees(TolerateAll(items, tolerate), LoadAll(items, load))
  {
    if items != [] {
      AllAgree(items[1..], tolerate, load);
      var (name, raw) := items[0];
      assert AgreesOn(tolerate(name, raw), load(name, raw));
    }
  }

  lemma SectionsAgree<T>(value: Toml, list: bool, location: string, tolerate: Tolerator<T>, load: Loader<T>)
    requires forall name, raw :: AgreesOn(tolerate(name, raw), load(name, raw))
    ensures SectionAgrees(TolerateSection(value, list, location, tolerate), LoadSection(value, list, load))
  {
    if ItemsOf(value, list).Loaded? {
      AllAgree(ItemsOf(value, list).value, tolerate, load);
    }
  }

  lemma StringsAgree(value: Toml, location: string)
    ensures SectionAgrees(TolerateSection(value, false, location, StringTolerator(location)), StringMapping(value))
  {
    var load: Loader<string> := (name, item) => StringValue(item);
    SectionsAgree(value, false, location, StringTolerator(location), load);
    LoadAllSame(value, load);
  }

  lemma LoadAllSame(value: Toml, load: Loader<string>)
    requires forall name, item :: load(name, item) == StringValue(item)
    ensures LoadSection(value, false, load) == StringMapping(value)
  {
    if ItemsOf(value, false).Loaded? {
      SameLoads(ItemsOf(value, false).value, load, (name, item) => StringValue(item));
    }
  }

  lemma {:induction false} SameLoads<T>(items: Dict, a: Loader<T>, b: Loader<T>)
    requires forall name, item :: a(name, item) == b(name, item)
    ensures LoadAll(items, a) == LoadAll(items, b)
  {
    if items != [] { SameLoads(items[1..], a, b); }
  }

  lemma FieldsAgree(value: Toml)
    ensures SectionAgrees(TolerateSection(value, false, "global.fields", FieldTolerator()), LoadSection(value, false, FieldLoader()))
  {
    forall name, raw ensures AgreesOn(FieldTolerator()(name, raw), FieldLoader()(name, raw)) {
      TableAgrees(raw, FIELD_KEYS, "global.fields." + name, LoadField);
    }
    SectionsAgree(value, false, "global.fields", FieldTolerator(), FieldLoader());
  }

  lemma LookupsAgree(value: Toml)
    ensures SectionAgrees(TolerateSection(value, false, "global.lookups", LookupTolerator()), LoadSection(value, false, LookupLoader()))
  {
    forall name, raw ensures AgreesOn(LookupTolerator()(name, raw), LookupLoader()(name, raw)) {
      IsolatedAgrees(LoadLookup(raw), "global.lookups." + name);
    }
    SectionsAgree(value, false, "global.lookups", LookupTolerator(), LookupLoader());
  }

  lemma RulesAgree(value: Toml, location: string, fields: Fields, lookups: Lookups)
    ensures SectionAgrees(TolerateSection(value, true, location, RuleTolerator(location, fields, lookups)),
                          LoadSection(value, true, RuleLoader(fields, lookups)))
  {
    forall name, raw ensures AgreesOn(RuleTolerator(location, fields, lookups)(name, raw), RuleLoader(fields, lookups)(name, raw)) {
      TableAgrees(raw, RULE_KEYS, location + "." + name, table => LoadRule(table, fields, lookups));
    }
    SectionsAgree(value, true, location, RuleTolerator(location, fields, lookups), RuleLoader(fields, lookups));
  }

  lemma BoundariesAgree(value: Toml, location: string)
    ensures SectionAgrees(TolerateSection(value, true, location, BoundaryTolerator(location)), LoadSection(value, true, BoundaryLoader()))
  {
    forall name, raw ensures AgreesOn(BoundaryTolerator(location)(name, raw), BoundaryLoader()(name, raw)) {
      TableAgrees(raw, BOUNDARY_KEYS, location + "." + name, LoadBoundary);
    }
    SectionsAgree(value, true, location, BoundaryTolerator(location), BoundaryLoader());
  }

  lemma PartsAgree(location: string, table: Dict, fields: Fields, lookups: Lookups)
    ensures SectionAgrees(TolerantParts(location, table, fields, lookups), StrictParts(table, fields, lookups))
  {
    RulesAgree(Get(table, "rules"), location + ".rules", fields, lookups);
    BoundariesAgree(Get(table, "start"), location + ".start");
    BoundariesAgree(Get(table, "end"), location + ".end");
    StringsAgree(Get(table, "translations"), location + ".translations");
  }

  lemma BlockAgrees(name: string, raw: Toml, fields: Fields, lookups: Lookups)
    ensures AgreesOn(TolerateBlock(name, raw, fields, lookups), StrictBlock(name, raw, fields, lookups))
  {
    if raw.Table? {
      var table := Cleaned(raw.entries, BLOCK_KEYS);
      PartsAgree("blocks." + name, table, fields, lookups);
      if Unknown(raw.entries, BLOCK_KEYS) == [] {
        NothingToClean(raw.entries, BLOCK_KEYS);
      }
    }
  }

  lemma BlocksAgree(value: Toml, fields: Fields, lookups: Lookups)
    ensures SectionAgrees(TolerateBlocks(value, fields, lookups), LoadBlocks(value, fields, lookups))
  {
    if value.Table? && value.entries != [] {
      forall name, raw ensures AgreesOn(BlockTolerator(fields, lookups)(name, raw), BlockLoader(fields, lookups)(name, raw)) {
        BlockAgrees(name, raw, fields, lookups);
      }
      AllAgree(value.entries, BlockTolerator(fields, lookups), BlockLoader(fields, lookups));
    }
  }

  /** For every document of a supported version, tolerant loading reports nothing exactly when strict loading
      succeeds, and then both give the same template. */
  lemma TolerantRefinesStrict(document: Dict)
    requires SupportedVersion(document)
    ensures SectionAgrees(LoadTolerant(document), LoadStrict(document))
  {
    var raw := Get(document, "global");
    var section := if raw.Table? then Cleaned(raw.entries, GLOBAL_KEYS) else [];
    if raw.Table? && Unknown(raw.entries, GLOBAL_KEYS) == [] {
      NothingToClean(raw.entries, GLOBAL_KEYS);
    }
    FieldsAgree(Get(section, "fields"));
    LookupsAgree(Get(section, "lookups"));
    StringsAgree(Get(section, "translations"), "global.translations");
    var fields := TolerateSection(Get(section, "fields"), false, "global.fields", FieldTolerator());
    var lookups := TolerateSection(Get(section, "lookups"), false, "global.lookups", LookupTolerator());
    if fields.Loaded? && lookups.Loaded? {
      RulesAgree(Get(section, "rules"), "global.rules", fields.value.0, lookups.value.0);
      BlocksAgree(Get(document, "blocks"), fields.value.0, lookups.value.0);
    }
  }

  // ---------------------------------------------------------------------------
  // What survives
  // ---------------------------------------------------------------------------

  predicate Survives<T>(item: (string, Toml), tolerate: Tolerator<T>) {
    tolerate(item.0, item.1).Loaded? && tolerate(item.0, item.1).value.0.Some?
  }

  /** The positions of the items that survive. */
  function Survivors<T>(items: Dict, tolerate: Tolerator<T>): seq<nat> {
    if items == [] then []
    else
      var last := |items| - 1;
      Survivors(items[..last], tolerate) + if Survives(items[last], tolerate) then [last] else []
  }

  lemma {:induction false} SurvivorsAre<T>(items: Dict, tolerate: Tolerator<T>)
    ensures
      var positions := Survivors(items, tolerate);
      && (forall p :: p in positions <==> 0 <= p < |items| && Survives(items[p], tolerate))
      && (forall j, k :: 0 <= j < k < |positions| ==> positions[j] < positions[k])
    decreases |items|
  {
    if items != [] {
      var last := |items| - 1;
      SurvivorsAre(items[..last], tolerate);
      var rest := Survivors(items[..last], tolerate);
      assert forall k :: 0 <= k < |rest| ==> rest[k] in rest;
    }
  }

  lemma {:induction false} TolerateConcat<T>(a: Dict, b: Dict, tolerate: Tolerator<T>)
    ensures TolerateAll(a + b, tolerate) ==
      (if !TolerateAll(a, tolerate).Loaded? then TolerateAll(a, tolerate)
       else if !TolerateAll(b, tolerate).Loaded? then TolerateAll(b, tolerate)
       else Loaded((TolerateAll(a, tolerate).value.0 + TolerateAll(b, tolerate).value.0,
                    TolerateAll(a, tolerate).value.1 + TolerateAll(b, tolerate).value.1)))
    decreases |a|
  {
    if a == [] {
      assert a + b == b;
      if TolerateAll(b, tolerate).Loaded? {
        var (kept, found) := TolerateAll(b, tolerate).value;
        assert [] + kept == kept && [] + found == found;
      }
    } else {
      assert (a + b)[1..] == a[1..] + b;
      TolerateConcat(a[1..], b, tolerate);
      var first := tolerate(a[0].0, a[0].1);
      if first.Loaded? && TolerateAll(a[1..], tolerate).Loaded? && TolerateAll(b, tolerate).Loaded? {
        var (rest, tail) := (TolerateAll(a[1..], tolerate).value, TolerateAll(b, tolerate).value);
        var kept := if first.value.0.Some? then [(a[0].0, first.value.0.value)] else [];
        assert kept + (rest.0 + tail.0) == (kept + rest.0) + tail.0;
        assert first.value.1 + (rest.1 + tail.1) == (first.value.1 + rest.1) + tail.1;
      }
    }
  }

  lemma ToleratePrefix<T>(items: Dict, tolerate: Tolerator<T>, i: nat)
    requires i < |items| && TolerateAll(items[..i], tolerate).Loaded?
    ensures
      var (before, item) := (TolerateAll(items[..i], tolerate).value, tolerate(items[i].0, items[i].1));
      && (item.Loaded? ==>
            var kept := if item.value.0.Some? then [(items[i].0, item.value.0.value)] else [];
            TolerateAll(items[..i + 1], tolerate) == Loaded((before.0 + kept, before.1 + item.value.1)))
      && (item.Crashed? ==> TolerateAll(items, tolerate) == Crashed)
  {
    var item := tolerate(items[i].0, items[i].1);
    assert items[..i + 1] == items[..i] + [items[i]] && items == items[..i] + items[i..];
    TolerateConcat(items[..i], [items[i]], tolerate);
    TolerateConcat(items[..i], items[i..], tolerate);
    assert TolerateAll([], tolerate) == Loaded(([], []));
    if item.Loaded? {
      var kept := if item.value.0.Some? then [(items[i].0, item.value.0.value)] else [];
      assert kept + [] == kept && item.value.1 + [] == item.value.1;
    }
  }

  lemma {:induction false} KeptAtSurvivors<T>(items: Dict, tolerate: Tolerator<T>, k: nat)
    requires TolerateAll(items, tolerate).Loaded?
    ensures |TolerateAll(items, tolerate).value.0| == |Survivors(items, tolerate)|
    ensures k < |Survivors(items, tolerate)| ==>
      var p := Survivors(items, tolerate)[k];
      && p < |items| && Survives(items[p], tolerate)
      && TolerateAll(items, tolerate).value.0[k] == (items[p].0, tolerate(items[p].0, items[p].1).value.0.value)
    decreases |items|
  {
    if items != [] {
      var last := |items| - 1;
      assert items == items[..last] + [items[last]] && items[..last + 1] == items;
      TolerateConcat(items[..last], [items[last]], tolerate);
      KeptAtSurvivors(items[..last], tolerate, k);
      ToleratePrefix(items, tolerate, last);
      assert TolerateAll([items[last]], tolerate).Loaded?;
    }
  }

  /** Tolerant loading of a list keeps, in order, exactly the items that load, and fails exactly if one of them crashes. */
  lemma {:induction false} TolerateFailsOnlyOnCrash<T>(items: Dict, tolerate: Tolerator<T>)
    requires forall i :: 0 <= i < |items| ==> !tolerate(items[i].0, items[i].1).Rejected?
    ensures TolerateAll(items, tolerate).Crashed? <==> exists i :: 0 <= i < |items| && tolerate(items[i].0, items[i].1).Crashed?
    ensures !TolerateAll(items, tolerate).Rejected?
    decreases |items|
  {
    if items != [] {
      TolerateFailsOnlyOnCrash(items[1..], tolerate);
      assert forall i :: 0 <= i < |items[1..]| ==> items[1..][i] == items[i + 1];
      if !tolerate(items[0].0, items[0].1).Crashed? && exists i :: 0 <= i < |items| && tolerate(items[i].0, items[i].1).Crashed? {
        var i :| 0 <= i < |items| && tolerate(items[i].0, items[i].1).Crashed?;
        assert tolerate(items[1..][i - 1].0, items[1..][i - 1].1).Crashed?;
      }
    }
  }

  /** A rule survives exactly if it is a table that loads, without its unknown keys, against the surviving
      fields and lookups. */
  lemma RuleSurvives(location: string, name: string, raw: Toml, fields: Fields, lookups: Lookups)
    ensures
      var tolerated := RuleTolerator(location, fields, lookups)(name, raw);
      && (Survives((name, raw), RuleTolerator(location, fields, lookups)) <==>
            raw.Table? && LoadRule(Cleaned(raw.entries, RULE_KEYS), fields, lookups).Loaded?)
      && (tolerated.Loaded? && tolerated.value.0.Some? ==>
            LoadRule(Cleaned(raw.entries, RULE_KEYS), fields, lookups) == Loaded(tolerated.value.0.value))
      && !tolerated.Rejected?
      && (tolerated.Crashed? <==> raw.Table? && LoadRule(Cleaned(raw.entries, RULE_KEYS), fields, lookups).Crashed?)
  {
  }

  // ---------------------------------------------------------------------------
  // The loops of the loaders
  // ---------------------------------------------------------------------------

  lemma {:induction false} LoadPrefix<T>(items: Dict, load: Loader<T>, i: nat)
    requires i < |items| && LoadAll(items[..i], load).Loaded?
    ensures
      var item := load(items[i].0, items[i].1);
      && (item.Loaded? ==> LoadAll(items[..i + 1], load) == Loaded(LoadAll(items[..i], load).value + [(items[i].0, item.value)]))
      && (!item.Loaded? ==> LoadAll(items, load) == item.PropagateFailure())
    decreases i
  {
    if i == 0 {
      assert items[..0] == [] && items[..1] == [items[0]] && [items[0]][1..] == [];
      assert LoadAll([], load) == Loaded([]);
      var item := load(items[0].0, items[0].1);
      if item.Loaded? {
        assert LoadAll([items[0]], load) == Loaded([(items[0].0, item.value)] + []);
        assert [(items[0].0, item.value)] + [] == [] + [(items[0].0, item.value)];
      }
    } else {
      var tail := items[1..];
      assert items[..i][1..] == tail[..i - 1] && items[..i + 1][1..] == tail[..i] && tail[i - 1] == items[i];
      LoadPrefix(tail, load, i - 1);
      var item := load(items[i].0, items[i].1);
      if item.Loaded? {
        var first := [(items[0].0, load(items[0].0, items[0].1).value)];
        var middle := LoadAll(tail[..i - 1], load).value;
        assert first + (middle + [(items[i].0, item.value)]) == (first + middle) + [(items[i].0, item.value)];
      }
    }
  }

  method LoadRules(value: Toml, fields: Fields, lookups: Lookups) returns (rules: Load<seq<(string, TemplateRule)>>)
    ensures rules == LoadSection(value, true, RuleLoader(fields, lookups))
  {
    if value.Absent? { return Loaded([]); }
    if !value.List? { return Rejected; }
    var items := Indexed(value.items);
    var output: seq<(string, TemplateRule)> := [];
    var load := RuleLoader(fields, lookups);
    for i := 0 to |items|
      invariant LoadAll(items[..i], load) == Loaded(output)
    {
      LoadPrefix(items, load, i);
      var loaded := load(items[i].0, items[i].1);
      if loaded.Rejected? { return Rejected; }
      if loaded.Crashed? { return Crashed; }
      output := output + [(items[i].0, loaded.value)];
    }
    assert items[..|items|] == items;
    return Loaded(output);
  }

  method TolerateRules(value: Toml, location: string, fields: Fields, lookups: Lookups)
    returns (rules: Load<(seq<(string, TemplateRule)>, Diagnostics)>)
    ensures rules == TolerateSection(value, true, location, RuleTolerator(location, fields, lookups))
  {
    if value.Absent? { return Loaded(([], [])); }
    if !value.List? { return Loaded(([], [location])); }
    var items := Indexed(value.items);
    var output: seq<(string, TemplateRule)> := [];
    var diagnostics: Diagnostics := [];
    ghost var tolerate := RuleTolerator(location, fields, lookups);
    for i := 0 to |items|
      invariant TolerateAll(items[..i], tolerate) == Loaded((output, diagnostics))
    {
      ghost var before := (output, diagnostics);
      ToleratePrefix(items, tolerate, i);
      assert before.0 + [] == before.0;
      var (name, raw) := items[i];
      if !raw.Table? {
        diagnostics := diagnostics + [location + "." + name];
        continue;
      }
      var rule := LoadRule(Cleaned(raw.entries, RULE_KEYS), fields, lookups);
      diagnostics := diagnostics + Unknown(raw.entries, RULE_KEYS);
      if rule.Crashed? { return Crashed; }
      if rule.Loaded? {
        output := output + [(name, rule.value)];
      } else {
        diagnostics := diagnostics + [location + "." + name];
      }
      assert tolerate(name, raw) == Isolated(rule, location + "." + name, Unknown(raw.entries, RULE_KEYS));
      assert before.1 + (Unknown(raw.entries, RULE_KEYS) + [location + "." + name])
          == before.1 + Unknown(raw.entries, RULE_KEYS) + [location + "." + name];
    }
    assert items[..|items|] == items;
    return Loaded((output, diagnostics));
  }
}
