/** Where tolerant loading is not tolerant: the documents that crash it, read off their own tables. */
module TemplateCrashes {
  import opened Wrappers
  import opened Templates
  import Patterns

  /** A value that cannot be looked up in a set of words. */
  predicate Unhashable(value: Toml) {
    value.List? || value.Table?
  }

  // ---------------------------------------------------------------------------
  // Tables of known shape
  // ---------------------------------------------------------------------------

  predicate FieldCrashes(table: Dict) {
    Unhashable(Get(table, "type"))
  }

  predicate BoundaryCrashes(table: Dict) {
    && ValuesOf(Get(table, "values")).Loaded? && NonEmpty(Get(table, "source")).Loaded? && CompilePattern(Get(table, "match")).Loaded?
    && BoolValue(GetOr(table, "reprocess", Bool(false))).Loaded? && OptionalNonEmpty(Get(table, "message")).Loaded?
    && Unhashable(Get(table, "message_tone"))
  }

  predicate StyleCrashes(name: string, raw: Toml, references: set<string>) {
    name in references && raw.Table? && Unknown(raw.entries, STYLE_KEYS) == [] && Unhashable(Get(raw.entries, "tone"))
  }

  predicate SegmentCrashes(raw: Toml, references: set<string>) {
    && raw.Table? && Unknown(raw.entries, SEGMENT_KEYS) == []
    && NonEmpty(Get(raw.entries, "text")).Loaded? && ValidateReferences(Get(raw.entries, "text").text, references).Loaded?
    && Unhashable(Get(raw.entries, "tone"))
  }

  /** The lookups of a rule are strings that name captures or fields, and existing lookups. */
  predicate LookupsLoad(table: Dict, head: RuleHead, fields: Fields, lookups: Lookups) {
    && StringMapping(Get(table, "lookups")).Loaded?
    && LookupsKnown(StringMapping(Get(table, "lookups")).value, CaptureNames(head.pattern) + Keys(fields), lookups)
  }

  /** Some style has a list or table as tone, and the loader gets as far. */
  predicate StylesCrash(table: Dict, references: set<string>) {
    Get(table, "styles").Table? &&
    var items := Get(table, "styles").entries;
    exists i :: 0 <= i < |items| && StyleCrashes(items[i].0, items[i].1, references)
                && forall j :: 0 <= j < i ==> LoadStyle(items[j].0, items[j].1, references).Loaded?
  }

  predicate StylesLoad(table: Dict, references: set<string>) {
    Get(table, "styles").Absent? ||
    (Get(table, "styles").Table? &&
     var items := Get(table, "styles").entries;
     forall i :: 0 <= i < |items| ==> LoadStyle(items[i].0, items[i].1, references).Loaded?)
  }

  predicate SegmentsCrash(table: Dict, references: set<string>) {
    Get(table, "segments").List? &&
    var items := Get(table, "segments").items;
    exists i :: 0 <= i < |items| && SegmentCrashes(items[i], references)
                && forall j :: 0 <= j < i ==> LoadSegment(items[j], references).Loaded?
  }

  /** A rule crashes the loader if it holds a list or a table where a word is expected, and all before it loads. */
  predicate RuleCrashes(table: Dict, fields: Fields, lookups: Lookups) {
    || (CompilePattern(Get(table, "match")).Loaded? && Unhashable(Get(table, "action")))
    || (LoadRuleHead(table, fields).Loaded? &&
        var head := LoadRuleHead(table, fields).value;
        || WordsCrash(table, head, fields, lookups)
        || (LoadRuleWords(table, head, fields, lookups).Loaded? && PartsCrash(table, head.references)))
  }

  predicate WordsCrash(table: Dict, head: RuleHead, fields: Fields, lookups: Lookups) {
    || Unhashable(Get(table, "tone"))
    || (OptionalTone(Get(table, "tone")).Loaded? && LookupsLoad(table, head, fields, lookups) && Unhashable(Get(table, "fold_role")))
  }

  predicate PartsCrash(table: Dict, references: set<string>) {
    || StylesCrash(table, references)
    || (StylesLoad(table, references) && SegmentsCrash(table, references))
  }

  /** The words of a block itself. */
  predicate BlockWordCrashes(name: string, table: Dict) {
    && NonEmpty(GetOr(table, "kind", Str(name))).Loaded? && StringValue(GetOr(table, "title", Str(""))).Loaded?
    && (|| Unhashable(Get(table, "status"))
        || (OneOf(GetOr(table, "status", Str("default")), STATUSES).Loaded?
            && (|| Unhashable(Get(table, "tone"))
                || (OneOf(GetOr(table, "tone", Str("default")), TONES).Loaded? && Unhashable(Get(table, "message_tone"))))))
  }

  predicate RuleListCrashes(value: Toml, fields: Fields, lookups: Lookups) {
    value.List? && exists i :: 0 <= i < |value.items| && value.items[i].Table? && RuleCrashes(value.items[i].entries, fields, lookups)
  }

  predicate BoundaryListCrashes(value: Toml) {
    value.List? && exists i :: 0 <= i < |value.items| && value.items[i].Table? && BoundaryCrashes(value.items[i].entries)
  }

  predicate BlockCrashes(name: string, raw: Toml, fields: Fields, lookups: Lookups) {
    raw.Table? &&
    (|| RuleListCrashes(Get(raw.entries, "rules"), fields, lookups)
     || BoundaryListCrashes(Get(raw.entries, "start")) || BoundaryListCrashes(Get(raw.entries, "end"))
     || BlockWordCrashes(name, raw.entries))
  }

  predicate FieldsCrash(value: Toml) {
    value.Table? && exists i :: 0 <= i < |value.entries| && value.entries[i].1.Table? && FieldCrashes(value.entries[i].1.entries)
  }

  predicate BlocksCrash(value: Toml, fields: Fields, lookups: Lookups) {
    value.Table? && exists i :: 0 <= i < |value.entries| && BlockCrashes(value.entries[i].0, value.entries[i].1, fields, lookups)
  }

  // ---------------------------------------------------------------------------
  // Cleaning keeps what is read
  // ---------------------------------------------------------------------------

  lemma {:induction false} GetCleaned(table: Dict, allowed: set<string>, key: string)
    requires key in allowed
    ensures Get(Cleaned(table, allowed), key) == Get(table, key)
  {
    if table != [] {
      GetCleaned(table[1..], allowed, key);
      if table[0].0 in allowed {
        assert Cleaned(table, allowed)[0] == table[0] && Cleaned(table, allowed)[1..] == Cleaned(table[1..], allowed);
      } else {
        assert [] + Cleaned(table[1..], allowed) == Cleaned(table[1..], allowed);
      }
    }
  }

  lemma AllCleaned(table: Dict, allowed: set<string>)
    ensures forall key :: key in allowed ==> Get(Cleaned(table, allowed), key) == Get(table, key)
  {
    forall key | key in allowed ensures Get(Cleaned(table, allowed), key) == Get(table, key) {
      GetCleaned(table, allowed, key);
    }
  }

  lemma HeadCleaned(table: Dict, fields: Fields)
    ensures LoadRuleHead(Cleaned(table, RULE_KEYS), fields) == LoadRuleHead(table, fields)
  {
    AllCleaned(table, RULE_KEYS);
  }

  lemma WordsCleaned(table: Dict, head: RuleHead, fields: Fields, lookups: Lookups)
    ensures LoadRuleWords(Cleaned(table, RULE_KEYS), head, fields, lookups) == LoadRuleWords(table, head, fields, lookups)
  {
    AllCleaned(table, RULE_KEYS);
  }

  lemma PartsCleaned(table: Dict, references: set<string>)
    ensures LoadRuleParts(Cleaned(table, RULE_KEYS), references) == LoadRuleParts(table, references)
  {
    AllCleaned(table, RULE_KEYS);
  }

  /** Unknown keys make no difference to what a rule loads as. */
  lemma RuleCleaned(table: Dict, fields: Fields, lookups: Lookups)
    ensures LoadRule(Cleaned(table, RULE_KEYS), fields, lookups) == LoadRule(table, fields, lookups)
  {
    HeadCleaned(table, fields);
    if LoadRuleHead(table, fields).Loaded? {
      var head := LoadRuleHead(table, fields).value;
      WordsCleaned(table, head, fields, lookups);
      PartsCleaned(table, head.references);
    }
  }

  lemma BoundaryCleaned(table: Dict)
    ensures LoadBoundary(Cleaned(table, BOUNDARY_KEYS)) == LoadBoundary(table)
  {
    AllCleaned(table, BOUNDARY_KEYS);
  }

  lemma FieldCleaned(table: Dict)
    ensures LoadField(Cleaned(table, FIELD_KEYS)) == LoadField(table)
  {
    AllCleaned(table, FIELD_KEYS);
  }

  lemma BlockWordsCleaned(name: string, table: Dict)
    ensures LoadBlockWords(name, Cleaned(table, BLOCK_KEYS)) == LoadBlockWords(name, table)
  {
    GetCleaned(table, BLOCK_KEYS, "kind");
    GetCleaned(table, BLOCK_KEYS, "title");
    GetCleaned(table, BLOCK_KEYS, "status");
    GetCleaned(table, BLOCK_KEYS, "tone");
    GetCleaned(table, BLOCK_KEYS, "message_tone");
    GetCleaned(table, BLOCK_KEYS, "panel_kind");
    GetCleaned(table, BLOCK_KEYS, "entry");
  }

  lemma BlockFlagsCleaned(table: Dict)
    ensures LoadBlockFlags(Cleaned(table, BLOCK_KEYS)) == LoadBlockFlags(table)
  {
    AllCleaned(table, BLOCK_KEYS);
  }

  lemma BlockCleaned(name: string, table: Dict, fields: Fields, parts: BlockParts)
    ensures LoadBlock(name, Cleaned(table, BLOCK_KEYS), fields, parts) == LoadBlock(name, table, fields, parts)
  {
    BlockWordsCleaned(name, table);
    BlockFlagsCleaned(table);
  }

  // ---------------------------------------------------------------------------
  // One table
  // ---------------------------------------------------------------------------

  lemma {:induction false} LoadAllCrashes<T>(items: Dict, load: Loader<T>)
    ensures LoadAll(items, load).Crashed? <==>
      exists i :: 0 <= i < |items| && load(items[i].0, items[i].1).Crashed? && forall j :: 0 <= j < i ==> load(items[j].0, items[j].1).Loaded?
    ensures LoadAll(items, load).Loaded? <==> forall i :: 0 <= i < |items| ==> load(items[i].0, items[i].1).Loaded?
    decreases |items|
  {
    if items != [] {
      var rest := items[1..];
      LoadAllCrashes(rest, load);
      assert forall i :: 0 <= i < |rest| ==> rest[i] == items[i + 1];
      if LoadAll(rest, load).Crashed? && load(items[0].0, items[0].1).Loaded? {
        var i :| 0 <= i < |rest| && load(rest[i].0, rest[i].1).Crashed? && forall j :: 0 <= j < i ==> load(rest[j].0, rest[j].1).Loaded?;
        assert load(items[i + 1].0, items[i + 1].1).Crashed?;
      }
      if i :| 0 < i < |items| && load(items[i].0, items[i].1).Crashed? && forall j :: 0 <= j < i ==> load(items[j].0, items[j].1).Loaded? {
        assert load(rest[i - 1].0, rest[i - 1].1).Crashed?;
      }
    }
  }

  lemma StringsNeverCrash(value: Toml)
    ensures !StringMapping(value).Crashed?
  {
    if ItemsOf(value, false).Loaded? {
      LoadAllCrashes(ItemsOf(value, false).value, (name, item) => StringValue(item));
    }
  }

  lemma LookupTableNeverCrashes(value: Toml, load: Loader<Strings>)
    requires forall name, raw :: load(name, raw) == LoadLookup(raw)
    ensures !LoadSection(value, false, load).Crashed?
  {
    if ItemsOf(value, false).Loaded? {
      var items := ItemsOf(value, false).value;
      LoadAllCrashes(items, load);
      forall i | 0 <= i < |items| ensures !load(items[i].0, items[i].1).Crashed? {
        StringsNeverCrash(items[i].1);
      }
    }
  }

  lemma StylesExactly(table: Dict, references: set<string>, load: Loader<Style>)
    requires forall name, raw :: load(name, raw) == LoadStyle(name, raw, references)
    ensures
      var styles := LoadSection(Get(table, "styles"), false, load);
      (styles.Crashed? <==> StylesCrash(table, references)) && (styles.Loaded? <==> StylesLoad(table, references))
  {
    if Get(table, "styles").Table? {
      var items := Get(table, "styles").entries;
      LoadAllCrashes(items, load);
      forall i | 0 <= i < |items| ensures load(items[i].0, items[i].1).Crashed? <==> StyleCrashes(items[i].0, items[i].1, references) {
      }
    }
  }

  lemma SegmentsExactly(table: Dict, references: set<string>, load: Loader<Segment>)
    requires forall name, raw :: load(name, raw) == LoadSegment(raw, references)
    ensures LoadSection(Get(table, "segments"), true, load).Crashed? <==> SegmentsCrash(table, references)
  {
    if Get(table, "segments").List? {
      var items := Get(table, "segments").items;
      LoadAllCrashes(Indexed(items), load);
      forall i | 0 <= i < |items|
        ensures load(Indexed(items)[i].0, Indexed(items)[i].1) == LoadSegment(items[i], references)
        ensures LoadSegment(items[i], references).Crashed? <==> SegmentCrashes(items[i], references)
      {
        SegmentExactly(items[i], references);
      }
      assert forall i :: 0 <= i < |items| ==> Indexed(items)[i].1 == items[i];
    }
  }

  lemma SegmentExactly(raw: Toml, references: set<string>)
    ensures LoadSegment(raw, references).Crashed? <==> SegmentCrashes(raw, references)
  {
  }

  lemma HeadCrashesExactly(table: Dict, fields: Fields)
    ensures LoadRuleHead(table, fields).Crashed? <==> CompilePattern(Get(table, "match")).Loaded? && Unhashable(Get(table, "action"))
  {
  }

  lemma WordsCrashExactly(table: Dict, head: RuleHead, fields: Fields, lookups: Lookups)
    ensures LoadRuleWords(table, head, fields, lookups).Crashed? <==> WordsCrash(table, head, fields, lookups)
  {
    StringsNeverCrash(Get(table, "lookups"));
  }

  lemma PartsCrashExactly(table: Dict, references: set<string>)
    ensures LoadRuleParts(table, references).Crashed? <==> PartsCrash(table, references)
  {
    StylesExactly(table, references, StyleLoader(references));
    SegmentsExactly(table, references, SegmentLoader(references));
    LookupTableNeverCrashes(Get(table, "replacements"), LookupLoader());
  }

  lemma RuleCrashesExactly(table: Dict, fields: Fields, lookups: Lookups)
    ensures LoadRule(table, fields, lookups).Crashed? <==> RuleCrashes(table, fields, lookups)
  {
    HeadCrashesExactly(table, fields);
    if LoadRuleHead(table, fields).Loaded? {
      var head := LoadRuleHead(table, fields).value;
      WordsCrashExactly(table, head, fields, lookups);
      PartsCrashExactly(table, head.references);
    }
  }

  lemma BoundaryCrashesExactly(table: Dict)
    ensures LoadBoundary(table).Crashed? <==> BoundaryCrashes(table)
  {
  }

  lemma FieldCrashesExactly(table: Dict)
    ensures LoadField(table).Crashed? <==> FieldCrashes(table)
  {
  }

  lemma BlockCrashesOnWords(name: string, table: Dict, fields: Fields, parts: BlockParts)
    ensures LoadBlock(name, table, fields, parts).Crashed? <==> BlockWordCrashes(name, table)
  {
    StringsNeverCrash(Get(table, "entry"));
    FlagsNeverCrash(table);
  }

  lemma FlagsNeverCrash(table: Dict)
    ensures !LoadBlockFlags(table).Crashed?
  {
  }

  // ---------------------------------------------------------------------------
  // Lists, sections and documents
  // ---------------------------------------------------------------------------

  lemma RuleItem(location: string, name: string, raw: Toml, fields: Fields, lookups: Lookups)
    ensures
      var tolerated := RuleTolerator(location, fields, lookups)(name, raw);
      !tolerated.Rejected? && (tolerated.Crashed? <==> raw.Table? && RuleCrashes(raw.entries, fields, lookups))
  {
    RuleSurvives(location, name, raw, fields, lookups);
    if raw.Table? {
      RuleCleaned(raw.entries, fields, lookups);
      RuleCrashesExactly(raw.entries, fields, lookups);
    }
  }

  lemma BoundaryItem(location: string, name: string, raw: Toml)
    ensures
      var tolerated := BoundaryTolerator(location)(name, raw);
      !tolerated.Rejected? && (tolerated.Crashed? <==> raw.Table? && BoundaryCrashes(raw.entries))
  {
    if raw.Table? {
      BoundaryCleaned(raw.entries);
      BoundaryCrashesExactly(raw.entries);
    }
  }

  lemma FieldItem(name: string, raw: Toml)
    ensures
      var tolerated := FieldTolerator()(name, raw);
      !tolerated.Rejected? && (tolerated.Crashed? <==> raw.Table? && FieldCrashes(raw.entries))
  {
    if raw.Table? {
      FieldCleaned(raw.entries);
      FieldCrashesExactly(raw.entries);
    }
  }

  lemma RuleListExactly(value: Toml, location: string, fields: Fields, lookups: Lookups)
    ensures
      var section := TolerateSection(value, true, location, RuleTolerator(location, fields, lookups));
      !section.Rejected? && (section.Crashed? <==> RuleListCrashes(value, fields, lookups))
  {
    if value.List? {
      var items, tolerate := Indexed(value.items), RuleTolerator(location, fields, lookups);
      forall i | 0 <= i < |items|
        ensures !tolerate(items[i].0, items[i].1).Rejected?
        ensures tolerate(items[i].0, items[i].1).Crashed? <==> value.items[i].Table? && RuleCrashes(value.items[i].entries, fields, lookups)
      {
        RuleItem(location, items[i].0, items[i].1, fields, lookups);
      }
      TolerateFailsOnlyOnCrash(items, tolerate);
      if RuleListCrashes(value, fields, lookups) {
        var i :| 0 <= i < |value.items| && value.items[i].Table? && RuleCrashes(value.items[i].entries, fields, lookups);
        assert tolerate(items[i].0, items[i].1).Crashed?;
      }
    }
  }

  lemma BoundaryListExactly(value: Toml, location: string)
    ensures
      var section := TolerateSection(value, true, location, BoundaryTolerator(location));
      !section.Rejected? && (section.Crashed? <==> BoundaryListCrashes(value))
  {
    if value.List? {
      var items, tolerate := Indexed(value.items), BoundaryTolerator(location);
      forall i | 0 <= i < |items|
        ensures !tolerate(items[i].0, items[i].1).Rejected?
        ensures tolerate(items[i].0, items[i].1).Crashed? <==> value.items[i].Table? && BoundaryCrashes(value.items[i].entries)
      {
        BoundaryItem(location, items[i].0, items[i].1);
      }
      TolerateFailsOnlyOnCrash(items, tolerate);
      if BoundaryListCrashes(value) {
        var i :| 0 <= i < |value.items| && value.items[i].Table? && BoundaryCrashes(value.items[i].entries);
        assert tolerate(items[i].0, items[i].1).Crashed?;
      }
    }
  }

  lemma FieldsExactly(value: Toml)
    ensures
      var section := TolerateSection(value, false, "global.fields", FieldTolerator());
      !section.Rejected? && (section.Crashed? <==> FieldsCrash(value))
  {
    if value.Table? {
      var items := value.entries;
      forall i | 0 <= i < |items|
        ensures !FieldTolerator()(items[i].0, items[i].1).Rejected?
        ensures FieldTolerator()(items[i].0, items[i].1).Crashed? <==> items[i].1.Table? && FieldCrashes(items[i].1.entries)
      {
        FieldItem(items[i].0, items[i].1);
      }
      TolerateFailsOnlyOnCrash(items, FieldTolerator());
    }
  }

  lemma StringSectionLoads(value: Toml, location: string)
    ensures TolerateSection(value, false, location, StringTolerator(location)).Loaded?
  {
    if value.Table? {
      TolerateFailsOnlyOnCrash(value.entries, StringTolerator(location));
    }
  }

  lemma LookupSectionLoads(value: Toml)
    ensures TolerateSection(value, false, "global.lookups", LookupTolerator()).Loaded?
  {
    if value.Table? {
      forall i | 0 <= i < |value.entries|
        ensures LookupTolerator()(value.entries[i].0, value.entries[i].1).Loaded?
      {
        StringsNeverCrash(value.entries[i].1);
      }
      TolerateFailsOnlyOnCrash(value.entries, LookupTolerator());
    }
  }

  lemma BlockExactly(name: string, raw: Toml, fields: Fields, lookups: Lookups)
    ensures
      var tolerated := TolerateBlock(name, raw, fields, lookups);
      !tolerated.Rejected? && (tolerated.Crashed? <==> BlockCrashes(name, raw, fields, lookups))
  {
    if raw.Table? {
      var location, table := "blocks." + name, Cleaned(raw.entries, BLOCK_KEYS);
      GetCleaned(raw.entries, BLOCK_KEYS, "rules");
      GetCleaned(raw.entries, BLOCK_KEYS, "start");
      GetCleaned(raw.entries, BLOCK_KEYS, "end");
      RuleListExactly(Get(table, "rules"), location + ".rules", fields, lookups);
      BoundaryListExactly(Get(table, "start"), location + ".start");
      BoundaryListExactly(Get(table, "end"), location + ".end");
      StringSectionLoads(Get(table, "translations"), location + ".translations");
      var parts := TolerantParts(location, table, fields, lookups);
      if parts.Loaded? {
        BlockCleaned(name, raw.entries, fields, parts.value.0);
        BlockCrashesOnWords(name, raw.entries, fields, parts.value.0);
      }
    }
  }

  lemma BlocksExactly(value: Toml, fields: Fields, lookups: Lookups)
    ensures
      var blocks := TolerateBlocks(value, fields, lookups);
      !blocks.Rejected? && (blocks.Crashed? <==> BlocksCrash(value, fields, lookups))
  {
    if value.Table? && value.entries != [] {
      var items, tolerate := value.entries, BlockTolerator(fields, lookups);
      forall i | 0 <= i < |items|
        ensures !tolerate(items[i].0, items[i].1).Rejected?
        ensures tolerate(items[i].0, items[i].1).Crashed? <==> BlockCrashes(items[i].0, items[i].1, fields, lookups)
      {
        BlockExactly(items[i].0, items[i].1, fields, lookups);
      }
      TolerateFailsOnlyOnCrash(items, tolerate);
    }
  }

  /** A key of the global table, if there is one. */
  function GlobalValue(document: Dict, key: string): Toml {
    var section := Get(document, "global");
    if section.Table? then Get(section.entries, key) else Absent
  }

  function SurvivingFields(document: Dict): Fields {
    var fields := TolerateSection(GlobalValue(document, "fields"), false, "global.fields", FieldTolerator());
    if fields.Loaded? then fields.value.0 else []
  }

  function SurvivingLookups(document: Dict): Lookups {
    var lookups := TolerateSection(GlobalValue(document, "lookups"), false, "global.lookups", LookupTolerator());
    if lookups.Loaded? then lookups.value.0 else []
  }

  lemma GlobalCleaned(document: Dict, key: string)
    requires key in GLOBAL_KEYS
    ensures
      var raw := Get(document, "global");
      var section := if raw.Table? then Cleaned(raw.entries, GLOBAL_KEYS) else [];
      Get(section, key) == GlobalValue(document, key)
  {
    if Get(document, "global").Table? { GetCleaned(Get(document, "global").entries, GLOBAL_KEYS, key); }
  }

  /** Some place that the loader reaches, where a word is expected, holds a list or a table. */
  predicate DocumentCrashes(document: Dict) {
    || FieldsCrash(GlobalValue(document, "fields"))
    || RuleListCrashes(GlobalValue(document, "rules"), SurvivingFields(document), SurvivingLookups(document))
    || BlocksCrash(Get(document, "blocks"), SurvivingFields(document), SurvivingLookups(document))
  }

  /** Tolerant loading fails on a document of a supported version exactly if a list or a table stands where a rule,
      boundary, block or field expects a word, at a place the loader reaches. */
  lemma TolerantCrashesExactly(document: Dict)
    ensures LoadTolerant(document).Rejected? <==> !SupportedVersion(document)
    ensures LoadTolerant(document).Crashed? <==> SupportedVersion(document) && DocumentCrashes(document)
  {
    GlobalCleaned(document, "fields");
    GlobalCleaned(document, "lookups");
    GlobalCleaned(document, "translations");
    GlobalCleaned(document, "rules");
    FieldsExactly(GlobalValue(document, "fields"));
    LookupSectionLoads(GlobalValue(document, "lookups"));
    StringSectionLoads(GlobalValue(document, "translations"), "global.translations");
    var (fields, lookups) := (SurvivingFields(document), SurvivingLookups(document));
    RuleListExactly(GlobalValue(document, "rules"), "global.rules", fields, lookups);
    BlocksExactly(Get(document, "blocks"), fields, lookups);
  }

  /** A document whose only rule is written `action = ["emit"]`. */
  function ListActionDocument(source: string): Dict {
    var rule := Table([("match", Str(source)), ("action", List([Str("emit")]))]);
    [("version", Integer(1)), ("global", Table([("rules", List([rule]))]))]
  }

  /** One such rule takes the whole template down, whatever line it is for. */
  lemma ListActionCrashes(source: string)
    requires source != "" && Patterns.Compile(source).Ok?
    ensures LoadTolerant(ListActionDocument(source)).Crashed?
  {
    var document := ListActionDocument(source);
    var rule: Dict := [("match", Str(source)), ("action", List([Str("emit")]))];
    var rules := List([Table(rule)]);
    assert rule[1..] == [("action", List([Str("emit")]))];
    assert Get(rule, "match") == Str(source) && Get(rule, "action") == List([Str("emit")]);
    assert document[1..] == [("global", Table([("rules", rules)]))];
    var section: Dict := [("rules", rules)];
    assert document[0].0 == "version" && document[1].0 == "global" && "version" != "global";
    assert Get(document, "version") == Integer(1);
    assert Get(document, "global") == Get(document[1..], "global") == Table(section);
    assert Get(section, "rules") == rules;
    assert GlobalValue(document, "rules") == rules;
    assert RuleCrashes(rules.items[0].entries, SurvivingFields(document), SurvivingLookups(document));
    TolerantCrashesExactly(document);
  }
}
