/** What a tolerantly loaded template is made of: every list in it is the in-order sublist of the items that load. */
module TemplateSurvivors {
  import opened Wrappers
  import opened Templates
  import opened TemplateCrashes
  import LiveState

  predicate Increasing(positions: seq<nat>) {
    forall j, k :: 0 <= j < k < |positions| ==> positions[j] < positions[k]
  }

  function ListItems(value: Toml): seq<Toml> {
    if value.List? then value.items else []
  }

  /** A rule by itself, its unknown keys aside. */
  function RuleOf(raw: Toml, fields: Fields, lookups: Lookups): Load<TemplateRule> {
    if raw.Table? then LoadRule(raw.entries, fields, lookups) else Rejected
  }

  function BoundaryOf(raw: Toml): Load<BoundaryRule> {
    if raw.Table? then LoadBoundary(raw.entries) else Rejected
  }

  /** The rules kept are those at these positions: in order, exactly the ones that load, as they load. */
  predicate RulesAt(items: seq<Toml>, kept: seq<(string, TemplateRule)>, fields: Fields, lookups: Lookups, positions: seq<nat>) {
    && Increasing(positions) && |positions| == |kept| && (forall p :: p in positions ==> p < |items|)
    && (forall p :: 0 <= p < |items| ==> (p in positions <==> RuleOf(items[p], fields, lookups).Loaded?))
    && (forall k :: 0 <= k < |kept| && positions[k] < |items| ==> RuleOf(items[positions[k]], fields, lookups) == Loaded(kept[k].1))
  }

  ghost predicate RulesKept(items: seq<Toml>, kept: seq<(string, TemplateRule)>, fields: Fields, lookups: Lookups) {
    exists positions :: RulesAt(items, kept, fields, lookups, positions)
  }

  predicate BoundariesAt(items: seq<Toml>, kept: seq<(string, BoundaryRule)>, positions: seq<nat>) {
    && Increasing(positions) && |positions| == |kept| && (forall p :: p in positions ==> p < |items|)
    && (forall p :: 0 <= p < |items| ==> (p in positions <==> BoundaryOf(items[p]).Loaded?))
    && (forall k :: 0 <= k < |kept| && positions[k] < |items| ==> BoundaryOf(items[positions[k]]) == Loaded(kept[k].1))
  }

  ghost predicate BoundariesKept(items: seq<Toml>, kept: seq<(string, BoundaryRule)>) {
    exists positions :: BoundariesAt(items, kept, positions)
  }

  /** The lists of a block. */
  ghost predicate PartsKept(raw: Dict, parts: BlockParts, fields: Fields, lookups: Lookups) {
    && RulesKept(ListItems(Get(raw, "rules")), parts.rules, fields, lookups)
    && BoundariesKept(ListItems(Get(raw, "start")), parts.start)
    && BoundariesKept(ListItems(Get(raw, "end")), parts.end)
  }

  /** A block survives if it is a table whose other entries load against the boundaries it keeps. */
  ghost predicate BlockSurvives(name: string, raw: Toml, fields: Fields, lookups: Lookups) {
    raw.Table? && exists parts :: PartsKept(raw.entries, parts, fields, lookups) && LoadBlock(name, raw.entries, fields, parts).Loaded?
  }

  /** The blocks kept are those at these positions, in order, with all their lists kept likewise. */
  ghost predicate BlocksAt(items: Dict, kept: seq<(string, Block)>, fields: Fields, lookups: Lookups, positions: seq<nat>) {
    && Increasing(positions) && |positions| == |kept| && (forall p :: p in positions ==> p < |items|)
    && (forall p :: 0 <= p < |items| ==> (p in positions <==> BlockSurvives(items[p].0, items[p].1, fields, lookups)))
    && (forall k :: 0 <= k < |kept| && positions[k] < |items| ==> BlockKept(items[positions[k]], kept[k], fields, lookups))
  }

  ghost predicate BlockKept(item: (string, Toml), kept: (string, Block), fields: Fields, lookups: Lookups) {
    && kept.0 == item.0 && item.1.Table? && PartsKept(item.1.entries, kept.1.parts, fields, lookups)
    && LoadBlock(item.0, item.1.entries, fields, kept.1.parts) == Loaded(kept.1)
  }

  ghost predicate BlocksKept(items: Dict, kept: seq<(string, Block)>, fields: Fields, lookups: Lookups) {
    exists positions :: BlocksAt(items, kept, fields, lookups, positions)
  }

  // ---------------------------------------------------------------------------
  // Lists
  // ---------------------------------------------------------------------------

  lemma RuleItemSurvives(location: string, name: string, raw: Toml, fields: Fields, lookups: Lookups)
    ensures
      var tolerate := RuleTolerator(location, fields, lookups);
      && (Survives((name, raw), tolerate) <==> RuleOf(raw, fields, lookups).Loaded?)
      && (Survives((name, raw), tolerate) ==> RuleOf(raw, fields, lookups) == Loaded(tolerate(name, raw).value.0.value))
  {
    RuleSurvives(location, name, raw, fields, lookups);
    if raw.Table? { RuleCleaned(raw.entries, fields, lookups); }
  }

  lemma BoundaryItemSurvives(location: string, name: string, raw: Toml)
    ensures
      var tolerate := BoundaryTolerator(location);
      && (Survives((name, raw), tolerate) <==> BoundaryOf(raw).Loaded?)
      && (Survives((name, raw), tolerate) ==> BoundaryOf(raw) == Loaded(tolerate(name, raw).value.0.value))
  {
    if raw.Table? { BoundaryCleaned(raw.entries); }
  }

  lemma RuleListKept(value: Toml, location: string, fields: Fields, lookups: Lookups)
    requires TolerateSection(value, true, location, RuleTolerator(location, fields, lookups)).Loaded?
    ensures RulesKept(ListItems(value), TolerateSection(value, true, location, RuleTolerator(location, fields, lookups)).value.0, fields, lookups)
  {
    var tolerate := RuleTolerator(location, fields, lookups);
    var kept := TolerateSection(value, true, location, tolerate).value.0;
    if value.List? {
      var items := Indexed(value.items);
      var positions := Survivors(items, tolerate);
      SurvivorsAre(items, tolerate);
      forall p | 0 <= p < |items| ensures p in positions <==> RuleOf(value.items[p], fields, lookups).Loaded? {
        RuleItemSurvives(location, items[p].0, items[p].1, fields, lookups);
      }
      KeptAtSurvivors(items, tolerate, 0);
      forall k | 0 <= k < |kept| ensures positions[k] < |items| && RuleOf(value.items[positions[k]], fields, lookups) == Loaded(kept[k].1) {
        KeptAtSurvivors(items, tolerate, k);
        var p := positions[k];
        RuleItemSurvives(location, items[p].0, items[p].1, fields, lookups);
      }
      assert RulesAt(value.items, kept, fields, lookups, positions);
    } else {
      assert RulesAt([], kept, fields, lookups, []);
    }
  }

  lemma BoundaryListKept(value: Toml, location: string)
    requires TolerateSection(value, true, location, BoundaryTolerator(location)).Loaded?
    ensures BoundariesKept(ListItems(value), TolerateSection(value, true, location, BoundaryTolerator(location)).value.0)
  {
    var tolerate := BoundaryTolerator(location);
    var kept := TolerateSection(value, true, location, tolerate).value.0;
    if value.List? {
      var items := Indexed(value.items);
      var positions := Survivors(items, tolerate);
      SurvivorsAre(items, tolerate);
      forall p | 0 <= p < |items| ensures p in positions <==> BoundaryOf(value.items[p]).Loaded? {
        BoundaryItemSurvives(location, items[p].0, items[p].1);
      }
      KeptAtSurvivors(items, tolerate, 0);
      forall k | 0 <= k < |kept| ensures positions[k] < |items| && BoundaryOf(value.items[positions[k]]) == Loaded(kept[k].1) {
        KeptAtSurvivors(items, tolerate, k);
        var p := positions[k];
        BoundaryItemSurvives(location, items[p].0, items[p].1);
      }
      assert BoundariesAt(value.items, kept, positions);
    } else {
      assert BoundariesAt([], kept, []);
    }
  }

  // ---------------------------------------------------------------------------
  // A list determines what is kept of it
  // ---------------------------------------------------------------------------

  lemma {:induction false} SamePositions(a: seq<nat>, b: seq<nat>)
    requires Increasing(a) && Increasing(b) && forall p :: p in a <==> p in b
    ensures a == b
    decreases |a|
  {
    assert (a != [] ==> a[0] in a) && (b != [] ==> b[0] in b);
    if a != [] && b != [] {
      var (x, y) := (a[|a| - 1], b[|b| - 1]);
      assert x in a && y in b && x in b && y in a;
      assert x == y by {
        var i :| 0 <= i < |b| && b[i] == x;
        var j :| 0 <= j < |a| && a[j] == y;
      }
      var (c, d) := (a[..|a| - 1], b[..|b| - 1]);
      forall p ensures p in c <==> p in d {
        InFront(a, p);
        InFront(b, p);
      }
      SamePositions(c, d);
    }
  }

  lemma InFront(a: seq<nat>, p: nat)
    requires Increasing(a) && a != []
    ensures p in a[..|a| - 1] <==> p in a && p != a[|a| - 1]
  {
    var c := a[..|a| - 1];
    if p in c {
      var i :| 0 <= i < |c| && c[i] == p;
      assert a[i] == p;
    }
    if p in a && p != a[|a| - 1] {
      var i :| 0 <= i < |a| && a[i] == p;
      assert c[i] == p;
    }
  }

  lemma SameBoundaries(items: seq<Toml>, a: seq<(string, BoundaryRule)>, b: seq<(string, BoundaryRule)>)
    requires BoundariesKept(items, a) && BoundariesKept(items, b)
    ensures |a| == |b| && forall k :: 0 <= k < |a| ==> a[k].1 == b[k].1
  {
    var p :| BoundariesAt(items, a, p);
    var q :| BoundariesAt(items, b, q);
    SamePositions(p, q);
    forall k | 0 <= k < |a| ensures a[k].1 == b[k].1 {
      assert p[k] in p && q[k] in q;
    }
  }

  lemma {:induction false} SameCaptures(a: seq<(string, BoundaryRule)>, b: seq<(string, BoundaryRule)>)
    requires |a| == |b| && forall k :: 0 <= k < |a| ==> a[k].1 == b[k].1
    ensures BoundaryCaptures(a) == BoundaryCaptures(b)
  {
    if a != [] { SameCaptures(a[1..], b[1..]); }
  }

  /** Whether the rest of a block loads does not depend on how its kept boundaries are presented. */
  lemma SameBlockLoads(name: string, raw: Dict, fields: Fields, lookups: Lookups, a: BlockParts, b: BlockParts)
    requires PartsKept(raw, a, fields, lookups) && PartsKept(raw, b, fields, lookups)
    ensures LoadBlock(name, raw, fields, a).Loaded? <==> LoadBlock(name, raw, fields, b).Loaded?
  {
    SameBoundaries(ListItems(Get(raw, "start")), a.start, b.start);
    SameBoundaries(ListItems(Get(raw, "end")), a.end, b.end);
    SameCaptures(a.start, b.start);
    SameCaptures(a.end, b.end);
  }

  // ---------------------------------------------------------------------------
  // Blocks and documents
  // ---------------------------------------------------------------------------

  lemma TolerantPartsKept(name: string, raw: Dict, fields: Fields, lookups: Lookups)
    requires TolerantParts("blocks." + name, Cleaned(raw, BLOCK_KEYS), fields, lookups).Loaded?
    ensures PartsKept(raw, TolerantParts("blocks." + name, Cleaned(raw, BLOCK_KEYS), fields, lookups).value.0, fields, lookups)
  {
    var (location, table) := ("blocks." + name, Cleaned(raw, BLOCK_KEYS));
    GetCleaned(raw, BLOCK_KEYS, "rules");
    GetCleaned(raw, BLOCK_KEYS, "start");
    GetCleaned(raw, BLOCK_KEYS, "end");
    RuleListKept(Get(table, "rules"), location + ".rules", fields, lookups);
    BoundaryListKept(Get(table, "start"), location + ".start");
    BoundaryListKept(Get(table, "end"), location + ".end");
  }

  lemma BlockItemSurvives(item: (string, Toml), fields: Fields, lookups: Lookups)
    requires TolerateBlock(item.0, item.1, fields, lookups).Loaded?
    ensures
      var block := TolerateBlock(item.0, item.1, fields, lookups).value.0;
      && (block.Some? <==> BlockSurvives(item.0, item.1, fields, lookups))
      && (block.Some? ==> BlockKept(item, (item.0, block.value), fields, lookups))
  {
    var (name, raw) := item;
    if raw.Table? {
      var parts := TolerantParts("blocks." + name, Cleaned(raw.entries, BLOCK_KEYS), fields, lookups).value.0;
      TolerantPartsKept(name, raw.entries, fields, lookups);
      BlockCleaned(name, raw.entries, fields, parts);
      if BlockSurvives(name, raw, fields, lookups) {
        var other :| PartsKept(raw.entries, other, fields, lookups) && LoadBlock(name, raw.entries, fields, other).Loaded?;
        SameBlockLoads(name, raw.entries, fields, lookups, parts, other);
      }
    }
  }

  lemma {:induction false} AllTolerated<T>(items: Dict, tolerate: Tolerator<T>, i: nat)
    requires TolerateAll(items, tolerate).Loaded? && i < |items|
    ensures tolerate(items[i].0, items[i].1).Loaded?
    decreases |items|
  {
    if i > 0 { AllTolerated(items[1..], tolerate, i - 1); }
  }

  lemma BlockListKept(items: Dict, fields: Fields, lookups: Lookups)
    requires TolerateAll(items, BlockTolerator(fields, lookups)).Loaded?
    ensures BlocksKept(items, TolerateAll(items, BlockTolerator(fields, lookups)).value.0, fields, lookups)
  {
    var tolerate := BlockTolerator(fields, lookups);
    var kept := TolerateAll(items, tolerate).value.0;
    var positions := Survivors(items, tolerate);
    SurvivorsAre(items, tolerate);
    KeptAtSurvivors(items, tolerate, 0);
    forall p | 0 <= p < |items| ensures p in positions <==> BlockSurvives(items[p].0, items[p].1, fields, lookups) {
      AllTolerated(items, tolerate, p);
      BlockItemSurvives(items[p], fields, lookups);
    }
    forall k | 0 <= k < |kept| ensures positions[k] < |items| && BlockKept(items[positions[k]], kept[k], fields, lookups) {
      KeptAtSurvivors(items, tolerate, k);
      AllTolerated(items, tolerate, positions[k]);
      BlockItemSurvives(items[positions[k]], fields, lookups);
    }
    assert BlocksAt(items, kept, fields, lookups, positions);
  }

  /** Every list of a tolerantly loaded template, the global rules and the rules and boundaries of every block, is the
      in-order sublist of the items that load against the surviving fields and lookups, and so are the blocks. */
  lemma TemplateIsWhatSurvives(document: Dict)
    requires LoadTolerant(document).Loaded?
    ensures
      var template := LoadTolerant(document).value.0;
      && template.fields == SurvivingFields(document) && template.lookups == SurvivingLookups(document)
      && RulesKept(ListItems(GlobalValue(document, "rules")), template.rules, template.fields, template.lookups)
      && BlocksKept(if Get(document, "blocks").Table? then Get(document, "blocks").entries else [],
                    template.blocks, template.fields, template.lookups)
  {
    GlobalCleaned(document, "fields");
    GlobalCleaned(document, "lookups");
    GlobalCleaned(document, "rules");
    var template := LoadTolerant(document).value.0;
    RuleListKept(GlobalValue(document, "rules"), "global.rules", template.fields, template.lookups);
    if Get(document, "blocks").Table? && Get(document, "blocks").entries != [] {
      BlockListKept(Get(document, "blocks").entries, template.fields, template.lookups);
    } else {
      assert BlocksAt([], template.blocks, template.fields, template.lookups, []);
    }
  }
}
