/** Task parameters kept by the panel itself: shown as values for editing, stored as placeholders in the task file. */
module ManagedParams {
  import opened Wrappers
  import LiveState
  import LogText

  datatype Json = Null | Bool(flag: bool) | Num(number: int) | Str(text: string) | List(items: seq<Json>) | Obj(entries: Dict)

  type Dict = map<string, Json>

  /** How a list or an object is written as text. */
  type Repr = Json -> string

  const MANAGED_PARAMS_KEY := "managed_params"
  const RUNTIME_PLACEHOLDER_PREFIX := "__framework_runtime__:"
  const MANAGED_ARRAY_PLACEHOLDER_PREFIX := RUNTIME_PLACEHOLDER_PREFIX + "array:"
  const FIGHT_STAGE_PLACEHOLDER := RUNTIME_PLACEHOLDER_PREFIX + "fight_stage"
  const INFRAST_PLAN_INDEX_PLACEHOLDER := RUNTIME_PLACEHOLDER_PREFIX + "infrast_plan_index"
  const CURRENT_STAGE_VALUE := "__framework_stage__:current_last"

  function Get(table: Dict, key: string): Json {
    if key in table then table[key] else Null
  }

  function TextOf(value: Json, repr: Repr): string {
    match value
    case Null => "None"
    case Bool(flag) => if flag then "True" else "False"
    case Num(number) => if number < 0 then "-" + LiveState.Decimal(-number) else LiveState.Decimal(number)
    case Str(text) => text
    case _ => repr(value)
  }

  predicate Falsy(value: Json) {
    value in {Null, Bool(false), Num(0), Str(""), List([]), Obj(map[])}
  }

  function Stripped(text: string): string {
    LogText.RightStripped(LogText.LeftStripped(text))
  }

  function NormalizeStage(value: Json, repr: Repr): string {
    var text := Stripped(if Falsy(value) then "" else TextOf(value, repr));
    if text == "" then CURRENT_STAGE_VALUE else text
  }

  predicate RuntimePlaceholder(value: Json) {
    value.Str? && RUNTIME_PLACEHOLDER_PREFIX <= value.text
  }

  // ---------------------------------------------------------------------------
  // Managed metadata
  // ---------------------------------------------------------------------------

  function ManagedOf(metadata: Dict): Dict {
    if Get(metadata, MANAGED_PARAMS_KEY).Obj? then metadata[MANAGED_PARAMS_KEY].entries else map[]
  }

  function Item(value: Json): Json {
    Obj(map["value" := value, "enabled" := Bool(true)])
  }

  function ItemsFor(values: seq<Json>): Json {
    List(seq(|values|, i requires 0 <= i < |values| => Item(values[i])))
  }

  function ArraySpec(values: seq<Json>): Json {
    Obj(map["type" := Str("array"), "items" := ItemsFor(values)])
  }

  /** Every list parameter without a spec gets one that holds its items. */
  function WithArrays(params: Dict, managed: Dict): Dict {
    map key | key in managed.Keys + params.Keys && (key in managed || params[key].List?) ::
      if key in managed then managed[key] else ArraySpec(params[key].items)
  }

  function StageSpec(current: Json, repr: Repr): Json {
    Obj(map["type" := Str("runtime"), "handler" := Str("fight_stage"),
            "items" := ItemsFor(if RuntimePlaceholder(current) then [] else [Str(NormalizeStage(current, repr))])])
  }

  function NormalizedItem(item: Json, repr: Repr): Json {
    if item.Obj? then Obj(item.entries["value" := Str(NormalizeStage(Get(item.entries, "value"), repr))]) else item
  }

  function NormalizedStageSpec(spec: Json, repr: Repr): Json {
    if spec.Obj? && Get(spec.entries, "items").List? then
      var items := spec.entries["items"].items;
      Obj(spec.entries["items" := List(seq(|items|, i requires 0 <= i < |items| => NormalizedItem(items[i], repr)))])
    else spec
  }

  function PlanSpec(current: Json, repr: Repr): Json {
    Obj(map["type" := Str("runtime"), "handler" := Str("infrast_plan_index"),
            "value" := Str(if RuntimePlaceholder(current) then INFRAST_PLAN_INDEX_PLACEHOLDER else TextOf(current, repr))])
  }

  function WithStage(taskType: string, params: Dict, managed: Dict, repr: Repr): Dict {
    if taskType != "Fight" then managed
    else if "stage" in managed then managed["stage" := NormalizedStageSpec(managed["stage"], repr)]
    else managed["stage" := StageSpec(if "stage" in params then params["stage"] else Str(""), repr)]
  }

  function WithPlan(taskType: string, params: Dict, managed: Dict, repr: Repr): Dict {
    if taskType != "Infrast" || "plan_index" in managed then managed
    else managed["plan_index" := PlanSpec(if "plan_index" in params then params["plan_index"] else Num(0), repr)]
  }

  function EnsuredManaged(taskType: string, params: Dict, managed: Dict, repr: Repr): Dict {
    WithPlan(taskType, params, WithStage(taskType, params, WithArrays(params, managed), repr), repr)
  }

  function Ensured(taskType: string, params: Dict, metadata: Dict, repr: Repr): Dict {
    metadata[MANAGED_PARAMS_KEY := Obj(EnsuredManaged(taskType, params, ManagedOf(metadata), repr))]
  }

  // ---------------------------------------------------------------------------
  // Inflate and project
  // ---------------------------------------------------------------------------

  datatype SpecKind = ArrayKind | StageKind | PlanKind | OtherKind

  function KindOf(spec: Json): SpecKind {
    if !spec.Obj? then OtherKind
    else if Get(spec.entries, "type") == Str("array") then ArrayKind
    else if Get(spec.entries, "type") == Str("runtime") then
      (if Get(spec.entries, "handler") == Str("fight_stage") then StageKind
       else if Get(spec.entries, "handler") == Str("infrast_plan_index") then PlanKind
       else OtherKind)
    else OtherKind
  }

  function ItemsOf(spec: Json): seq<Json>
    requires spec.Obj?
  {
    if Get(spec.entries, "items").List? then Objects(spec.entries["items"].items) else []
  }

  function Objects(items: seq<Json>): (objects: seq<Json>)
    ensures forall i :: 0 <= i < |objects| ==> objects[i].Obj?
  {
    if items == [] then [] else (if items[0].Obj? then [items[0]] else []) + Objects(items[1..])
  }

  function PlanValue(spec: Json): Json
    requires spec.Obj?
  {
    if "value" in spec.entries then spec.entries["value"] else Str(INFRAST_PLAN_INDEX_PLACEHOLDER)
  }

  /** A list or an object as plan value cannot be looked up among the automatic ones: the program fails there. */
  predicate PlanCrashes(spec: Json) {
    KindOf(spec) == PlanKind && (PlanValue(spec).List? || PlanValue(spec).Obj?)
  }

  predicate AutoPlan(value: Json) {
    value in {Null, Str(""), Num(-1), Str("__auto__"), Str(INFRAST_PLAN_INDEX_PLACEHOLDER)}
  }

  function InflatedValue(spec: Json, repr: Repr): Json
    requires KindOf(spec) != OtherKind
  {
    match KindOf(spec)
    case ArrayKind =>
      var items := ItemsOf(spec);
      List(seq(|items|, i requires 0 <= i < |items| => Get(items[i].entries, "value")))
    case StageKind =>
      var items := ItemsOf(spec);
      List(seq(|items|, i requires 0 <= i < |items| => Str(NormalizeStage(Get(items[i].entries, "value"), repr))))
    case PlanKind =>
      Str(if AutoPlan(PlanValue(spec)) then INFRAST_PLAN_INDEX_PLACEHOLDER else TextOf(PlanValue(spec), repr))
  }

  function PlaceholderFor(key: string, spec: Json): Json
    requires KindOf(spec) != OtherKind
  {
    match KindOf(spec)
    case ArrayKind => Str(MANAGED_ARRAY_PLACEHOLDER_PREFIX + key)
    case StageKind => Str(FIGHT_STAGE_PLACEHOLDER)
    case PlanKind => Str(INFRAST_PLAN_INDEX_PLACEHOLDER)
  }

  function InflatedParams(params: Dict, managed: Dict, repr: Repr): Dict {
    map key | key in params.Keys + managed.Keys && (key in params || KindOf(managed[key]) != OtherKind) ::
      if key in managed && KindOf(managed[key]) != OtherKind then InflatedValue(managed[key], repr) else params[key]
  }

  function ProjectedParams(params: Dict, managed: Dict): Dict {
    map key | key in params.Keys + managed.Keys && (key in params || KindOf(managed[key]) != OtherKind) ::
      if key in managed && KindOf(managed[key]) != OtherKind then PlaceholderFor(key, managed[key]) else params[key]
  }

  /** None is the failure on a plan value that is a list or an object. */
  function Inflate(taskType: string, params: Dict, metadata: Dict, repr: Repr): Option<(Dict, Dict)> {
    var next := Ensured(taskType, params, metadata, repr);
    if exists key :: key in ManagedOf(next) && PlanCrashes(ManagedOf(next)[key]) then None
    else Some((InflatedParams(params, ManagedOf(next), repr), next))
  }

  function Project(taskType: string, params: Dict, metadata: Dict, repr: Repr): (Dict, Dict) {
    var next := Ensured(taskType, params, metadata, repr);
    (ProjectedParams(params, ManagedOf(next)), next)
  }

  // ---------------------------------------------------------------------------
  // Normalization is stable
  // ---------------------------------------------------------------------------

  lemma {:induction false} LeftStrippedStarts(text: string)
    ensures LogText.LeftStripped(text) == "" || !LogText.Whitespace(LogText.LeftStripped(text)[0])
  {
    if text != "" && LogText.Whitespace(text[0]) { LeftStrippedStarts(text[1..]); }
  }

  lemma {:induction false} RightStrippedEnds(text: string)
    ensures
      var r := LogText.RightStripped(text);
      && (r == "" || !LogText.Whitespace(r[|r| - 1])) && r <= text
  {
    if text != "" && LogText.Whitespace(text[|text| - 1]) { RightStrippedEnds(text[..|text| - 1]); }
  }

  lemma StripTwice(text: string)
    ensures Stripped(Stripped(text)) == Stripped(text)
  {
    LeftStrippedStarts(text);
    RightStrippedEnds(LogText.LeftStripped(text));
  }

  lemma NormalizeTwice(value: Json, repr: Repr)
    ensures NormalizeStage(Str(NormalizeStage(value, repr)), repr) == NormalizeStage(value, repr)
  {
    var text := if Falsy(value) then "" else TextOf(value, repr);
    StripTwice(text);
    CurrentStageIsStripped();
  }

  lemma CurrentStageIsStripped()
    ensures Stripped(CURRENT_STAGE_VALUE) == CURRENT_STAGE_VALUE && CURRENT_STAGE_VALUE != ""
  {
    assert CURRENT_STAGE_VALUE[0] == '_' && CURRENT_STAGE_VALUE[|CURRENT_STAGE_VALUE| - 1] == 't';
  }

  lemma NormalizedSpecTwice(spec: Json, repr: Repr)
    ensures NormalizedStageSpec(NormalizedStageSpec(spec, repr), repr) == NormalizedStageSpec(spec, repr)
  {
    if spec.Obj? && Get(spec.entries, "items").List? {
      var items := spec.entries["items"].items;
      var once := NormalizedStageSpec(spec, repr);
      forall i | 0 <= i < |items| ensures NormalizedItem(NormalizedItem(items[i], repr), repr) == NormalizedItem(items[i], repr) {
        if items[i].Obj? {
          NormalizeTwice(Get(items[i].entries, "value"), repr);
          var value := Str(NormalizeStage(Get(items[i].entries, "value"), repr));
          assert items[i].entries["value" := value]["value" := value] == items[i].entries["value" := value];
        }
      }
      assert NormalizedStageSpec(once, repr).entries["items"].items == once.entries["items"].items;
      assert NormalizedStageSpec(once, repr).entries == once.entries;
    }
  }

  lemma StageSpecNormalized(current: Json, repr: Repr)
    ensures NormalizedStageSpec(StageSpec(current, repr), repr) == StageSpec(current, repr)
  {
    var spec := StageSpec(current, repr);
    var items := spec.entries["items"].items;
    forall i | 0 <= i < |items| ensures NormalizedItem(items[i], repr) == items[i] {
      NormalizeTwice(current, repr);
      assert items[i].entries["value" := items[i].entries["value"]] == items[i].entries;
    }
    assert NormalizedStageSpec(spec, repr).entries["items"].items == items;
    assert NormalizedStageSpec(spec, repr).entries == spec.entries;
  }

  // ---------------------------------------------------------------------------
  // Round trips
  // ---------------------------------------------------------------------------

  /** Nothing is left for `ensure_managed_metadata` to add or change. */
  ghost predicate Settled(taskType: string, params: Dict, managed: Dict, repr: Repr) {
    && (forall key :: key in params && params[key].List? ==> key in managed)
    && (taskType == "Fight" ==> "stage" in managed && NormalizedStageSpec(managed["stage"], repr) == managed["stage"])
    && (taskType == "Infrast" ==> "plan_index" in managed)
  }

  lemma SettledStays(taskType: string, params: Dict, managed: Dict, repr: Repr)
    requires Settled(taskType, params, managed, repr)
    ensures EnsuredManaged(taskType, params, managed, repr) == managed
  {
  }

  lemma EnsuredSettles(taskType: string, params: Dict, managed: Dict, repr: Repr)
    ensures Settled(taskType, params, EnsuredManaged(taskType, params, managed, repr), repr)
  {
    var arrays := WithArrays(params, managed);
    if taskType == "Fight" {
      if "stage" in arrays {
        NormalizedSpecTwice(arrays["stage"], repr);
      } else {
        StageSpecNormalized(if "stage" in params then params["stage"] else Str(""), repr);
      }
    }
  }

  lemma EnsuredAgain(taskType: string, params: Dict, other: Dict, metadata: Dict, repr: Repr)
    requires forall key :: key in other && other[key].List? ==> key in ManagedOf(Ensured(taskType, params, metadata, repr))
    ensures
      var ensured := Ensured(taskType, params, metadata, repr);
      Ensured(taskType, other, ensured, repr) == ensured
  {
    var ensured := Ensured(taskType, params, metadata, repr);
    EnsuredSettles(taskType, params, ManagedOf(metadata), repr);
    SettledStays(taskType, other, ManagedOf(ensured), repr);
    assert ensured[MANAGED_PARAMS_KEY := ensured[MANAGED_PARAMS_KEY]] == ensured;
  }

  /** `ensure_managed_metadata` changes nothing in its own result, whatever the task, params and metadata. */
  lemma EnsureIsIdempotent(taskType: string, params: Dict, metadata: Dict, repr: Repr)
    ensures
      var ensured := Ensured(taskType, params, metadata, repr);
      Ensured(taskType, params, ensured, repr) == ensured
  {
    EnsuredSettles(taskType, params, ManagedOf(metadata), repr);
    EnsuredAgain(taskType, params, params, metadata, repr);
  }

  lemma ListsAreManaged(taskType: string, params: Dict, metadata: Dict, repr: Repr)
    ensures
      var managed := ManagedOf(Ensured(taskType, params, metadata, repr));
      && (forall key :: key in params && params[key].List? ==> key in managed)
      && (forall key :: key in InflatedParams(params, managed, repr) && InflatedParams(params, managed, repr)[key].List? ==> key in managed)
      && (forall key :: key in ProjectedParams(params, managed) && ProjectedParams(params, managed)[key].List? ==> key in managed)
  {
  }

  lemma InflatedOver(params: Dict, managed: Dict, repr: Repr)
    ensures InflatedParams(ProjectedParams(params, managed), managed, repr) == InflatedParams(params, managed, repr)
    ensures InflatedParams(InflatedParams(params, managed, repr), managed, repr) == InflatedParams(params, managed, repr)
  {
  }

  /** Projecting for the task file loses nothing that editing shows: inflating the projection gives what inflating
      the original gives, failures included. */
  lemma InflateAfterProject(taskType: string, params: Dict, metadata: Dict, repr: Repr)
    ensures
      var (projected, next) := Project(taskType, params, metadata, repr);
      Inflate(taskType, projected, next, repr) == Inflate(taskType, params, metadata, repr)
  {
    var next := Ensured(taskType, params, metadata, repr);
    ListsAreManaged(taskType, params, metadata, repr);
    EnsuredAgain(taskType, params, ProjectedParams(params, ManagedOf(next)), metadata, repr);
    InflatedOver(params, ManagedOf(next), repr);
  }

  /** An edited task that is stored and opened again is the same task. */
  lemma EditRoundTrip(taskType: string, params: Dict, metadata: Dict, repr: Repr)
    requires Inflate(taskType, params, metadata, repr).Some?
    ensures
      var (edited, kept) := Inflate(taskType, params, metadata, repr).value;
      var (stored, next) := Project(taskType, edited, kept, repr);
      next == kept && Inflate(taskType, stored, next, repr) == Some((edited, kept))
  {
    var (edited, kept) := Inflate(taskType, params, metadata, repr).value;
    ListsAreManaged(taskType, params, metadata, repr);
    EnsuredAgain(taskType, params, edited, metadata, repr);
    InflateAfterProject(taskType, edited, kept, repr);
    InflatedOver(params, ManagedOf(kept), repr);
  }

  lemma {:induction false} ObjectsOfItems(items: seq<Json>)
    requires forall i :: 0 <= i < |items| ==> items[i].Obj?
    ensures Objects(items) == items
  {
    if items != [] { ObjectsOfItems(items[1..]); }
  }

  /** A list parameter the panel sees for the first time goes into the task file as a placeholder and comes back
      for editing as the very same list; only the stage list of a Fight task is normalized. */
  lemma NewListSurvives(taskType: string, params: Dict, metadata: Dict, repr: Repr, key: string)
    requires key in params && params[key].List? && key !in ManagedOf(metadata)
    requires !(taskType == "Fight" && key == "stage")
    requires Inflate(taskType, params, metadata, repr).Some?
    ensures
      var (stored, next) := Project(taskType, params, metadata, repr);
      && key in stored && stored[key] == Str(MANAGED_ARRAY_PLACEHOLDER_PREFIX + key)
      && Inflate(taskType, stored, next, repr).Some?
      && key in Inflate(taskType, stored, next, repr).value.0
      && Inflate(taskType, stored, next, repr).value.0[key] == params[key]
  {
    InflateAfterProject(taskType, params, metadata, repr);
    NewListSpec(taskType, params, metadata, repr, key);
    InflatedArray(params[key].items, repr);
  }

  lemma NewListSpec(taskType: string, params: Dict, metadata: Dict, repr: Repr, key: string)
    requires key in params && params[key].List? && key !in ManagedOf(metadata) && !(taskType == "Fight" && key == "stage")
    ensures
      var managed := ManagedOf(Ensured(taskType, params, metadata, repr));
      key in managed && managed[key] == ArraySpec(params[key].items)
  {
  }

  lemma InflatedArray(values: seq<Json>, repr: Repr)
    ensures KindOf(ArraySpec(values)) == ArrayKind && InflatedValue(ArraySpec(values), repr) == List(values)
  {
    ObjectsOfItems(ItemsFor(values).items);
    assert ItemsOf(ArraySpec(values)) == ItemsFor(values).items;
    assert InflatedValue(ArraySpec(values), repr).items == values;
  }

  // ---------------------------------------------------------------------------
  // The loops
  // ---------------------------------------------------------------------------

  method EnsureArrays(params: Dict, managed: Dict) returns (next: Dict)
    ensures next == WithArrays(params, managed)
  {
    next := managed;
    var pending := params.Keys;
    while pending != {}
      invariant pending <= params.Keys
      invariant next == WithArrays(map key | key in params && key !in pending :: params[key], managed)
      decreases pending
    {
      var key :| key in pending;
      if params[key].List? && key !in next {
        next := next[key := ArraySpec(params[key].items)];
      }
      pending := pending - {key};
    }
    assert (map key | key in params && key !in pending :: params[key]) == params;
  }

  /** One more spec. */
  lemma OneMoreSpec(params: Dict, managed: Dict, key: string, spec: Json, repr: Repr)
    requires key !in managed
    ensures InflatedParams(params, managed[key := spec], repr) ==
      if KindOf(spec) == OtherKind then InflatedParams(params, managed, repr)
      else InflatedParams(params, managed, repr)[key := InflatedValue(spec, repr)]
    ensures ProjectedParams(params, managed[key := spec]) ==
      if KindOf(spec) == OtherKind then ProjectedParams(params, managed)
      else ProjectedParams(params, managed)[key := PlaceholderFor(key, spec)]
  {
  }

  method InflateParams(params: Dict, managed: Dict, repr: Repr) returns (result: Option<Dict>)
    ensures result == if exists key :: key in managed && PlanCrashes(managed[key]) then None else Some(InflatedParams(params, managed, repr))
  {
    var next := params;
    var pending := managed.Keys;
    ghost var done: Dict := map[];
    assert InflatedParams(params, done, repr) == params;
    while pending != {}
      invariant pending <= managed.Keys && done.Keys == managed.Keys - pending
      invariant forall key :: key in done ==> done[key] == managed[key] && !PlanCrashes(managed[key])
      invariant next == InflatedParams(params, done, repr)
      decreases pending
    {
      var key :| key in pending;
      var spec := managed[key];
      if PlanCrashes(spec) { return None; }
      OneMoreSpec(params, done, key, spec, repr);
      if KindOf(spec) != OtherKind {
        next := next[key := InflatedValue(spec, repr)];
      }
      done, pending := done[key := spec], pending - {key};
    }
    assert done == managed;
    return Some(next);
  }

  method ProjectParams(params: Dict, managed: Dict) returns (next: Dict)
    ensures next == ProjectedParams(params, managed)
  {
    next := params;
    var pending := managed.Keys;
    ghost var done: Dict := map[];
    assert ProjectedParams(params, done) == params;
    while pending != {}
      invariant pending <= managed.Keys && done.Keys == managed.Keys - pending
      invariant forall key :: key in done ==> done[key] == managed[key]
      invariant next == ProjectedParams(params, done)
      decreases pending
    {
      var key :| key in pending;
      OneMoreSpec(params, done, key, managed[key], value => "");
      if KindOf(managed[key]) != OtherKind {
        next := next[key := PlaceholderFor(key, managed[key])];
      }
      done, pending := done[key := managed[key]], pending - {key};
    }
    assert done == managed;
  }
}
