/** The values of managed parameters, written out. */
module ManagedValues {
  import opened Wrappers
  import opened ManagedParams
  import LiveState
  import LogText

  /** The words Python has for the plain values; only lists and objects are left to `repr`. */
  lemma TextExactly(value: Json, repr: Repr)
    ensures TextOf(value, repr) ==
      match value
      case Null => "None"
      case Bool(flag) => if flag then "True" else "False"
      case Num(number) => Signed(number)
      case Str(text) => text
      case List(_) => repr(value)
      case Obj(_) => repr(value)
  {
  }

  function Signed(number: int): (text: string)
    ensures number >= 0 ==> text == LiveState.Decimal(number)
    ensures number < 0 ==> |text| > 0 && text[0] == '-' && text[1..] == LiveState.Decimal(-number)
  {
    if number < 0 then ['-'] + LiveState.Decimal(-number) else LiveState.Decimal(number)
  }

  /** What is empty in Python: nothing, no, zero, and every text, list and object without content. */
  lemma FalsyExactly(value: Json)
    ensures Falsy(value) <==>
      match value
      case Null => true
      case Bool(flag) => !flag
      case Num(number) => number == 0
      case Str(text) => |text| == 0
      case List(items) => |items| == 0
      case Obj(entries) => |entries| == 0
  {
    if value.Obj? && |value.entries| == 0 { assert value.entries == map[]; }
  }

  /** A text without its leading and trailing white space. */
  ghost predicate StrippedTo(text: string, left: nat, middle: string, right: nat) {
    && left + |middle| + right == |text| && middle == text[left..left + |middle|]
    && (forall i :: 0 <= i < left || left + |middle| <= i < |text| ==> LogText.Whitespace(text[i]))
    && (middle != "" ==> !LogText.Whitespace(middle[0]) && !LogText.Whitespace(middle[|middle| - 1]))
  }

  lemma {:induction false} LeftCut(text: string) returns (left: nat)
    ensures left <= |text| && LogText.LeftStripped(text) == text[left..]
    ensures forall i :: 0 <= i < left ==> LogText.Whitespace(text[i])
    ensures left < |text| ==> !LogText.Whitespace(text[left])
  {
    left := 0;
    if text != "" && LogText.Whitespace(text[0]) {
      var rest := LeftCut(text[1..]);
      left := rest + 1;
    }
  }

  lemma {:induction false} RightCut(text: string) returns (kept: nat)
    ensures kept <= |text| && LogText.RightStripped(text) == text[..kept]
    ensures forall i :: kept <= i < |text| ==> LogText.Whitespace(text[i])
    ensures kept > 0 ==> !LogText.Whitespace(text[kept - 1])
  {
    kept := |text|;
    if text != "" && LogText.Whitespace(text[|text| - 1]) {
      kept := RightCut(text[..|text| - 1]);
    }
  }

  lemma StrippedExactly(text: string) returns (left: nat, right: nat)
    ensures StrippedTo(text, left, Stripped(text), right)
  {
    left := LeftCut(text);
    var kept := RightCut(text[left..]);
    right := |text| - left - kept;
  }

  /** A stage is the text of its value without white space around it; nothing at all means the last stage played. */
  lemma StageExactly(value: Json, repr: Repr) returns (left: nat, right: nat)
    ensures value in {Null, Bool(false), Num(0), Str(""), List([]), Obj(map[])} ==>
      NormalizeStage(value, repr) == "__framework_stage__:current_last"
    ensures value !in {Null, Bool(false), Num(0), Str(""), List([]), Obj(map[])} ==>
      var text := TextOf(value, repr);
      if forall i :: 0 <= i < |text| ==> LogText.Whitespace(text[i])
      then NormalizeStage(value, repr) == "__framework_stage__:current_last"
      else StrippedTo(text, left, NormalizeStage(value, repr), right) && NormalizeStage(value, repr) != ""
  {
    left, right := StrippedExactly(if Falsy(value) then "" else TextOf(value, repr));
  }

  lemma PlaceholderExactly(value: Json)
    ensures RuntimePlaceholder(value) <==> exists rest :: value == Str("__framework_runtime__:" + rest)
  {
    if RuntimePlaceholder(value) {
      assert value == Str("__framework_runtime__:" + value.text[|RUNTIME_PLACEHOLDER_PREFIX|..]);
    }
  }

  /** A list is kept item by item, each switched on. */
  lemma ArrayExactly(values: seq<Json>)
    ensures
      && ArraySpec(values).Obj? && ArraySpec(values).entries.Keys == {"type", "items"}
      && ArraySpec(values).entries["type"] == Str("array") && ArraySpec(values).entries["items"].List?
      && var items := ArraySpec(values).entries["items"].items;
         |items| == |values| && forall i :: 0 <= i < |items| ==> items[i] == Obj(map["value" := values[i], "enabled" := Bool(true)])
  {
  }

  /** A stage that is not a placeholder becomes the one item of its list; a placeholder leaves the list empty. */
  lemma StageSpecExactly(current: Json, repr: Repr)
    ensures StageSpec(current, repr) == Obj(map["type" := Str("runtime"), "handler" := Str("fight_stage"), "items" := List(
      if current.Str? && "__framework_runtime__:" <= current.text then []
      else [Obj(map["value" := Str(NormalizeStage(current, repr)), "enabled" := Bool(true)])])])
  {
    var items := StageSpec(current, repr).entries["items"].items;
    if RuntimePlaceholder(current) {
      assert items == [];
    } else {
      assert items == [Obj(map["value" := Str(NormalizeStage(current, repr)), "enabled" := Bool(true)])];
    }
  }

  lemma PlanSpecExactly(current: Json, repr: Repr)
    ensures PlanSpec(current, repr) == Obj(map["type" := Str("runtime"), "handler" := Str("infrast_plan_index"), "value" := Str(
      if current.Str? && "__framework_runtime__:" <= current.text then "__framework_runtime__:infrast_plan_index"
      else TextOf(current, repr))])
  {
    PlaceholderTexts();
  }

  predicate ItemBecomes(before: Json, after: Json, repr: Repr) {
    if before.Obj? then
      var value := if "value" in before.entries then before.entries["value"] else Null;
      after == Obj(before.entries["value" := Str(NormalizeStage(value, repr))])
    else after == before
  }

  /** Every item that is an object has its value normalized; all else in a stage spec stays. */
  lemma NormalizedExactly(spec: Json, repr: Repr)
    ensures !(spec.Obj? && "items" in spec.entries && spec.entries["items"].List?) ==> NormalizedStageSpec(spec, repr) == spec
    ensures spec.Obj? && "items" in spec.entries && spec.entries["items"].List? ==>
      var before := spec.entries["items"].items;
      && NormalizedStageSpec(spec, repr).Obj? && NormalizedStageSpec(spec, repr).entries.Keys == spec.entries.Keys
      && (forall key :: key in spec.entries && key != "items" ==> NormalizedStageSpec(spec, repr).entries[key] == spec.entries[key])
      && NormalizedStageSpec(spec, repr).entries["items"].List?
      && var after := NormalizedStageSpec(spec, repr).entries["items"].items;
         |after| == |before| && forall i :: 0 <= i < |before| ==> ItemBecomes(before[i], after[i], repr)
  {
  }

  // ---------------------------------------------------------------------------
  // Managed metadata
  // ---------------------------------------------------------------------------

  lemma ManagedExactly(metadata: Dict)
    ensures ManagedOf(metadata) ==
      if "managed_params" in metadata && metadata["managed_params"].Obj? then metadata["managed_params"].entries else map[]
  {
  }

  /** What `ensure_managed_metadata` leaves under every key: a spec of its own for each list that has none, for the
      stage of a Fight task and for the plan of an Infrast task; a Fight stage there already is normalized, and no
      other spec changes, comes or goes. */
  lemma EnsuredExactly(taskType: string, params: Dict, metadata: Dict, repr: Repr, key: string)
    ensures
      var before, after := ManagedOf(metadata), ManagedOf(Ensured(taskType, params, metadata, repr));
      if key in before then
        && key in after
        && after[key] == (if taskType == "Fight" && key == "stage" then NormalizedStageSpec(before[key], repr) else before[key])
      else if key in params && params[key].List? then
        && key in after
        && after[key] == (if taskType == "Fight" && key == "stage" then NormalizedStageSpec(ArraySpec(params[key].items), repr)
                          else ArraySpec(params[key].items))
      else if taskType == "Fight" && key == "stage" then
        key in after && after[key] == StageSpec(if key in params then params[key] else Str(""), repr)
      else if taskType == "Infrast" && key == "plan_index" then
        key in after && after[key] == PlanSpec(if key in params then params[key] else Num(0), repr)
      else key !in after
    ensures key != "managed_params" ==>
      && (key in Ensured(taskType, params, metadata, repr) <==> key in metadata)
      && (key in metadata ==> Ensured(taskType, params, metadata, repr)[key] == metadata[key])
  {
  }

  // ---------------------------------------------------------------------------
  // Editing and storing
  // ---------------------------------------------------------------------------

  predicate Says(spec: Json, key: string, word: string) {
    spec.Obj? && key in spec.entries && spec.entries[key] == Str(word)
  }

  lemma KindExactly(spec: Json)
    ensures KindOf(spec) == ArrayKind <==> Says(spec, "type", "array")
    ensures KindOf(spec) == StageKind <==> Says(spec, "type", "runtime") && Says(spec, "handler", "fight_stage")
    ensures KindOf(spec) == PlanKind <==> Says(spec, "type", "runtime") && Says(spec, "handler", "infrast_plan_index")
  {
  }

  /** The objects among the items, in order: the k-th of them is where k earlier items are objects. */
  lemma {:induction false} ObjectsExactly(items: seq<Json>, i: nat)
    requires i < |items|
    ensures |Objects(items[..i])| <= |Objects(items)| && (items[i].Obj? ==> |Objects(items[..i])| < |Objects(items)|)
    ensures items[i].Obj? ==> Objects(items)[|Objects(items[..i])|] == items[i]
    ensures |Objects(items[..i + 1])| == |Objects(items[..i])| + if items[i].Obj? then 1 else 0
  {
    if i == 0 {
      assert items[..1] == [items[0]] && items[..1][1..] == [];
    } else {
      ObjectsExactly(items[1..], i - 1);
      assert items[..i][1..] == items[1..][..i - 1] && items[..i + 1][1..] == items[1..][..i];
    }
  }

  lemma ItemsExactly(spec: Json)
    requires spec.Obj?
    ensures ItemsOf(spec) ==
      if "items" in spec.entries && spec.entries["items"].List? then Objects(spec.entries["items"].items) else []
  {
  }

  /** A list is shown value by value, a stage list with its values normalized. */
  lemma ShownListExactly(spec: Json, repr: Repr)
    requires KindOf(spec) == ArrayKind || KindOf(spec) == StageKind
    ensures
      && InflatedValue(spec, repr).List? && |InflatedValue(spec, repr).items| == |ItemsOf(spec)|
      && forall i :: 0 <= i < |ItemsOf(spec)| ==>
        var item := ItemsOf(spec)[i].entries;
        var value := if "value" in item then item["value"] else Null;
        InflatedValue(spec, repr).items[i] == if KindOf(spec) == ArrayKind then value else Str(NormalizeStage(value, repr))
  {
  }

  /** A plan is shown as the automatic one if it says so in one of five ways, and else as its text. */
  lemma ShownPlanExactly(spec: Json, repr: Repr)
    requires KindOf(spec) == PlanKind
    ensures
      var value := if "value" in spec.entries then spec.entries["value"] else Str("__framework_runtime__:infrast_plan_index");
      && InflatedValue(spec, repr) == Str(
           if || value == Null || value == Str("") || value == Num(-1) || value == Str("__auto__")
              || value == Str("__framework_runtime__:infrast_plan_index")
           then "__framework_runtime__:infrast_plan_index" else TextOf(value, repr))
      && (PlanCrashes(spec) <==> value.List? || value.Obj?)
  {
  }

  /** Opening a task for editing fails exactly if a plan spec holds a list or an object as its value. */
  lemma InflateFailsExactly(taskType: string, params: Dict, metadata: Dict, repr: Repr)
    ensures Inflate(taskType, params, metadata, repr).None? <==>
      exists key ::
        && key in ManagedOf(Ensured(taskType, params, metadata, repr))
        && var spec := ManagedOf(Ensured(taskType, params, metadata, repr))[key];
           && Says(spec, "type", "runtime") && Says(spec, "handler", "infrast_plan_index") && "value" in spec.entries
           && (spec.entries["value"].List? || spec.entries["value"].Obj?)
  {
    var managed := ManagedOf(Ensured(taskType, params, metadata, repr));
    forall key | key in managed ensures PlanCrashes(managed[key]) <==>
      && Says(managed[key], "type", "runtime") && Says(managed[key], "handler", "infrast_plan_index")
      && "value" in managed[key].entries && (managed[key].entries["value"].List? || managed[key].entries["value"].Obj?)
    {
      KindExactly(managed[key]);
    }
  }

  /** What the editor shows under every key: the managed value of a known kind of spec, and else the parameter. */
  lemma ShownExactly(params: Dict, managed: Dict, repr: Repr, key: string)
    ensures
      var shown := InflatedParams(params, managed, repr);
      if key in managed && KindOf(managed[key]) != OtherKind then
        key in shown && shown[key] == InflatedValue(managed[key], repr)
      else
        (key in shown <==> key in params) && (key in params ==> shown[key] == params[key])
  {
  }

  /** What the task file holds under every key: the placeholder of a known kind of spec, and else the parameter. */
  lemma StoredExactly(params: Dict, managed: Dict, key: string)
    ensures
      var stored := ProjectedParams(params, managed);
      if key in managed && KindOf(managed[key]) != OtherKind then
        key in stored && stored[key] == PlaceholderFor(key, managed[key])
      else
        (key in stored <==> key in params) && (key in params ==> stored[key] == params[key])
  {
  }

  lemma StoredTextExactly(key: string, spec: Json)
    requires KindOf(spec) != OtherKind
    ensures Says(spec, "type", "array") ==> PlaceholderFor(key, spec) == Str("__framework_runtime__:array:" + key)
    ensures Says(spec, "handler", "fight_stage") && !Says(spec, "type", "array") ==>
      PlaceholderFor(key, spec) == Str("__framework_runtime__:fight_stage")
    ensures Says(spec, "handler", "infrast_plan_index") && !Says(spec, "type", "array") ==>
      PlaceholderFor(key, spec) == Str("__framework_runtime__:infrast_plan_index")
  {
    PlaceholderTexts();
    KindExactly(spec);
  }

  lemma PlaceholderTexts()
    ensures MANAGED_ARRAY_PLACEHOLDER_PREFIX == "__framework_runtime__:array:"
    ensures FIGHT_STAGE_PLACEHOLDER == "__framework_runtime__:fight_stage"
    ensures INFRAST_PLAN_INDEX_PLACEHOLDER == "__framework_runtime__:infrast_plan_index"
  {
  }
}
