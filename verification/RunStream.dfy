/** The client side of the live state stream: how an event turns one run state into the next. */
module RunStream {
  import opened Wrappers
  import opened LiveState
  import opened Sse

  /** The client's state: the run's fields spread flat, the nested run, and the retries. */
  datatype RunState = RunState(
    fields: RunRecord,
    run: Option<RunRecord>,
    retries: Option<seq<Retry>>,
    streamVersion: Option<int>)

  function IdleRunState(version: Option<int>): RunState {
    RunState(IDLE_RUN, Some(IDLE_RUN), Some([]), version)
  }

  function RetriesOf(state: RunState): seq<Retry> {
    if state.retries.Some? then state.retries.value else []
  }

  predicate IsIdle(run: RunRecord) {
    "status" in run && run["status"] == Text("idle")
  }

  function Normalize(state: RunState): RunState {
    var run := if state.run.Some? then state.run.value else state.fields;
    if IsIdle(run) then IdleRunState(state.streamVersion)
    else RunState(run, Some(run), Some(RetriesOf(state)), state.streamVersion)
  }

  predicate ShouldResetBase(current: RunState, incoming: Option<RunRecord>) {
    incoming.Some? &&
    (if IsIdle(incoming.value) then true
     else "id" in incoming.value && !("id" in current.fields && current.fields["id"] == incoming.value["id"]))
  }

  function ApplyListPatch(current: seq<Retry>, patch: Option<ListPatch>): seq<Retry> {
    if patch.None? then current
    else
      var cut := if patch.value.replaceFrom < |current| then patch.value.replaceFrom else |current|;
      current[..cut] + patch.value.items
  }

  function ApplyPatch(current: RunState, run: Option<RunRecord>, retries: Option<ListPatch>, version: int): RunState {
    var base := if ShouldResetBase(current, run) then IdleRunState(None) else current;
    Normalize(RunState(
      if run.Some? then base.fields + run.value else base.fields,
      if run.Some? then run else base.run,
      Some(ApplyListPatch(RetriesOf(base), retries)),
      Some(version)))
  }

  function ApplyEvent(current: RunState, event: Event): RunState {
    match event
    case ResetEvent(state, version) => Normalize(RunState(map[], Some(state.run), Some(state.retries), Some(version)))
    case PatchEvent(run, retries, version) => ApplyPatch(current, run, retries, version)
  }

  function ApplyEvents(current: RunState, events: seq<Event>): RunState
    decreases |events|
  {
    if events == [] then current else ApplyEvents(ApplyEvent(current, events[0]), events[1..])
  }
}
