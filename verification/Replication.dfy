/** Replication over the stream: the client's state after the emitted events is the server's last snapshot. */
module Replication {
  import opened Wrappers
  import opened LiveState
  import opened Sse
  import opened RunStream
  import Lifecycle
  import LifecycleInvariant
  import LifecycleTheorems

  predicate Synced(client: RunState, server: Snapshot) {
    client.fields == server.run && client.run == Some(server.run) && client.retries == Some(server.retries)
  }

  /** A snapshot names its run, unless it is exactly the idle one. */
  predicate Named(snapshot: Snapshot) {
    snapshot == IDLE || ("id" in snapshot.run && "status" in snapshot.run && snapshot.run["status"] != Text("idle"))
  }

  /** Retries carry the id of their run, and an idle snapshot has none. */
  predicate WellFormed(snapshot: Snapshot) {
    && Named(snapshot)
    && (snapshot != IDLE ==> forall i :: 0 <= i < |snapshot.retries| ==> snapshot.run["id"] == Text(snapshot.retries[i].runId))
  }

  predicate SameRun(left: Snapshot, right: Snapshot)
    requires Named(left) && Named(right)
  {
    if left == IDLE || right == IDLE then false else left.run["id"] == right.run["id"]
  }

  lemma ResetSyncs(client: RunState, server: Snapshot, version: int)
    requires Named(server)
    ensures Synced(ApplyEvent(client, ResetEvent(server, version)), server)
  {
  }

  /** The list patch rebuilds the current list on the previous one, and only its tail on an empty base. */
  lemma PatchedList(previous: seq<Retry>, current: seq<Retry>)
    ensures ApplyListPatch(previous, SuffixPatch(previous, current)) == current
    ensures ApplyListPatch([], SuffixPatch(previous, current)) == current[CommonPrefix(previous, current)..]
  {
  }

  /** What a patch leaves on a client whose run is, or becomes, a run that is not idle. */
  lemma PatchedState(client: RunState, run: Option<RunRecord>, retries: Option<ListPatch>, version: int)
    requires client.run == Some(client.fields)
    requires !IsIdle(if run.Some? then run.value else client.fields)
    ensures
      var record := if run.Some? then run.value else client.fields;
      var base := if ShouldResetBase(client, run) then [] else RetriesOf(client);
      ApplyPatch(client, run, retries, version) == RunState(record, Some(record), Some(ApplyListPatch(base, retries)), Some(version))
  {
  }

  /** Without any assumption on the retries, a patch carries the client over exactly when the client keeps
      its base or the lists share no prefix for the reset base to lose. */
  lemma PatchRestoresExactly(client: RunState, previous: Snapshot, current: Snapshot, version: int)
    requires Synced(client, previous) && Named(previous) && Named(current) && previous != current
    ensures
      var patch := StatePatch(previous, current, version);
      var reset := current.run != previous.run && !SameRun(previous, current);
      && patch.Some?
      && (Synced(ApplyEvent(client, patch.value), current) <==>
            current == IDLE || !reset || CommonPrefix(previous.retries, current.retries) == 0)
  {
    var run := if current.run != previous.run then Some(current.run) else None;
    var n := CommonPrefix(previous.retries, current.retries);
    PatchedList(previous.retries, current.retries);
    if current != IDLE {
      PatchedState(client, run, SuffixPatch(previous.retries, current.retries), version);
      assert |current.retries[n..]| == |current.retries| - n;
      assert n == 0 ==> current.retries[n..] == current.retries;
    }
  }

  /** For well-formed snapshots every emitted patch carries the client to the current snapshot,
      across run changes and returns to idle; no patch is emitted exactly when nothing changed. */
  lemma PatchRestores(client: RunState, previous: Snapshot, current: Snapshot, version: int)
    requires Synced(client, previous) && WellFormed(previous) && WellFormed(current)
    ensures StatePatch(previous, current, version).None? <==> previous == current
    ensures StatePatch(previous, current, version).Some? ==>
      var after := ApplyEvent(client, StatePatch(previous, current, version).value);
      Synced(after, current) && after.streamVersion == Some(version)
  {
    if previous == current {
      SuffixPatchIsShortest(previous.retries, current.retries, 0, current.retries);
    } else {
      PatchRestoresExactly(client, previous, current, version);
      ResetSharesNothing(previous, current);
    }
  }

  /** A reset starts from lists without a common prefix: retries of one run are not those of another. */
  lemma ResetSharesNothing(previous: Snapshot, current: Snapshot)
    requires WellFormed(previous) && WellFormed(current)
    ensures current == IDLE || SameRun(previous, current) || CommonPrefix(previous.retries, current.retries) == 0
  {
    SamePrefix(previous.retries, current.retries, CommonPrefix(previous.retries, current.retries));
  }

  /** The events one open stream emits after its first snapshot. */
  function Emitted(previous: Snapshot, snapshots: seq<(Snapshot, int)>): seq<Event>
    decreases |snapshots|
  {
    if snapshots == [] then []
    else
      var patch := StatePatch(previous, snapshots[0].0, snapshots[0].1);
      (if patch.Some? then [patch.value] else []) + Emitted(snapshots[0].0, snapshots[1..])
  }

  function Last(first: Snapshot, snapshots: seq<(Snapshot, int)>): Snapshot {
    if snapshots == [] then first else snapshots[|snapshots| - 1].0
  }

  /** Folding everything a stream emits through a client that holds its first snapshot gives its last one. */
  lemma {:induction false} StreamReplicates(client: RunState, first: Snapshot, snapshots: seq<(Snapshot, int)>)
    requires Synced(client, first) && WellFormed(first)
    requires forall i :: 0 <= i < |snapshots| ==> WellFormed(snapshots[i].0)
    ensures Synced(ApplyEvents(client, Emitted(first, snapshots)), Last(first, snapshots))
    decreases |snapshots|
  {
    if snapshots != [] {
      var (current, version) := snapshots[0];
      var patch := StatePatch(first, current, version);
      PatchRestores(client, first, current, version);
      var rest := Emitted(current, snapshots[1..]);
      if patch.Some? {
        assert ([patch.value] + rest)[1..] == rest;
        StreamReplicates(ApplyEvent(client, patch.value), current, snapshots[1..]);
      } else {
        assert [] + rest == rest;
        StreamReplicates(client, current, snapshots[1..]);
      }
    }
  }

  // ---------------------------------------------------------------------------
  // Resuming with a cursor
  // ---------------------------------------------------------------------------

  /** The retries a resuming client ends up with. */
  function Resumed(held: Snapshot, current: Snapshot): seq<Retry>
    requires Named(held) && Named(current)
  {
    var start := CursorStart(current.retries, |held.retries|);
    var base := if SameRun(held, current) then held.retries else [];
    if start < |current.retries| then (if start < |base| then base[..start] else base) + current.retries[start..]
    else base
  }

  /** A cursor patch always brings the run itself up to date; the retries follow exactly when cutting the
      held list gives the server's list. */
  lemma CursorRestoresExactly(client: RunState, held: Snapshot, current: Snapshot, version: int)
    requires Synced(client, held) && Named(held) && Named(current)
    ensures
      var after := ApplyEvent(client, CursorPatch(current, |held.retries|, version));
      && after.run == Some(current.run)
      && (Synced(after, current) <==> current == IDLE || Resumed(held, current) == current.retries)
  {
    var start := CursorStart(current.retries, |held.retries|);
    if current != IDLE {
      assert ShouldResetBase(client, Some(current.run)) <==> !SameRun(held, current);
      var patch := if start < |current.retries| then Some(ListPatch(start, current.retries[start..])) else None;
      PatchedState(client, Some(current.run), patch, version);
      var base := if SameRun(held, current) then held.retries else [];
      assert base[..|base|] == base;
      assert ApplyListPatch(base, patch) == Resumed(held, current);
    }
  }

  /** Resuming on the same run, with the held history a past of the current one, works exactly when the held
      last retry is still what it was, or is the last one still and not sealed yet. */
  lemma ResumeSameRun(client: RunState, held: Snapshot, current: Snapshot, version: int)
    requires Synced(client, held) && Named(held) && Named(current) && SameRun(held, current)
    requires Extends(held.retries, current.retries)
    ensures
      var n := |held.retries|;
      var after := ApplyEvent(client, CursorPatch(current, n, version));
      Synced(after, current) <==>
        n == 0 || held.retries[n - 1] == current.retries[n - 1]
        || (n == |current.retries| && !current.retries[n - 1].closed)
  {
    CursorRestoresExactly(client, held, current, version);
    ResumedList(held, current);
  }

  lemma ResumedList(held: Snapshot, current: Snapshot)
    requires Named(held) && Named(current) && SameRun(held, current) && Extends(held.retries, current.retries)
    ensures
      var n := |held.retries|;
      Resumed(held, current) == current.retries <==>
        n == 0 || held.retries[n - 1] == current.retries[n - 1]
        || (n == |current.retries| && !current.retries[n - 1].closed)
  {
  }

  /** A client whose last retry was sealed when it lost the stream always resumes exactly. */
  lemma ResumeAfterSealedRetry(client: RunState, held: Snapshot, current: Snapshot, version: int)
    requires Synced(client, held) && Named(held) && Named(current) && SameRun(held, current)
    requires Extends(held.retries, current.retries)
    requires held.retries != [] && held.retries[|held.retries| - 1].closed
    ensures Synced(ApplyEvent(client, CursorPatch(current, |held.retries|, version)), current)
  {
    ResumeSameRun(client, held, current, version);
  }

  /** Resuming after the run has changed works exactly when the cut falls on 0 or there is nothing to send. */
  lemma ResumeOtherRun(client: RunState, held: Snapshot, current: Snapshot, version: int)
    requires Synced(client, held) && Named(held) && Named(current) && !SameRun(held, current) && current != IDLE
    ensures
      Synced(ApplyEvent(client, CursorPatch(current, |held.retries|, version)), current) <==>
        CursorStart(current.retries, |held.retries|) == 0 || current.retries == []
  {
    CursorRestoresExactly(client, held, current, version);
  }

  function ExampleRun(id: string): RunRecord {
    map["id" := Text(id), "status" := Text("running")]
  }

  /** A retry sealed while the client was away stays open on the client. */
  lemma ResumeMissesSealing(version: int)
    ensures
      var open := Retry(RetryId("r", 1), "r", 1, Running, [], false);
      var held := Snapshot(ExampleRun("r"), [open]);
      var current := Snapshot(ExampleRun("r"), [open.(status := Succeeded, closed := true)]);
      var client := RunState(held.run, Some(held.run), Some(held.retries), Some(version));
      && Extends(held.retries, current.retries) && Synced(client, held)
      && !Synced(ApplyEvent(client, CursorPatch(current, 1, version)), current)
  {
  }

  /** The first retry of a run started while the client was away is lost. */
  lemma ResumeLosesRetryOfOtherRun(version: int)
    ensures
      var held := Snapshot(ExampleRun("r"), [Retry(RetryId("r", 1), "r", 1, Succeeded, [], true)]);
      var first := Retry(RetryId("s", 1), "s", 1, Failed, [], true);
      var current := Snapshot(ExampleRun("s"), [first, Retry(RetryId("s", 2), "s", 2, Running, [], false)]);
      var client := RunState(held.run, Some(held.run), Some(held.retries), Some(version));
      Synced(client, held) && !Synced(ApplyEvent(client, CursorPatch(current, 1, version)), current)
  {
  }

  // ---------------------------------------------------------------------------
  // The snapshots of the run system
  // ---------------------------------------------------------------------------

  function StatusText(status: Status): (text: string)
    ensures text != "idle"
  {
    match status
    case Running => "running"
    case Stopping => "stopping"
    case Succeeded => "succeeded"
    case Failed => "failed"
    case SoftFailed => "soft_failed"
    case Stopped => "stopped"
    case Skipped => "skipped"
  }

  function RunDict(run: Run): RunRecord {
    map["id" := Text(run.id),
        "status" := Text(StatusText(run.status)),
        "retry_count" := Number(|run.retries|),
        "stop_requested" := Flag(run.stopRequested),
        "force_stop_requested" := Flag(run.forceRequested)]
  }

  /** What the answer says about a run: its id, its status in words, how many retries it has and its two flags. */
  lemma RunDictExactly(run: Run)
    ensures RunDict(run).Keys == {"id", "status", "retry_count", "stop_requested", "force_stop_requested"}
    ensures RunDict(run)["id"] == Text(run.id) && RunDict(run)["retry_count"] == Number(|run.retries|)
    ensures RunDict(run)["stop_requested"] == Flag(run.stopRequested)
    ensures RunDict(run)["force_stop_requested"] == Flag(run.forceRequested)
    ensures RunDict(run)["status"] == Text("running") <==> run.status == Running
    ensures RunDict(run)["status"] == Text("stopping") <==> run.status == Stopping
    ensures RunDict(run)["status"] == Text("succeeded") <==> run.status == Succeeded
    ensures RunDict(run)["status"] == Text("failed") <==> run.status == Failed
    ensures RunDict(run)["status"] == Text("soft_failed") <==> run.status == SoftFailed
    ensures RunDict(run)["status"] == Text("stopped") <==> run.status == Stopped
    ensures RunDict(run)["status"] == Text("skipped") <==> run.status == Skipped
  {
  }

  function SnapshotOf(run: Run): Snapshot {
    Snapshot(RunDict(run), run.retries)
  }

  /** What a manager answers about its current run. */
  function CurrentResponse(s: Lifecycle.State, manager: Lifecycle.ManagerId): Snapshot
    requires manager in s.managers
  {
    var m := s.managers[manager];
    if m.current.Some? && m.current.value in m.registered && m.current.value in s.threads
    then SnapshotOf(s.threads[m.current.value].live)
    else IDLE
  }

  lemma CurrentResponseWellFormed(s: Lifecycle.State, manager: Lifecycle.ManagerId)
    requires LifecycleInvariant.Inv(s) && manager in s.managers
    ensures WellFormed(CurrentResponse(s, manager))
  {
    var m := s.managers[manager];
    if m.current.Some? && m.current.value in s.threads {
      assert LifecycleInvariant.ThreadOk(m.current.value, s.threads[m.current.value]);
    }
  }

  /** The snapshots a stream takes after each stretch of an execution. */
  ghost function Sampled(s: Lifecycle.State, manager: Lifecycle.ManagerId, stretches: seq<seq<Lifecycle.Step>>): seq<(Snapshot, int)>
    requires manager in s.managers
    decreases |stretches|
  {
    if stretches == [] then []
    else
      var next := Lifecycle.Execute(s, stretches[0]);
      if manager !in next.managers then []
      else [(CurrentResponse(next, manager), |stretches|)] + Sampled(next, manager, stretches[1..])
  }

  lemma {:induction false} SampledWellFormed(s: Lifecycle.State, manager: Lifecycle.ManagerId, stretches: seq<seq<Lifecycle.Step>>)
    requires LifecycleInvariant.Inv(s) && manager in s.managers
    ensures forall i :: 0 <= i < |Sampled(s, manager, stretches)| ==> WellFormed(Sampled(s, manager, stretches)[i].0)
    decreases |stretches|
  {
    if stretches != [] {
      var next := Lifecycle.Execute(s, stretches[0]);
      LifecycleInvariant.ExecutionInv(s, stretches[0]);
      if manager in next.managers {
        CurrentResponseWellFormed(next, manager);
        SampledWellFormed(next, manager, stretches[1..]);
      }
    }
  }

  /** Whatever the runs of a manager do between the samples, the client ends with the last sample. */
  lemma ManagerStreamReplicates(s: Lifecycle.State, managers: set<Lifecycle.ManagerId>, steps: seq<Lifecycle.Step>,
                                manager: Lifecycle.ManagerId, stretches: seq<seq<Lifecycle.Step>>, client: RunState, version: int)
    requires LifecycleTheorems.Reachable(s, managers, steps) && manager in s.managers
    ensures
      var first := CurrentResponse(s, manager);
      var snapshots := Sampled(s, manager, stretches);
      Synced(ApplyEvents(client, [ResetEvent(first, version)] + Emitted(first, snapshots)), Last(first, snapshots))
  {
    LifecycleTheorems.ReachableInv(s, managers, steps);
    var first := CurrentResponse(s, manager);
    var snapshots := Sampled(s, manager, stretches);
    CurrentResponseWellFormed(s, manager);
    SampledWellFormed(s, manager, stretches);
    ResetSyncs(client, first, version);
    var events := [ResetEvent(first, version)] + Emitted(first, snapshots);
    assert events[1..] == Emitted(first, snapshots);
    StreamReplicates(ApplyEvent(client, events[0]), first, snapshots);
  }

  /** A client that lost the stream of a run ends with the run's current state, whatever the run did meanwhile, if the
      last retry it held was sealed. */
  lemma RunStreamResumes(managers: set<Lifecycle.ManagerId>, before: seq<Lifecycle.Step>, after: seq<Lifecycle.Step>,
                         id: Lifecycle.RunId, client: RunState, version: int)
    requires id in Lifecycle.Execute(Lifecycle.Initial(managers), before).threads
    requires id in Lifecycle.Execute(Lifecycle.Initial(managers), before + after).threads
    requires
      var held := Lifecycle.Execute(Lifecycle.Initial(managers), before).threads[id].live;
      Synced(client, SnapshotOf(held)) && held.retries != [] && held.retries[|held.retries| - 1].closed
    ensures
      var held := Lifecycle.Execute(Lifecycle.Initial(managers), before).threads[id].live;
      var current := Lifecycle.Execute(Lifecycle.Initial(managers), before + after).threads[id].live;
      Synced(ApplyEvent(client, CursorPatch(SnapshotOf(current), |held.retries|, version)), SnapshotOf(current))
  {
    LifecycleTheorems.RunOnlyAdvances(managers, before, after, id);
    var held := Lifecycle.Execute(Lifecycle.Initial(managers), before).threads[id].live;
    var current := Lifecycle.Execute(Lifecycle.Initial(managers), before + after).threads[id].live;
    ResumeAfterSealedRetry(client, SnapshotOf(held), SnapshotOf(current), version);
  }
}
