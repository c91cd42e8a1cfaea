/** The server side of the live state stream: snapshots, resets, suffix patches and cursor patches. */
module Sse {
  import opened Wrappers
  import opened LiveState

  datatype Value = Text(text: string) | Number(number: int) | Flag(flag: bool) | Null

  type RunRecord = map<string, Value>

  datatype Snapshot = Snapshot(run: RunRecord, retries: seq<Retry>)

  datatype ListPatch = ListPatch(replaceFrom: nat, items: seq<Retry>)

  datatype Event =
    | ResetEvent(state: Snapshot, version: int)
    | PatchEvent(run: Option<RunRecord>, retries: Option<ListPatch>, version: int)

  const IDLE_RUN: RunRecord := map["status" := Text("idle")]
  const IDLE := Snapshot(IDLE_RUN, [])

  /** The length of the longest common prefix. */
  function CommonPrefix(previous: seq<Retry>, current: seq<Retry>): (n: nat)
    ensures n <= |previous| && n <= |current| && previous[..n] == current[..n]
    ensures n < |previous| && n < |current| ==> previous[n] != current[n]
  {
    if previous == [] || current == [] || previous[0] != current[0] then 0
    else
      var n := CommonPrefix(previous[1..], current[1..]);
      assert previous[..n + 1] == [previous[0]] + previous[1..][..n];
      assert current[..n + 1] == [current[0]] + current[1..][..n];
      n + 1
  }

  function SuffixPatch(previous: seq<Retry>, current: seq<Retry>): Option<ListPatch> {
    var n := CommonPrefix(previous, current);
    if n == |previous| && n == |current| then None else Some(ListPatch(n, current[n..]))
  }

  function StatePatch(previous: Snapshot, current: Snapshot, version: int): Option<Event> {
    var run := if current.run != previous.run then Some(current.run) else None;
    var retries := SuffixPatch(previous.retries, current.retries);
    if run.None? && retries.None? then None else Some(PatchEvent(run, retries, version))
  }

  /** Where a resuming client's list is cut: an unfinished last retry is sent again. */
  function CursorStart(items: seq<Retry>, cursor: nat): (start: nat)
    ensures start <= |items|
  {
    if cursor > |items| then 0
    else if cursor == |items| && items != [] && !items[|items| - 1].closed then cursor - 1
    else cursor
  }

  function CursorPatch(current: Snapshot, cursor: nat, version: int): Event {
    var start := CursorStart(current.retries, cursor);
    PatchEvent(
      Some(current.run),
      if start < |current.retries| then Some(ListPatch(start, current.retries[start..])) else None,
      version)
  }

  lemma SamePrefix(left: seq<Retry>, right: seq<Retry>, k: nat)
    requires k <= |left| && k <= |right| && left[..k] == right[..k]
    ensures forall i :: 0 <= i < k ==> left[i] == right[i]
  {
  }

  lemma CommonPrefixIsLongest(previous: seq<Retry>, current: seq<Retry>, k: nat)
    requires k <= |previous| && k <= |current| && previous[..k] == current[..k]
    ensures k <= CommonPrefix(previous, current)
  {
  }

  /** The patch is absent exactly for equal lists, rebuilds the current list, and no other cut of the
      previous list that rebuilds it needs fewer items. */
  lemma SuffixPatchIsShortest(previous: seq<Retry>, current: seq<Retry>, k: nat, items: seq<Retry>)
    requires k <= |previous| && previous[..k] + items == current
    ensures SuffixPatch(previous, current).None? <==> previous == current
    ensures SuffixPatch(previous, current).Some? ==>
      var patch := SuffixPatch(previous, current).value;
      && patch.replaceFrom <= |previous|
      && previous[..patch.replaceFrom] + patch.items == current
      && |patch.items| <= |items|
  {
  }

  method ListPatchOf(previous: seq<Retry>, current: seq<Retry>) returns (patch: Option<ListPatch>)
    ensures patch == SuffixPatch(previous, current)
  {
    var replaceFrom := 0;
    var limit := if |previous| < |current| then |previous| else |current|;
    while replaceFrom < limit && previous[replaceFrom] == current[replaceFrom]
      invariant 0 <= replaceFrom <= limit
      invariant previous[..replaceFrom] == current[..replaceFrom]
    {
      replaceFrom := replaceFrom + 1;
    }
    CommonPrefixIsLongest(previous, current, replaceFrom);
    SamePrefix(previous, current, CommonPrefix(previous, current));
    if replaceFrom == |previous| && replaceFrom == |current| {
      return None;
    }
    return Some(ListPatch(replaceFrom, current[replaceFrom..]));
  }
}
