/** The mutable run and retry objects, each method proved against the value functions of LiveState. */
module LiveObjects {
  import opened Wrappers
  import opened LiveState

  class LiveRetry {
    const id: string
    const runId: string
    const index: nat
    var status: Status
    var log: seq<string>
    var closed: bool

    constructor (id: string, runId: string, index: nat)
      ensures View() == Retry(id, runId, index, Running, [], false)
    {
      this.id, this.runId, this.index := id, runId, index;
      status, log, closed := Running, [], false;
    }

    function View(): Retry
      reads this
    {
      Retry(id, runId, index, status, log, closed)
    }

    method Append(text: string)
      modifies this`log
      ensures View() == old(View()).(log := old(log) + [text])
    {
      log := log + [text];
    }

    method Seal(status: Status)
      modifies this`status, this`closed
      ensures View() == old(View()).(status := status, closed := true)
    {
      this.status := status;
      closed := true;
    }
  }

  class LiveRun {
    const id: string
    var status: Status
    var stopRequested: bool
    var forceRequested: bool
    var retries: seq<LiveRetry>

    constructor (id: string)
      ensures Valid() && View() == Run(id, Running, false, false, [])
    {
      this.id := id;
      status, stopRequested, forceRequested, retries := Running, false, false, [];
    }

    ghost predicate Valid()
      reads this
    {
      && (forall i, j :: 0 <= i < j < |retries| ==> retries[i] != retries[j])
      && (forall i :: 0 <= i < |retries| ==> retries[i].runId == id)
    }

    ghost function View(): Run
      reads this, retries
    {
      Run(id, status, stopRequested, forceRequested, seq(|retries|, i requires 0 <= i < |retries| reads this, retries => retries[i].View()))
    }

    method CurrentRetry() returns (retry: LiveRetry?)
      requires Valid()
      ensures retry == null <==> !HasOpenRetry(View())
      ensures retry != null ==> |retries| > 0 && retry == retries[|retries| - 1]
    {
      if |retries| > 0 && !retries[|retries| - 1].closed {
        return retries[|retries| - 1];
      }
      return null;
    }

    method BeginRetry() returns (retry: LiveRetry)
      requires Valid()
      modifies this`retries
      ensures Valid() && View() == LiveState.BeginRetry(old(View()))
      ensures fresh(retry) && retries == old(retries) + [retry]
    {
      var number := |retries| + 1;
      retry := new LiveRetry(RetryId(id, number), id, number);
      retries := retries + [retry];
    }

    method RequestStop()
      requires Valid()
      modifies this`status, this`stopRequested
      ensures Valid() && View() == LiveState.RequestStop(old(View()))
    {
      if status !in {Running, Stopping} { return; }
      stopRequested := true;
      if status == Running {
        status := Stopping;
      }
    }

    method RequestForceStop()
      requires Valid()
      modifies this`status, this`stopRequested, this`forceRequested
      ensures Valid() && View() == LiveState.RequestForceStop(old(View()))
    {
      if status !in {Running, Stopping} { return; }
      stopRequested := true;
      forceRequested := true;
      status := Stopping;
    }

    method Finish(status: TerminalStatus)
      requires Valid()
      modifies this`status
      ensures Valid() && View() == LiveState.Finish(old(View()), status)
    {
      this.status := status;
    }

    method AppendEvent(text: string)
      requires Valid()
      modifies this`retries, retries
      ensures Valid() && View() == LiveState.AppendEvent(old(View()), text)
      ensures fresh(set r | r in retries && r !in old(retries))
    {
      var retry := CurrentRetry();
      if retry == null {
        retry := BeginRetry();
      }
      retry.Append(text);
    }

    method SealRetry(position: nat, status: Status)
      requires Valid() && position < |retries|
      modifies retries[position]
      ensures Valid() && View() == LiveState.SealRetry(old(View()), position, status)
    {
      if retries[position].closed { return; }
      retries[position].Seal(status);
    }

    method StopSection(text: string)
      requires Valid()
      modifies this, retries
      ensures Valid() && View() == LiveState.StopSection(old(View()), text)
      ensures fresh(set r | r in retries && r !in old(retries))
    {
      if status !in {Running, Stopping} { return; }
      if !stopRequested {
        AppendEvent(text);
      }
      RequestStop();
    }

    method ForceStopSection(text: string)
      requires Valid()
      modifies this, retries
      ensures Valid() && View() == LiveState.ForceStopSection(old(View()), text)
      ensures fresh(set r | r in retries && r !in old(retries))
    {
      if status !in {Running, Stopping} { return; }
      if !forceRequested {
        AppendEvent(text);
      }
      RequestForceStop();
    }

    method AnyStopSection(force: bool, text: string)
      requires Valid()
      modifies this, retries
      ensures Valid() && View() == if force then LiveState.ForceStopSection(old(View()), text) else LiveState.StopSection(old(View()), text)
      ensures fresh(set r | r in retries && r !in old(retries))
    {
      if force {
        ForceStopSection(text);
      } else {
        StopSection(text);
      }
    }
  }
}
