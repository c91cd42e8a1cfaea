/** The run manager: its lock sections over mutable runs, each proved against the step system. */
module Manager {
  import opened Wrappers
  import opened LiveState
  import opened LiveObjects
  import Lifecycle

  datatype StartOutcome = ShuttingDown | Conflict(current: string) | NotCreated | Started

  class GenericRunManager {
    var runs: map<string, LiveRun>
    var plans: set<string>
    var current: Option<string>
    var closing: bool
    var version: nat

    constructor ()
      ensures Valid() && View() == Lifecycle.Manager({}, None, false)
    {
      runs, plans, current, closing, version := map[], {}, None, false, 0;
    }

    ghost predicate Valid()
      reads this, runs.Values
    {
      && (forall id :: id in runs ==> runs[id].id == id && runs[id].Valid())
      && (forall id :: id in runs && Active(runs[id].status) ==> id in plans)
    }

    function View(): Lifecycle.Manager
      reads this
    {
      Lifecycle.Manager(runs.Keys, current, closing)
    }

    ghost function ActiveIds(): set<string>
      reads this, runs.Values
    {
      set id | id in runs && Active(runs[id].status)
    }

    /** Keeps the active runs; `current` survives only if it still names one of them or an unknown run. */
    method DiscardTerminalRunsLocked()
      requires Valid()
      modifies this
      ensures Valid() && View() == Lifecycle.WithoutTerminal(old(View()), old(ActiveIds()))
      ensures runs == map id | id in old(runs) && id in old(ActiveIds()) :: old(runs)[id]
      ensures version == old(version)
    {
      var terminal := set id | id in runs && runs[id].status !in {Running, Stopping};
      var pending := terminal;
      while pending != {}
        invariant pending <= terminal
        invariant runs == map id | id in old(runs) && id !in terminal - pending :: old(runs)[id]
        invariant plans == old(plans) - (terminal - pending)
        invariant current == old(current) && closing == old(closing) && version == old(version)
        decreases pending
      {
        var id :| id in pending;
        runs := runs - {id};
        plans := plans - {id};
        pending := pending - {id};
      }
      if current.Some? && current.value in terminal {
        current := None;
      }
    }

    /** The lock section of `start`; `created` says whether the durable record could be written. */
    method StartLocked(run: LiveRun, created: bool) returns (outcome: StartOutcome)
      requires Valid() && run.Valid() && run.id !in runs && run.View() == Run(run.id, Running, false, false, [])
      modifies this
      ensures Valid()
      ensures old(closing) ==> outcome == ShuttingDown && View() == old(View()) && runs == old(runs)
      ensures !old(closing) ==>
        var m := Lifecycle.WithoutTerminal(old(View()), old(ActiveIds()));
        var busy := m.current.Some? && m.current.value in m.registered;
        && (busy ==> outcome == Conflict(m.current.value))
        && (!busy ==> outcome == if created then Started else NotCreated)
        && (outcome.Started? ==>
             && View() == Lifecycle.Manager(m.registered + {run.id}, Some(run.id), m.closing)
             && runs[run.id] == run && run.id in plans && version == old(version) + 1)
        && (!outcome.Started? ==> View() == m && version == old(version))
    {
      if closing { return ShuttingDown; }
      DiscardTerminalRunsLocked();
      if current.Some? && current.value in runs && runs[current.value].status in {Running, Stopping} {
        return Conflict(current.value);
      }
      if !created { return NotCreated; }
      runs := runs[run.id := run];
      plans := plans + {run.id};
      current := Some(run.id);
      version := version + 1;
      return Started;
    }

    /** The lock section of `stop` and `force_stop` on a run this manager knows. */
    method StopLocked(id: string, force: bool, text: string)
      requires Valid() && id in runs
      modifies this`version, runs[id], runs[id].retries
      ensures Valid() && runs == old(runs) && View() == old(View())
      ensures runs[id].View() == Lifecycle.StopRequested(old(runs[id].View()), true, force, text)
      ensures forall other :: other in runs && other != id ==> runs[other].View() == old(runs[other].View())
      ensures version == old(version) + if old(Active(runs[id].status)) then 1 else 0
    {
      var run := runs[id];
      if run.status in {Running, Stopping} {
        run.AnyStopSection(force, text);
        version := version + 1;
      }
    }

    /** The publishing lock section of `_finish_run`: false when the run is already terminal. */
    method PublishLocked(id: string, status: TerminalStatus) returns (published: bool)
      requires Valid() && id in runs
      modifies this`version, this`plans, runs[id]
      ensures Valid() && runs == old(runs) && View() == old(View())
      ensures published == old(Active(runs[id].status))
      ensures runs[id].View() == if published then Finish(old(runs[id].View()), status) else old(runs[id].View())
      ensures forall other :: other in runs && other != id ==> runs[other].View() == old(runs[other].View())
      ensures plans == if published then old(plans) - {id} else old(plans)
    {
      var run := runs[id];
      if run.status !in {Running, Stopping} { return false; }
      run.Finish(status);
      plans := plans - {id};
      version := version + 1;
      return true;
    }

    /** Forgets a terminal run; refuses for an active one and ignores an unknown one. */
    method DiscardTerminal(id: string) returns (conflict: bool)
      requires Valid()
      modifies this
      ensures Valid()
      ensures conflict <==> id in old(ActiveIds())
      ensures conflict ==> View() == old(View()) && runs == old(runs)
      ensures !conflict ==>
        var known := old(id in runs && current == Some(id));
        View() == Lifecycle.Manager(old(runs.Keys) - {id}, if known then None else old(current), old(closing))
    {
      if id !in runs { return false; }
      if runs[id].status in {Running, Stopping} { return true; }
      runs := runs - {id};
      plans := plans - {id};
      if current == Some(id) {
        current := None;
      }
      version := version + 1;
      return false;
    }

    method BeginShutdown()
      requires Valid()
      modifies this`closing, this`version
      ensures Valid() && View() == old(View()).(closing := true) && version == old(version) + 1
    {
      closing := true;
      version := version + 1;
    }
  }
}
