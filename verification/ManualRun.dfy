/** A manual run: it retries exactly what has not succeeded yet, and succeeds exactly when all of it has. */
module ManualRun {
  import opened Wrappers
  import opened Policy
  import opened ScheduledRun

  datatype ManualProgress = ManualProgress(plan: seq<string>, succeeded: set<string>)

  datatype ManualRound = ManualRound(before: ManualProgress, outcome: Outcome, after: ManualProgress, decision: Decision)

  /** What the callback decides about a retry. */
  function EvaluateManual(selected: seq<string>, before: ManualProgress, outcome: Outcome, round: nat, maxRetries: nat)
    : (ManualProgress, Decision)
  {
    var statuses := Reported(before.plan, outcome);
    var succeeded := before.succeeded + Successes(statuses);
    var retryStatus := RetryStatusOf(outcome, statuses);
    var next := if retryStatus == RetryStopped then [] else NotDone(selected, succeeded + Successes(statuses));
    var willRetry := next != [] && round < maxRetries;
    var runStatus :=
      if retryStatus == RetryStopped then Some(FinalStopped)
      else if next == [] then Some(FinalSucceeded)
      else if !willRetry then Some(FinalFailed)
      else None;
    (ManualProgress(next, succeeded), Decision(retryStatus, runStatus, willRetry, next))
  }

  /** What becomes of a retry: the callback's decision, unless the manager overrules it. */
  function JudgedManual(selected: seq<string>, before: ManualProgress, outcome: Outcome, round: nat, maxRetries: nat)
    : (ManualProgress, Decision)
  {
    var (after, decision) := EvaluateManual(selected, before, outcome, round, maxRetries);
    (after, Overruling(decision, Overruled(outcome)))
  }

  function ManualRounds(selected: seq<string>, start: ManualProgress, outcomes: seq<Outcome>, round: nat, maxRetries: nat): seq<ManualRound>
    decreases |outcomes|
  {
    if outcomes == [] then []
    else
      var (after, decision) := JudgedManual(selected, start, outcomes[0], round, maxRetries);
      [ManualRound(start, outcomes[0], after, decision)] +
        if decision.continueRetry then ManualRounds(selected, after, outcomes[1..], round + 1, maxRetries) else []
  }

  function ManualRunOf(selected: seq<string>, outcomes: seq<Outcome>, maxRetries: nat): seq<ManualRound> {
    if selected == [] then [] else ManualRounds(selected, ManualProgress(selected, {}), outcomes, 1, maxRetries)
  }

  /** Round by round: each outcome is judged with its number and the progress so far, and there is a next round exactly if
      the decision goes on and there is another outcome. */
  lemma {:induction false} RoundsExactly(selected: seq<string>, start: ManualProgress, outcomes: seq<Outcome>, round: nat, maxRetries: nat, i: nat)
    ensures
      var rounds := ManualRounds(selected, start, outcomes, round, maxRetries);
      && |rounds| <= |outcomes| && (outcomes != [] ==> rounds != [] && rounds[0].before == start)
      && (i < |rounds| ==>
            && rounds[i].outcome == outcomes[i]
            && (rounds[i].after, rounds[i].decision) == JudgedManual(selected, rounds[i].before, outcomes[i], round + i, maxRetries)
            && (i + 1 < |rounds| <==> rounds[i].decision.continueRetry && i + 1 < |outcomes|)
            && (i + 1 < |rounds| ==> rounds[i + 1].before == rounds[i].after))
    decreases |outcomes|
  {
    if outcomes != [] {
      var (after, decision) := JudgedManual(selected, start, outcomes[0], round, maxRetries);
      var rounds := ManualRounds(selected, start, outcomes, round, maxRetries);
      var rest := if decision.continueRetry then ManualRounds(selected, after, outcomes[1..], round + 1, maxRetries) else [];
      assert rounds == [ManualRound(start, outcomes[0], after, decision)] + rest;
      if decision.continueRetry && i > 0 {
        RoundsExactly(selected, after, outcomes[1..], round + 1, maxRetries, i - 1);
        assert i < |rounds| ==> rounds[i] == rest[i - 1] && outcomes[i] == outcomes[1..][i - 1] && round + i == round + 1 + (i - 1);
      } else if decision.continueRetry {
        RoundsExactly(selected, after, outcomes[1..], round + 1, maxRetries, 0);
      }
    }
  }

  /** The tasks that succeeded in some of the first rounds. */
  function SucceededIn(rounds: seq<ManualRound>, upTo: nat): set<string>
    requires upTo <= |rounds|
  {
    if upTo == 0 then {}
    else SucceededIn(rounds, upTo - 1) + Successes(Reported(rounds[upTo - 1].before.plan, rounds[upTo - 1].outcome))
  }

  /** Each round goes on where the one before has ended, and accounts for its own successes. */
  predicate RoundOk(selected: seq<string>, r: ManualRound) {
    && r.after.succeeded == r.before.succeeded + Successes(Reported(r.before.plan, r.outcome))
    && (r.decision.retryStatus == RetryStopped <==> Overruled(r.outcome))
    && (Overruled(r.outcome) ==> r.decision.runStatus == Some(FinalStopped))
    && (!Overruled(r.outcome) ==> r.after.plan == NotDone(selected, r.after.succeeded))
    && (!Overruled(r.outcome) ==> (r.decision.runStatus == Some(FinalSucceeded) <==> r.after.plan == []))
  }

  predicate Chained(selected: seq<string>, rounds: seq<ManualRound>) {
    && (forall k :: 0 <= k < |rounds| ==> RoundOk(selected, rounds[k]))
    && (forall k :: 0 <= k < |rounds| - 1 ==>
         rounds[k + 1].before == rounds[k].after && rounds[k].decision.retryStatus != RetryStopped)
  }

  lemma EvaluateOk(selected: seq<string>, before: ManualProgress, outcome: Outcome, round: nat, maxRetries: nat)
    ensures
      var (after, decision) := JudgedManual(selected, before, outcome, round, maxRetries);
      RoundOk(selected, ManualRound(before, outcome, after, decision)) && (decision.continueRetry ==> decision.retryStatus != RetryStopped)
  {
  }

  lemma {:induction false} RoundsChain(selected: seq<string>, start: ManualProgress, outcomes: seq<Outcome>, round: nat, maxRetries: nat)
    ensures
      var rounds := ManualRounds(selected, start, outcomes, round, maxRetries);
      Chained(selected, rounds) && (outcomes != [] ==> rounds != [] && rounds[0].before == start)
    decreases |outcomes|
  {
    if outcomes != [] {
      var (after, decision) := JudgedManual(selected, start, outcomes[0], round, maxRetries);
      EvaluateOk(selected, start, outcomes[0], round, maxRetries);
      if decision.continueRetry {
        RoundsChain(selected, after, outcomes[1..], round + 1, maxRetries);
        ChainCons(selected, ManualRound(start, outcomes[0], after, decision), ManualRounds(selected, after, outcomes[1..], round + 1, maxRetries));
      }
    }
  }

  lemma ChainCons(selected: seq<string>, first: ManualRound, rest: seq<ManualRound>)
    requires RoundOk(selected, first) && Chained(selected, rest)
    requires rest != [] ==> rest[0].before == first.after && first.decision.retryStatus != RetryStopped
    ensures Chained(selected, [first] + rest)
  {
  }

  lemma {:induction false} ChainAt(selected: seq<string>, rounds: seq<ManualRound>, i: nat)
    requires Chained(selected, rounds) && i < |rounds|
    requires rounds[0].before == ManualProgress(NotDone(selected, {}), {})
    ensures rounds[i].before == ManualProgress(NotDone(selected, SucceededIn(rounds, i)), SucceededIn(rounds, i))
    ensures rounds[i].after.succeeded == SucceededIn(rounds, i + 1)
  {
    assert RoundOk(selected, rounds[i]);
    if i > 0 {
      ChainAt(selected, rounds, i - 1);
      assert RoundOk(selected, rounds[i - 1]) && rounds[i - 1 + 1].before == rounds[i - 1].after;
    }
  }

  lemma {:induction false} NotDoneNothing(selected: seq<string>)
    ensures NotDone(selected, {}) == selected
  {
    if selected != [] {
      assert selected == selected[..|selected| - 1] + [selected[|selected| - 1]];
      NotDoneNothing(selected[..|selected| - 1]);
    }
  }

  /** At every retry the plan is exactly the selected tasks that have not succeeded in an earlier one. */
  lemma ManualPlanIsUnfinished(selected: seq<string>, outcomes: seq<Outcome>, maxRetries: nat, i: nat)
    requires i < |ManualRunOf(selected, outcomes, maxRetries)|
    ensures
      var rounds := ManualRunOf(selected, outcomes, maxRetries);
      rounds[i].before.plan == NotDone(selected, SucceededIn(rounds, i))
  {
    NotDoneNothing(selected);
    RoundsChain(selected, ManualProgress(selected, {}), outcomes, 1, maxRetries);
    ChainAt(selected, ManualRunOf(selected, outcomes, maxRetries), i);
  }

  lemma NotDoneEmpty(selected: seq<string>, done: set<string>)
    ensures NotDone(selected, done) == [] <==> forall id :: id in selected ==> id in done
  {
  }

  /** A run ends stopped if the manager saw a stop in its last retry, and else succeeded exactly when every selected task
      succeeded in some retry. */
  lemma ManualSuccessIsComplete(selected: seq<string>, outcomes: seq<Outcome>, maxRetries: nat)
    requires selected != [] && outcomes != []
    ensures
      var rounds := ManualRunOf(selected, outcomes, maxRetries);
      rounds != [] &&
      var last := rounds[|rounds| - 1];
      if Overruled(last.outcome) then last.decision.runStatus == Some(FinalStopped)
      else last.decision.runStatus == Some(FinalSucceeded) <==> forall id :: id in selected ==> id in SucceededIn(rounds, |rounds|)
  {
    var rounds := ManualRunOf(selected, outcomes, maxRetries);
    NotDoneNothing(selected);
    RoundsChain(selected, ManualProgress(selected, {}), outcomes, 1, maxRetries);
    ChainAt(selected, rounds, |rounds| - 1);
    assert RoundOk(selected, rounds[|rounds| - 1]);
    NotDoneEmpty(selected, SucceededIn(rounds, |rounds|));
  }

  /** A manual run goes on only after a failed retry. */
  lemma GoesOnAfterFailure(selected: seq<string>, before: ManualProgress, outcome: Outcome, round: nat, maxRetries: nat)
    requires before.plan == NotDone(selected, before.succeeded)
    ensures
      var (after, decision) := JudgedManual(selected, before, outcome, round, maxRetries);
      EndsOrGoesOn(decision, round, maxRetries) && (decision.continueRetry ==> after.plan == NotDone(selected, after.succeeded))
  {
    var statuses := Reported(before.plan, outcome);
    var succeeded := before.succeeded + Successes(statuses);
    assert succeeded + Successes(statuses) == succeeded;
    NotDoneEmpty(selected, succeeded);
    if forall id :: id in statuses ==> statuses[id] == Succeeded {
      assert forall id :: id in selected && id !in before.succeeded ==> id in statuses;
    }
  }

  lemma {:induction false} RoundGoesOn(selected: seq<string>, start: ManualProgress, outcomes: seq<Outcome>, round: nat, maxRetries: nat, i: nat)
    requires start.plan == NotDone(selected, start.succeeded) && i < |ManualRounds(selected, start, outcomes, round, maxRetries)|
    ensures EndsOrGoesOn(ManualRounds(selected, start, outcomes, round, maxRetries)[i].decision, round + i, maxRetries)
    decreases |outcomes|
  {
    GoesOnAfterFailure(selected, start, outcomes[0], round, maxRetries);
    if i > 0 {
      var (after, decision) := JudgedManual(selected, start, outcomes[0], round, maxRetries);
      assert decision.continueRetry;
      RoundGoesOn(selected, after, outcomes[1..], round + 1, maxRetries, i - 1);
    }
  }

  lemma RunGoesOn(selected: seq<string>, outcomes: seq<Outcome>, maxRetries: nat, i: nat)
    requires i < |ManualRunOf(selected, outcomes, maxRetries)|
    ensures EndsOrGoesOn(ManualRunOf(selected, outcomes, maxRetries)[i].decision, i + 1, maxRetries)
  {
    NotDoneNothing(selected);
    RoundGoesOn(selected, ManualProgress(selected, {}), outcomes, 1, maxRetries, i);
  }

  /** What the callback decides by itself about a manual retry. */
  lemma CallbackDecides(selected: seq<string>, before: ManualProgress, outcome: Outcome, round: nat, maxRetries: nat)
    ensures
      var (after, decision) := EvaluateManual(selected, before, outcome, round, maxRetries);
      var stopped := outcome.stopped && !outcome.timedOut;
      && after.succeeded == before.succeeded + (set id | id in before.plan && id in outcome.statuses && outcome.statuses[id] == Succeeded)
      && after.plan == decision.next
      && (forall id :: id in decision.next <==> !stopped && id in selected && id !in after.succeeded)
      && (decision.continueRetry <==> decision.next != [] && round < maxRetries)
      && (decision.runStatus == Some(FinalStopped) <==> stopped)
      && (decision.runStatus == Some(FinalSucceeded) <==> !stopped && decision.next == [])
      && (decision.runStatus == Some(FinalFailed) <==> decision.next != [] && round >= maxRetries)
      && (decision.runStatus == None <==> decision.continueRetry)
  {
    var statuses := Reported(before.plan, outcome);
    var succeeded := before.succeeded + Successes(statuses);
    assert succeeded + Successes(statuses) == succeeded;
  }

  function Decisions(rounds: seq<ManualRound>): (decisions: seq<Decision>)
    ensures |decisions| == |rounds| && forall k :: 0 <= k < |rounds| ==> decisions[k] == rounds[k].decision
  {
    seq(|rounds|, k requires 0 <= k < |rounds| => rounds[k].decision)
  }
}
