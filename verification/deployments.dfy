/**
 The deployment records the GitHub eventer reads, and the rule that decides
 whether a deployment is still waiting to be acted on.

 A deployment carries the environment it targets and its status history, in
 the order the entries were created upstream. The states are the three the
 eventer knows: `pending`, `success` and `failure`.
 */
module Deployments {

  datatype State = Pending | Success | Failure

  datatype DeploymentStatus = DeploymentStatus(state: State)

  datatype Deployment = Deployment(environment: string, statuses: seq<DeploymentStatus>)

  /** `success` and `failure` end a deployment's lifecycle. */
  predicate IsTerminal(s: State) {
    s == Success || s == Failure
  }

  /** Some entry of the history is in state `s`. */
  predicate HasState(statuses: seq<DeploymentStatus>, s: State) {
    exists i :: 0 <= i < |statuses| && statuses[i].state == s
  }

  /** The deployment still waits for this agent: some entry is `pending` and
      no entry is `success` or `failure`. A terminal entry wins wherever it
      sits in the history, and an empty history is not pending, since there
      is nothing yet to act on. */
  predicate IsPending(d: Deployment)
    ensures IsPending(d) ==> |d.statuses| > 0
    ensures IsPending(d) ==> forall i :: 0 <= i < |d.statuses| ==> !IsTerminal(d.statuses[i].state)
  {
    && HasState(d.statuses, Pending)
    && !HasState(d.statuses, Success)
    && !HasState(d.statuses, Failure)
  }

  /** With only three states, "some pending and no terminal entry" is the
      same as "a non-empty history made of `pending` entries only"; in
      particular the most recent entry of a pending deployment is `pending`. */
  lemma PendingIffAllPending(d: Deployment)
    ensures IsPending(d) <==>
              |d.statuses| > 0 && forall i :: 0 <= i < |d.statuses| ==> d.statuses[i].state == Pending
    ensures IsPending(d) ==> d.statuses[|d.statuses| - 1].state == Pending
  {
    if IsPending(d) {
      forall i | 0 <= i < |d.statuses|
        ensures d.statuses[i].state == Pending
      {
        if d.statuses[i].state == Success {
          assert HasState(d.statuses, Success);
        } else if d.statuses[i].state == Failure {
          assert HasState(d.statuses, Failure);
        }
      }
    }
    if |d.statuses| > 0 && forall i :: 0 <= i < |d.statuses| ==> d.statuses[i].state == Pending {
      assert d.statuses[0].state == Pending;
    }
  }

  /** A one-entry history is pending exactly when that entry is `pending`. */
  lemma SingleStatusPending(env: string, s: State)
    ensures IsPending(Deployment(env, [DeploymentStatus(s)])) <==> s == Pending
  {
    var d := Deployment(env, [DeploymentStatus(s)]);
    if s == Pending {
      assert d.statuses[0].state == Pending;
    } else {
      assert d.statuses[0].state == s;
    }
  }

  /** Terminal states are sticky: once the history holds a `success` or
      `failure` entry, no entries appended later make the deployment pending
      again, whatever their states. */
  lemma {:induction false} TerminalIsSticky(d: Deployment, later: seq<DeploymentStatus>)
    requires exists i :: 0 <= i < |d.statuses| && IsTerminal(d.statuses[i].state)
    ensures !IsPending(Deployment(d.environment, d.statuses + later))
  {
    var i :| 0 <= i < |d.statuses| && IsTerminal(d.statuses[i].state);
    var all := d.statuses + later;
    assert all[i] == d.statuses[i];
    assert HasState(all, all[i].state);
  }

  /** The empty history is not pending. This is a modelling decision: the
      upstream tests do not cover a deployment without status entries. */
  lemma EmptyHistoryIsNotPending(env: string)
    ensures !IsPending(Deployment(env, []))
  {
  }
}
