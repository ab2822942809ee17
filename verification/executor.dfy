/** Running a plan of steps. Each step is an action whose success or failure
    is given from outside (the subprocess, directory or environment call it
    stands for is not modelled). A failed step either ends the program with an
    error (`log.Fatalln`) or has its result discarded. */
module Executor {

  /** The actions the program performs, in its own terms. `Exec` is a call of
      `execute(program, args...)`, which runs `program` with `args` as its
      arguments and succeeds when the process exits successfully. */
  datatype Action =
    | MakeDir(path: string)
    | WriteSettings(path: string)
    | SetGopath(value: string)
    | ChangeDir(path: string)
    | Exec(program: string, args: seq<string>)

  /** What a failure of the step does. */
  datatype Policy = Abort | Ignore

  datatype Step = Step(action: Action, onFailure: Policy)

  datatype Status = Completed | Aborted(failed: Action)

  /** The actions performed, in order, and how the run ended. */
  datatype Report = Report(performed: seq<Action>, status: Status)

  /** Step `k` fails and its failure ends the run. `ok(k)` is the outcome of
      the k-th step of the plan. */
  predicate FatalAt(plan: seq<Step>, ok: nat -> bool, k: nat)
    requires k < |plan|
  {
    plan[k].onFailure == Abort && !ok(k)
  }

  /** Runs `plan[k..]`: each step is performed, and the first step that fails
      with the `Abort` policy is the last one performed. */
  function RunFrom(plan: seq<Step>, ok: nat -> bool, k: nat): (r: Report)
    requires k <= |plan|
    ensures |r.performed| <= |plan| - k
    ensures forall j :: 0 <= j < |r.performed| ==> r.performed[j] == plan[k + j].action
    ensures r.status == Completed <==> forall j :: k <= j < |plan| ==> !FatalAt(plan, ok, j)
    ensures r.status == Completed ==> |r.performed| == |plan| - k
    ensures r.status.Aborted? ==>
              && |r.performed| > 0
              && FatalAt(plan, ok, k + |r.performed| - 1)
              && r.status.failed == plan[k + |r.performed| - 1].action
              && forall j :: k <= j < k + |r.performed| - 1 ==> !FatalAt(plan, ok, j)
    decreases |plan| - k
  {
    if k == |plan| then Report([], Completed)
    else if FatalAt(plan, ok, k) then Report([plan[k].action], Aborted(plan[k].action))
    else
      var rest := RunFrom(plan, ok, k + 1);
      Report([plan[k].action] + rest.performed, rest.status)
  }

  function Run(plan: seq<Step>, ok: nat -> bool): (r: Report)
  {
    RunFrom(plan, ok, 0)
  }

  /** No step before `k` failed fatally. */
  predicate Reached(plan: seq<Step>, ok: nat -> bool, k: nat)
    requires k <= |plan|
  {
    k == 0 || (Reached(plan, ok, k - 1) && !FatalAt(plan, ok, k - 1))
  }

  lemma {:induction false} ReachedNoFatal(plan: seq<Step>, ok: nat -> bool, k: nat)
    requires k <= |plan|
    ensures Reached(plan, ok, k) <==> forall j :: 0 <= j < k ==> !FatalAt(plan, ok, j)
  {
    if k > 0 {
      ReachedNoFatal(plan, ok, k - 1);
    }
  }

  /** Short-circuit: step `k` is performed exactly when no earlier step failed
      fatally, whatever happened to steps whose failures are ignored; the run
      completes exactly when no step at all failed fatally. */
  lemma RunReaches(plan: seq<Step>, ok: nat -> bool, k: nat)
    requires k <= |plan|
    ensures k < |plan| ==> (k < |Run(plan, ok).performed| <==> Reached(plan, ok, k))
    ensures k == |plan| ==> (Run(plan, ok).status == Completed <==> Reached(plan, ok, k))
  {
    ReachedNoFatal(plan, ok, k);
    var r := Run(plan, ok);
    if r.status.Aborted? {
      var m := |r.performed| - 1;
      if k > m {
        assert FatalAt(plan, ok, m);
      }
    }
  }

  /** An action that occurs once in the plan, at index `m`, has been performed
      exactly when the run got past step `m - 1`. */
  lemma PerformedOnce(plan: seq<Step>, ok: nat -> bool, m: nat, a: Action)
    requires m < |plan| && plan[m].action == a
    requires forall j :: 0 <= j < |plan| && j != m ==> plan[j].action != a
    ensures a in Run(plan, ok).performed <==> m < |Run(plan, ok).performed|
  {
    var r := Run(plan, ok);
    if a in r.performed {
      var j :| 0 <= j < |r.performed| && r.performed[j] == a;
      assert plan[j].action == a;
    }
    if m < |r.performed| {
      assert r.performed[m] == a;
    }
  }
}
