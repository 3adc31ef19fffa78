/** What an op's waits remember: which semaphores were reached, and which failed or were given up. */
module AsyncQueueWaits {
  import opened Common
  import opened AsyncQueue
  import opened AsyncQueueInvariant
  import opened AsyncQueueTheorems
  import opened AsyncQueueOutcomes

  /** What the callback of wait `i` was told, if it has been called in the first `k` steps. */
  function Told(steps: seq<Step>, k: nat, id: OpId, i: nat): (r: Option<bool>)
    requires k <= |steps|
  {
    if k == 0 then None else Hears(steps[k - 1], id, i, Told(steps, k - 1, id, i))
  }

  function Hears(step: Step, id: OpId, i: nat, told: Option<bool>): (r: Option<bool>)
  {
    if step.Fire? && step.id == id && step.i == i then Some(step.ok) else told
  }

  predicate Remembers(w: Wait, told: Option<bool>)
  {
    match w
    case Fired(ok) => told == Some(ok)
    case Noted(ok) => ok <==> told == Some(true)
    case Accounted(ok) => ok <==> told == Some(true)
    case _ => told == None
  }

  predicate WaitRemembers(s: State, id: OpId, i: nat, told: Option<bool>)
  {
    if id in s.ops && i < |s.ops[id].waits| then Remembers(s.ops[id].waits[i], told) else told == None
  }

  // ---- steps

  lemma EnqueueRemembers(s: State, step: Step, id: OpId, i: nat, told: Option<bool>)
    requires Enabled(s, step) && EnqueueSide(step) && WaitRemembers(s, id, i, told)
    ensures WaitRemembers(Apply(s, step), id, i, Hears(step, id, i, told))
  {
    hide Without;
  }

  lemma CancelRemembers(s: State, id: OpId, i: nat, told: Option<bool>)
    requires Enabled(s, DestroyCancel) && WaitRemembers(s, id, i, told)
    ensures WaitRemembers(Apply(s, DestroyCancel), id, i, told)
  {
  }

  lemma SettleRemembers(s: State, id: OpId, i: nat, told: Option<bool>)
    requires Enabled(s, DestroySettle) && WaitRemembers(s, id, i, told)
    ensures WaitRemembers(Apply(s, DestroySettle), id, i, told)
  {
    hide Without;
  }

  lemma DestroyWaits(s: State, step: Step, id: OpId)
    requires Enabled(s, step) && !WorkerSide(step) && !EnqueueSide(step) && id in s.ops
    requires !step.DestroyCancel? && !step.DestroySettle?
    ensures id in Apply(s, step).ops && Apply(s, step).ops[id].waits == s.ops[id].waits
  {
    hide NoEnqueueRunning, Reverse;
  }

  lemma StepRemembers(s: State, step: Step, id: OpId, i: nat, told: Option<bool>)
    requires Enabled(s, step) && WaitRemembers(s, id, i, told)
    ensures WaitRemembers(Apply(s, step), id, i, Hears(step, id, i, told))
  {
    hide Enabled, Apply;
    if EnqueueSide(step) {
      EnqueueRemembers(s, step, id, i, told);
    } else if step.DestroyCancel? {
      CancelRemembers(s, id, i, told);
    } else if step.DestroySettle? {
      SettleRemembers(s, id, i, told);
    } else if id in s.ops {
      if WorkerSide(step) {
        WorkerWaits(s, step, id);
      } else {
        DestroyWaits(s, step, id);
      }
    } else if id in Apply(s, step).ops {
      AcceptedFresh(s, step, id);
    }
  }

  lemma {:induction false} RunRemembers(trace: seq<State>, steps: seq<Step>, k: nat, id: OpId, i: nat)
    requires Run(trace, steps) && k < |trace|
    ensures WaitRemembers(trace[k], id, i, Told(steps, k, id, i))
  {
    hide Enabled, Apply;
    if k == 0 {
      InitEmpty();
    } else {
      RunRemembers(trace, steps, k - 1, id, i);
      hide WaitRemembers, Hears;
      StepRemembers(trace[k - 1], steps[k - 1], id, i, Told(steps, k - 1, id, i));
    }
  }

  /** Every wait's callback was told that its semaphore was reached. */
  ghost predicate AllReached(steps: seq<Step>, k: nat, id: OpId, n: nat)
    requires k <= |steps|
  {
    forall i :: 0 <= i < n ==> Told(steps, k, id, i) == Some(true)
  }

  /** The worker's view of the waits is what the semaphores said: clean if and only if all were reached. */
  lemma CleanIffReached(trace: seq<State>, steps: seq<Step>, k: nat, id: OpId)
    requires Run(trace, steps) && k < |trace| && id in trace[k].ops && trace[k].ops[id].waitCount == 0
    ensures CleanWaits(trace[k].ops[id]) <==> AllReached(steps, k, id, |trace[k].ops[id].waits|)
  {
    assert k <= |steps|;
    hide Run, Inv;
    var op := trace[k].ops[id];
    WaitCountExact(trace, steps, k, id);
    forall i: nat | i < |op.waits|
      ensures op.waits[i] == Accounted(true) <==> Told(steps, k, id, i) == Some(true)
    {
      RunRemembers(trace, steps, k, id, i);
    }
  }

  /**
   * A released op, by the outcomes of the calls alone. The body was called, once, if and only if there is
   * one and every semaphore was reached; the signals were given, and not failed, if and only if, besides,
   * the body did not fail and giving them succeeded; otherwise they were failed, once.
   */
  lemma OutcomeByCalls(trace: seq<State>, steps: seq<Step>, k: nat, id: OpId)
    requires Run(trace, steps) && k < |trace| && id in trace[k].ops && trace[k].ops[id].stage.Released?
    ensures var op, c := trace[k].ops[id], CallsOf(trace, steps, k, id);
            var reached := AllReached(steps, k, id, |op.waits|);
            && (c.body.Some? <==> op.hasBody && reached)
            && (c.signal.Some? <==> reached && c.body != Some(false))
            && op.bodies == (if op.hasBody && reached then 1 else 0)
            && op.signals == (if c.signal == Some(true) then 1 else 0)
            && op.fails == (if c.signal == Some(true) then 0 else 1)
  {
    hide Run, AllReached, CleanWaits, CallsOf;
    WaitCountExact(trace, steps, k, id);
    CleanIffReached(trace, steps, k, id);
    ReleasedOutcome(trace, steps, k, id);
  }
}
