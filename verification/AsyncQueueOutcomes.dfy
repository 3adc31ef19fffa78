/**
 * What becomes of an op: an error has a cause, an op without one has its body called, and the outcomes of
 * the calls made for it decide whether its signals are given or failed.
 */
module AsyncQueueOutcomes {
  import opened Common
  import opened AsyncQueue
  import opened AsyncQueueInvariant
  import opened AsyncQueueSteps
  import opened AsyncQueueWorker
  import opened AsyncQueueShutdown
  import opened AsyncQueueTheorems

  // ---- an error has a cause

  ghost predicate Caused(waits: seq<Wait>)
  {
    exists i :: 0 <= i < |waits| && (Bad(waits[i]) || waits[i].Cancelled?)
  }

  ghost predicate CauseOk(op: Op)
  {
    op.error ==> Caused(op.waits)
  }

  /** A failed wait stays failed. */
  ghost predicate StaysCaused(a: Op, b: Op)
  {
    && (Caused(a.waits) ==> Caused(b.waits))
    && (b.error ==> a.error || Caused(b.waits))
  }

  lemma SetCaused(waits: seq<Wait>, i: nat, w: Wait)
    requires i < |waits| && (Bad(waits[i]) || waits[i].Cancelled? ==> Bad(w) || w.Cancelled?)
    ensures Caused(waits) ==> Caused(waits[i := w])
    ensures Bad(w) || w.Cancelled? ==> Caused(waits[i := w])
  {
    if Caused(waits) {
      var j :| 0 <= j < |waits| && (Bad(waits[j]) || waits[j].Cancelled?);
      assert waits[i := w][j] == if i == j then w else waits[j];
    }
    assert waits[i := w][i] == w;
  }

  lemma {:induction false} SomeCancelled(waits: seq<Wait>)
    requires CountCancelled(waits) > 0
    ensures Caused(waits)
  {
    if waits[0].Cancelled? {
      assert Bad(waits[0]) || waits[0].Cancelled?;
    } else {
      SomeCancelled(waits[1..]);
      var j :| 0 <= j < |waits[1..]| && (Bad(waits[1..][j]) || waits[1..][j].Cancelled?);
      assert waits[1..][j] == waits[j + 1];
    }
  }

  lemma SettledCaused(waits: seq<Wait>)
    requires Caused(waits)
    ensures Caused(AccountCancelled(waits))
  {
    var j :| 0 <= j < |waits| && (Bad(waits[j]) || waits[j].Cancelled?);
    assert Bad(AccountCancelled(waits)[j]);
  }

  lemma EnqueueCaused(s: State, step: Step, id: OpId)
    requires Enabled(s, step) && EnqueueSide(step) && id in s.ops && id in Apply(s, step).ops
    ensures StaysCaused(s.ops[id], Apply(s, step).ops[id])
  {
    hide Caused;
    match step
    case Register(a, ok) => RegisterCaused(s, a, ok);
    case Fire(a, i, ok) => SetCaused(s.ops[a].waits, i, Fired(ok));
    case Note(a, i) => NoteCaused(s.ops[a], i);
    case Settle(a, i) => SetCaused(s.ops[a].waits, i, Accounted(s.ops[a].waits[i].ok));
    case _ => PushWaits(s, step, id);
  }

  lemma RegisterCaused(s: State, id: OpId, ok: bool)
    requires Enabled(s, Register(id, ok))
    ensures StaysCaused(s.ops[id], Registered(s.ops[id], ok))
  {
    hide Caused;
    SetCaused(s.ops[id].waits, s.ops[id].armed, if ok then Armed else RegFailed);
  }

  lemma NoteCaused(op: Op, i: nat)
    requires i < |op.waits| && (op.waits[i].Fired? || op.waits[i].RegFailed?)
    ensures StaysCaused(op, NotedOp(op, i))
  {
    hide Caused;
    SetCaused(op.waits, i, NotedOp(op, i).waits[i]);
  }

  lemma PushWaits(s: State, step: Step, id: OpId)
    requires Enabled(s, step) && id in s.ops && id in Apply(s, step).ops
    requires step.Accept? || step.Link? || step.Splice? || step.PushLoad? || step.PushCas? || step.Post?
    ensures Apply(s, step).ops[id].waits == s.ops[id].waits && Apply(s, step).ops[id].error == s.ops[id].error
  {
    hide Without;
  }

  lemma CancelCaused(s: State, id: OpId)
    requires Enabled(s, DestroyCancel) && id in s.ops
    ensures var op' := CancelOne(s).ops[id];
            op'.error == s.ops[id].error && (Caused(s.ops[id].waits) ==> Caused(op'.waits))
  {
    hide Caused;
    var a := s.ops[s.destroyer.todo[0]];
    if a.waits[s.destroyer.i].Armed? {
      SetCaused(a.waits, s.destroyer.i, Cancelled);
    }
  }

  lemma WonCaused(s: State, id: OpId)
    requires OpsOk(s) && id in s.ops && s.ops[id].won > 0
    ensures Caused(s.ops[id].waits)
  {
    OpAt(s, id);
    hide OpsOk;
    SomeCancelled(s.ops[id].waits);
  }

  lemma SettleCaused(s: State, id: OpId)
    requires Enabled(s, DestroySettle) && id in s.ops
    ensures var op' := SettleCancelled(s).ops[id];
            op'.error == s.ops[id].error && (Caused(s.ops[id].waits) ==> Caused(op'.waits))
  {
    hide Caused, Without;
    if Caused(s.ops[id].waits) {
      SettledCaused(s.ops[id].waits);
    }
  }

  lemma DestroyCaused(s: State, step: Step, id: OpId)
    requires OpsOk(s) && Enabled(s, step) && !WorkerSide(step) && !EnqueueSide(step)
    requires id in s.ops && id in Apply(s, step).ops
    ensures StaysCaused(s.ops[id], Apply(s, step).ops[id])
  {
    hide IsList, Reverse, NoEnqueueRunning, OpsOk, Caused, CancelOne, SettleCancelled;
    match step
    case DestroyCancel => CancelCaused(s, id);
    case DestroyNote => WonCaused(s, s.destroyer.todo[0]);
    case DestroySettle => SettleCaused(s, id);
    case _ =>
  }

  lemma StepCaused(s: State, step: Step, id: OpId)
    requires Inv(s) && Enabled(s, step) && id in s.ops
    ensures id in Apply(s, step).ops && StaysCaused(s.ops[id], Apply(s, step).ops[id])
  {
    CountsDown(s, step, id);
    hide OpsOk, ReadyOk, InflightOk, CountOk, DestroyOk, WorkerOk, WakeOk, Enabled, Apply;
    if WorkerSide(step) {
      WorkerWaits(s, step, id);
    } else if EnqueueSide(step) {
      EnqueueCaused(s, step, id);
    } else {
      DestroyCaused(s, step, id);
    }
  }

  lemma {:induction false} RunCaused(trace: seq<State>, steps: seq<Step>, k: nat, id: OpId)
    requires Run(trace, steps) && k < |trace| && id in trace[k].ops
    ensures CauseOk(trace[k].ops[id])
  {
    hide Inv, Enabled, Apply, Caused;
    assert k > 0 by { InitEmpty(); }
    var s, step := trace[k - 1], steps[k - 1];
    RunInv(trace, steps, k - 1);
    if id in s.ops {
      RunCaused(trace, steps, k - 1, id);
      StepCaused(s, step, id);
    } else {
      AcceptedFresh(s, step, id);
    }
  }

  /** By the time the worker has an op, it has an error recorded exactly if not all its waits were clean. */
  lemma ErrorIffNotClean(op: Op)
    requires WaitsOk(op) && CauseOk(op) && (op.stage.Current? || op.stage.Released?)
    ensures op.error <==> !CleanWaits(op)
  {
    NonePending(op.waits);
    hide Pending, CountCancelled, LoopOk;
    if op.error {
      var i :| 0 <= i < |op.waits| && (Bad(op.waits[i]) || op.waits[i].Cancelled?);
      assert op.waits[i] != Accounted(true);
    } else {
      forall i | 0 <= i < |op.waits| ensures op.waits[i] == Accounted(true) {
        assert !Bad(op.waits[i]);
      }
    }
  }

  // ---- the calls made for an op

  /** A call's outcome, if it has been made: the body's, and that of giving the signals. */
  datatype Calls = Calls(body: Option<bool>, signal: Option<bool>)

  /** What a step adds to the calls made for `id`. */
  function Called(s: State, step: Step, id: OpId, c: Calls): (r: Calls)
  {
    if step.WorkerProcess? && s.worker.Processing? && s.worker.id == id && id in s.ops then
      match s.worker.phase
      case RunBody => if s.ops[id].hasBody then c.(body := Some(step.ok)) else c
      case Signal => c.(signal := Some(step.ok))
      case _ => c
    else c
  }

  /** The calls made for `id` in the first `k` steps of a run. */
  function CallsOf(trace: seq<State>, steps: seq<Step>, k: nat, id: OpId): (c: Calls)
    requires k <= |steps| && k <= |trace|
  {
    if k == 0 then Calls(None, None)
    else Called(trace[k - 1], steps[k - 1], id, CallsOf(trace, steps, k - 1, id))
  }

  /** The counts kept for an op are those of the calls. */
  ghost predicate Counted(op: Op, c: Calls)
  {
    && op.bodies == (if c.body.Some? then 1 else 0)
    && op.signals == (if c.signal == Some(true) then 1 else 0)
  }

  /** Which calls must have been made when the outcome is known: none after an error, no signal after a failed body. */
  ghost predicate Complete(op: Op, c: Calls)
  {
    && (c.body.Some? <==> !op.error && op.hasBody)
    && (c.signal.Some? <==> !op.error && c.body != Some(false))
  }

  ghost predicate Calling(op: Op, phase: Phase, c: Calls)
  {
    Counted(op, c) &&
    match phase
    case LoadError => c == Calls(None, None) && op.fails == 0
    case RunBody => c == Calls(None, None) && op.fails == 0 && !op.error
    case Signal =>
      !op.error && c.signal == None && c.body == (if op.hasBody then Some(true) else None) && op.fails == 0
    case Fail => Complete(op, c) && c.signal != Some(true) && op.fails == 0
    case _ => Complete(op, c) && op.fails == 1 - op.signals
  }

  ghost predicate TreatmentOk(s: State, id: OpId, c: Calls)
  {
    if id !in s.ops then c == Calls(None, None)
    else
      var op := s.ops[id];
      if op.stage.Released? then Calling(op, Uncount, c)
      else if op.stage.Current? then s.worker.Processing? && s.worker.id == id && Calling(op, s.worker.phase, c)
      else c == Calls(None, None)
  }

  lemma TreatedCalling(op: Op, phase: Phase, ok: bool, c: Calls)
    requires Calling(op, phase, c)
    ensures var c' := match phase
                      case RunBody => if op.hasBody then c.(body := Some(ok)) else c
                      case Signal => c.(signal := Some(ok))
                      case _ => c;
            && (!phase.Uncount? ==> Calling(Treated(op, phase, ok), NextPhase(op, phase, ok), c'))
            && (phase.Uncount? ==> Calling(Treated(op, phase, ok), Uncount, c'))
  {
  }

  lemma ProcessTreats(s: State, ok: bool, id: OpId, c: Calls)
    requires WorkerOk(s) && Enabled(s, WorkerProcess(ok)) && TreatmentOk(s, id, c)
    ensures TreatmentOk(Apply(s, WorkerProcess(ok)), id, Called(s, WorkerProcess(ok), id, c))
  {
    var op, phase := s.ops[s.worker.id], s.worker.phase;
    CurrentOp(s);
    TreatedSame(op, phase, ok);
    if s.worker.id == id {
      TreatedCalling(op, phase, ok, c);
    }
    hide Treated, NextPhase, Calling, WorkerOk, PhaseOk;
  }

  lemma NextTreats(s: State, id: OpId, c: Calls)
    requires Inv(s) && Enabled(s, WorkerNext) && TreatmentOk(s, id, c)
    ensures TreatmentOk(Apply(s, WorkerNext), id, c)
  {
    hide WakeOk, DestroyOk, CountOk, InflightOk, IsList, WaitsOk, LogsOk;
    if s.batch != [] {
      OpAt(s, s.batch[0]);
      assert s.batch[0] in s.batch;
    }
    hide OpsOk;
  }

  /** Steps other than the worker's turn to an op or its treatment leave treatments alone. */
  ghost predicate SameTreatment(s: State, s': State, id: OpId)
    requires id in s.ops && id in s'.ops
  {
    var a, b := s.ops[id], s'.ops[id];
    && a.stage.Released? == b.stage.Released? && a.stage.Current? == b.stage.Current?
    && (a.stage.Released? || a.stage.Current? ==>
          && b.bodies == a.bodies && b.signals == a.signals && b.fails == a.fails
          && b.error == a.error && b.hasBody == a.hasBody)
    && (a.stage.Current? ==> s'.worker == s.worker)
  }

  lemma PushedQuiet(op: Op)
    requires OpOk(op) && (op.stage.Released? || op.stage.Current?)
    ensures op.armed == |op.waits| && forall i :: 0 <= i < |op.waits| ==> op.waits[i].Accounted?
  {
    NonePending(op.waits);
  }

  lemma EnqueueTreats(s: State, step: Step, id: OpId)
    requires OpsOk(s) && Enabled(s, step) && EnqueueSide(step) && id in s.ops && id in Apply(s, step).ops
    ensures SameTreatment(s, Apply(s, step), id)
  {
    hide OpOk, Without;
    OpAt(s, id);
    hide OpsOk;
    if s.ops[id].stage.Released? || s.ops[id].stage.Current? {
      PushedQuiet(s.ops[id]);
    }
  }

  /** The walk changes the op it is at, which is still waiting. */
  lemma WalkTreats(s: State, step: Step, id: OpId)
    requires InflightOk(s) && DestroyOk(s) && OpsOk(s) && Enabled(s, step) && id in s.ops
    requires step.DestroyCancel? || step.DestroyNote? || step.DestroySettle?
    ensures id in Apply(s, step).ops && SameTreatment(s, Apply(s, step), id)
  {
    hide InflightOk, DestroyOk, OpsOk, Without, IsList;
    WalkAt(s);
    OpAt(s, s.destroyer.todo[0]);
    if step.DestroySettle? {
      WonWaiting(s.ops[s.destroyer.todo[0]]);
    }
    hide OpOk;
  }

  lemma WonWaiting(op: Op)
    requires OpOk(op) && op.won > 0
    ensures op.stage.Waiting?
  {
  }

  lemma ChainLoadTreats(s: State, id: OpId)
    requires Enabled(s, DestroyLoadHead) && id in s.ops
    ensures id in Apply(s, DestroyLoadHead).ops && SameTreatment(s, Apply(s, DestroyLoadHead), id)
  {
  }

  lemma ChainPushedTreats(s: State, id: OpId)
    requires DestroyOk(s) && s.destroyer.PushChain? && s.destroyer.chain != [] && id in s.ops
    ensures id in ChainPushedState(s).ops && SameTreatment(s, ChainPushedState(s), id)
  {
    ChainFacts(s);
    hide DestroyOk, Reverse, IsSegment, NoDup;
  }

  lemma ChainCasTreats(s: State, id: OpId)
    requires DestroyOk(s) && Enabled(s, DestroyCas) && id in s.ops
    ensures id in Apply(s, DestroyCas).ops && SameTreatment(s, Apply(s, DestroyCas), id)
  {
    hide DestroyOk, SetStages, Reverse;
    var c := s.destroyer.chain;
    if s.head == s.ops[c[|c| - 1]].next {
      assert Apply(s, DestroyCas) == ChainPushedState(s);
      hide Apply, Enabled, SameTreatment;
      ChainPushedTreats(s, id);
    } else {
      assert Apply(s, DestroyCas) == SetOp(s, c[|c| - 1], s.ops[c[|c| - 1]].(next := s.head));
    }
  }

  lemma LateSame(s: State, step: Step)
    requires Enabled(s, step) && (Late(step) || step.DestroyLock? || step.DestroySkip?)
    ensures Apply(s, step).ops == s.ops && Apply(s, step).worker == s.worker
  {
    hide NoEnqueueRunning, AtWalk;
  }

  lemma LateTreats(s: State, step: Step, id: OpId)
    requires Enabled(s, step) && id in s.ops && (Late(step) || step.DestroyLock? || step.DestroySkip?)
    ensures id in Apply(s, step).ops && SameTreatment(s, Apply(s, step), id)
  {
    hide Enabled, Apply;
    LateSame(s, step);
  }

  lemma ExchangeTreats(s: State, chain: seq<OpId>, id: OpId)
    requires ReadyOk(s) && WorkerOk(s) && Enabled(s, WorkerExchange(chain)) && id in s.ops
    ensures id in Apply(s, WorkerExchange(chain)).ops && SameTreatment(s, Apply(s, WorkerExchange(chain)), id)
  {
    hide PhaseOk, ReadyOk, IsList, Reverse;
    if chain != [] {
      BatchEmpty(s);
      ExchangeReady(s, chain);
      StackReady(s);
    }
  }

  lemma IdleTreats(s: State, step: Step, id: OpId)
    requires WorkerOk(s) && Enabled(s, step) && WorkerSide(step) && id in s.ops
    requires !step.WorkerNext? && !step.WorkerProcess? && !step.WorkerExchange?
    ensures id in Apply(s, step).ops && SameTreatment(s, Apply(s, step), id)
  {
    IdleWaits(s, step);
    hide PhaseOk, Apply;
  }

  lemma StepTreats(s: State, step: Step, id: OpId, c: Calls)
    requires Inv(s) && Enabled(s, step) && TreatmentOk(s, id, c)
    ensures TreatmentOk(Apply(s, step), id, Called(s, step, id, c))
  {
    hide OpsOk, ReadyOk, InflightOk, CountOk, DestroyOk, WorkerOk, WakeOk, Enabled, Apply, Calling;
    if step.WorkerProcess? {
      ProcessTreats(s, step.ok, id, c);
    } else if step.WorkerNext? {
      NextTreats(s, id, c);
    } else if id !in s.ops {
      if id in Apply(s, step).ops {
        AcceptedFresh(s, step, id);
      }
    } else {
      OthersTreat(s, step, id);
      TreatmentFrame(s, Apply(s, step), id, c);
    }
  }

  lemma OthersTreat(s: State, step: Step, id: OpId)
    requires Inv(s) && Enabled(s, step) && id in s.ops && !step.WorkerProcess? && !step.WorkerNext?
    ensures id in Apply(s, step).ops && SameTreatment(s, Apply(s, step), id)
  {
    CountsDown(s, step, id);
    hide OpsOk, ReadyOk, InflightOk, CountOk, DestroyOk, WorkerOk, WakeOk, Enabled, Apply, SameTreatment;
    if step.WorkerExchange? {
      ExchangeTreats(s, step.chain, id);
    } else if WorkerSide(step) {
      IdleTreats(s, step, id);
    } else if EnqueueSide(step) {
      EnqueueTreats(s, step, id);
    } else {
      DestroyTreats(s, step, id);
    }
  }

  lemma DestroyTreats(s: State, step: Step, id: OpId)
    requires InflightOk(s) && DestroyOk(s) && OpsOk(s) && Enabled(s, step) && id in s.ops
    requires !WorkerSide(step) && !EnqueueSide(step)
    ensures id in Apply(s, step).ops && SameTreatment(s, Apply(s, step), id)
  {
    hide OpsOk, InflightOk, DestroyOk, Enabled, Apply, SameTreatment;
    match step
    case DestroyLoadHead => ChainLoadTreats(s, id);
    case DestroyCas => ChainCasTreats(s, id);
    case _ =>
      if step.DestroyCancel? || step.DestroyNote? || step.DestroySettle? {
        WalkTreats(s, step, id);
      } else {
        LateTreats(s, step, id);
      }
  }

  lemma TreatmentFrame(s: State, s': State, id: OpId, c: Calls)
    requires id in s.ops && id in s'.ops && SameTreatment(s, s', id) && TreatmentOk(s, id, c)
    ensures TreatmentOk(s', id, c)
  {
  }

  lemma {:induction false} RunTreats(trace: seq<State>, steps: seq<Step>, k: nat, id: OpId)
    requires Run(trace, steps) && k < |trace|
    ensures TreatmentOk(trace[k], id, CallsOf(trace, steps, k, id))
  {
    hide Inv, Enabled, Apply, TreatmentOk, Called;
    if k == 0 {
      InitEmpty();
      NothingCalled(trace[0], id);
    } else {
      RunInv(trace, steps, k - 1);
      RunTreats(trace, steps, k - 1, id);
      StepTreats(trace[k - 1], steps[k - 1], id, CallsOf(trace, steps, k - 1, id));
    }
  }

  lemma NothingCalled(s: State, id: OpId)
    requires s.ops == map[]
    ensures TreatmentOk(s, id, Calls(None, None))
  {
  }

  /**
   * What became of a released op. Its body was called, once, if and only if it has one and all its waits
   * were clean; its signals were tried if and only if, besides, the body did not fail; they were given,
   * and not failed, if and only if that succeeded, and were failed, once, in every other case.
   */
  lemma ReleasedOutcome(trace: seq<State>, steps: seq<Step>, k: nat, id: OpId)
    requires Run(trace, steps) && k < |trace| && id in trace[k].ops && trace[k].ops[id].stage.Released?
    ensures var op, c := trace[k].ops[id], CallsOf(trace, steps, k, id);
            && (c.body.Some? <==> op.hasBody && CleanWaits(op))
            && (c.signal.Some? <==> CleanWaits(op) && c.body != Some(false))
            && op.bodies == (if op.hasBody && CleanWaits(op) then 1 else 0)
            && op.signals == (if c.signal == Some(true) then 1 else 0)
            && op.fails == (if c.signal == Some(true) then 0 else 1)
  {
    hide Run, Inv, CleanWaits, Caused, CallsOf;
    RunOp(trace, steps, k, id);
    RunCaused(trace, steps, k, id);
    ErrorIffNotClean(trace[k].ops[id]);
    RunTreats(trace, steps, k, id);
    hide WaitsOk;
  }

  lemma RunOp(trace: seq<State>, steps: seq<Step>, k: nat, id: OpId)
    requires Run(trace, steps) && k < |trace| && id in trace[k].ops
    ensures WaitsOk(trace[k].ops[id])
  {
    RunInv(trace, steps, k);
    hide ReadyOk, InflightOk, CountOk, DestroyOk, WorkerOk, WakeOk, Run;
    OpAt(trace[k], id);
  }
}
