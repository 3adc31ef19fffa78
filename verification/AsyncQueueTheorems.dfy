/** What the queue guarantees on every run, however the parties interleave. */
module AsyncQueueTheorems {
  import opened Common
  import opened AsyncQueue
  import opened AsyncQueueInvariant
  import opened AsyncQueueSteps
  import opened AsyncQueueWorker
  import opened AsyncQueueShutdown

  lemma StepKeeps(s: State, step: Step)
    requires Inv(s) && Enabled(s, step)
    ensures Inv(Apply(s, step))
  {
    hide Inv;
    match step
    case Accept(id, n, hasBody, hasCleanup) => AcceptKeeps(s, id, n, hasBody, hasCleanup);
    case Link(id) => LinkKeeps(s, id);
    case Register(id, ok) => RegisterKeeps(s, id, ok);
    case Fire(id, i, ok) => FireKeeps(s, id, i, ok);
    case Note(id, i) => NoteKeeps(s, id, i);
    case Settle(id, i) => SettleKeeps(s, id, i);
    case Splice(id) => SpliceKeeps(s, id);
    case PushLoad(id) => LoadHeadKeeps(s, id);
    case PushCas(id) => PushKeeps(s, id);
    case Post(id) => PostKeeps(s, id);
    case WorkerExchange(chain) => if chain == [] { WorkerIdleKeeps(s, step); } else { ExchangeKeeps(s, chain); }
    case WorkerNext => if s.batch == [] { WorkerIdleKeeps(s, step); } else { NextKeeps(s); }
    case WorkerProcess(ok) => ProcessKeeps(s, ok);
    case DestroyCancel => CancelKeeps(s);
    case DestroyNote => DestroyNoteKeeps(s);
    case DestroySettle => SettleCancelledKeeps(s);
    case DestroyLoadHead => ChainLoadKeeps(s, true);
    case DestroyCas => ChainCasKeeps(s);
    case WorkerLoadShutdown => WorkerIdleKeeps(s, step);
    case WorkerCheckDrain => WorkerIdleKeeps(s, step);
    case WorkerPrepare => WorkerIdleKeeps(s, step);
    case WorkerLoadHead => WorkerIdleKeeps(s, step);
    case WorkerRecheckShutdown => WorkerIdleKeeps(s, step);
    case WorkerWake => WorkerIdleKeeps(s, step);
    case DestroyLock => DestroyLockKeeps(s);
    case DestroySkip => DestroySkipKeeps(s);
    case DestroyUnlock => LateKeeps(s, step);
    case DestroyPostChain => LateKeeps(s, step);
    case DestroyDrained => LateKeeps(s, step);
    case DestroySetShutdown => LateKeeps(s, step);
    case DestroyPostShutdown => LateKeeps(s, step);
    case DestroyJoin => LateKeeps(s, step);
  }

  /** The invariant holds in every state of every run. */
  lemma {:induction false} RunInv(trace: seq<State>, steps: seq<Step>, k: nat)
    requires Run(trace, steps) && k < |trace|
    ensures Inv(trace[k])
  {
    hide Inv, Enabled, Apply, Init;
    if k == 0 {
      InitInv();
    } else {
      RunInv(trace, steps, k - 1);
      StepKeeps(trace[k - 1], steps[k - 1]);
    }
  }

  lemma InitInv()
    ensures Inv(Init())
  {
    assert Live(map[]) == {};
    assert Reverse<OpId>([]) == [];
  }

  // ---- waits and pushes

  /** `wait_count` counts the waits not yet accounted; the op is claimed exactly when it is zero. */
  lemma WaitCountExact(trace: seq<State>, steps: seq<Step>, k: nat, id: OpId)
    requires Run(trace, steps) && k < |trace| && id in trace[k].ops
    ensures var op := trace[k].ops[id];
            && op.waitCount == Pending(op.waits)
            && (op.waitCount == 0 <==> !op.stage.New? && !op.stage.Waiting?)
            && (op.waitCount == 0 <==> forall i :: 0 <= i < |op.waits| ==> op.waits[i].Accounted?)
  {
    RunInv(trace, steps, k);
    OpAt(trace[k], id);
    NonePending(trace[k].ops[id].waits);
  }

  /** The step that takes `wait_count` of `id` from positive to zero, whoever makes it. */
  ghost predicate Claims(s: State, step: Step, id: OpId)
  {
    && Enabled(s, step) && id in s.ops && id in Apply(s, step).ops
    && s.ops[id].waitCount > 0 && Apply(s, step).ops[id].waitCount == 0
  }

  predicate WorkerSide(step: Step)
  {
    || step.WorkerLoadShutdown? || step.WorkerExchange? || step.WorkerCheckDrain? || step.WorkerPrepare?
    || step.WorkerLoadHead? || step.WorkerRecheckShutdown? || step.WorkerWake? || step.WorkerNext?
    || step.WorkerProcess?
  }

  predicate EnqueueSide(step: Step)
  {
    || step.Accept? || step.Link? || step.Register? || step.Fire? || step.Note? || step.Settle? || step.Splice?
    || step.PushLoad? || step.PushCas? || step.Post?
  }

  /** The op is still there, still the same, and its count has not grown. */
  ghost predicate CountedDown(s: State, s': State, id: OpId)
    requires id in s.ops
  {
    && id in s'.ops && |s'.ops[id].waits| == |s.ops[id].waits| && s'.ops[id].waitCount <= s.ops[id].waitCount
    && s'.ops[id].hasBody == s.ops[id].hasBody && s'.ops[id].hasCleanup == s.ops[id].hasCleanup
  }

  lemma CountsDown(s: State, step: Step, id: OpId)
    requires Enabled(s, step) && id in s.ops
    ensures CountedDown(s, Apply(s, step), id)
  {
    hide Enabled, Apply;
    if WorkerSide(step) {
      WorkerWaits(s, step, id);
    } else if EnqueueSide(step) {
      EnqueueCountsDown(s, step, id);
    } else {
      DestroyCountsDown(s, step, id);
    }
  }

  /** What the worker leaves alone in an op. */
  ghost predicate SameWaits(s: State, s': State, id: OpId)
    requires id in s.ops
  {
    && id in s'.ops && s'.ops[id].waits == s.ops[id].waits && s'.ops[id].waitCount == s.ops[id].waitCount
    && s'.ops[id].error == s.ops[id].error && s'.ops[id].hasBody == s.ops[id].hasBody
    && s'.ops[id].hasCleanup == s.ops[id].hasCleanup
  }

  lemma ExchangeWaits(s: State, chain: seq<OpId>, id: OpId)
    requires Enabled(s, WorkerExchange(chain)) && id in s.ops
    ensures SameWaits(s, Apply(s, WorkerExchange(chain)), id)
  {
    hide IsList, Reverse;
  }

  lemma NextWaits(s: State, id: OpId)
    requires Enabled(s, WorkerNext) && id in s.ops
    ensures SameWaits(s, Apply(s, WorkerNext), id)
  {
  }

  lemma TreatedKeeps(op: Op, phase: Phase, ok: bool)
    ensures var r := Treated(op, phase, ok);
            && r.waits == op.waits && r.waitCount == op.waitCount && r.error == op.error
            && r.hasBody == op.hasBody && r.hasCleanup == op.hasCleanup
  {
  }

  lemma ProcessWaits(s: State, ok: bool, id: OpId)
    requires Enabled(s, WorkerProcess(ok)) && id in s.ops
    ensures SameWaits(s, Apply(s, WorkerProcess(ok)), id)
  {
    TreatedKeeps(s.ops[s.worker.id], s.worker.phase, ok);
    hide Treated, NextPhase;
  }

  lemma IdleWaits(s: State, step: Step)
    requires Enabled(s, step) && WorkerSide(step)
    requires !step.WorkerExchange? && !step.WorkerNext? && !step.WorkerProcess?
    ensures Apply(s, step).ops == s.ops
  {
    hide IsList, Reverse;
  }

  lemma WorkerWaits(s: State, step: Step, id: OpId)
    requires Enabled(s, step) && WorkerSide(step) && id in s.ops
    ensures SameWaits(s, Apply(s, step), id)
  {
    hide Enabled, Apply;
    match step
    case WorkerExchange(chain) => ExchangeWaits(s, chain, id);
    case WorkerNext => NextWaits(s, id);
    case WorkerProcess(ok) => ProcessWaits(s, ok, id);
    case _ => IdleWaits(s, step);
  }

  lemma EnqueueCountsDown(s: State, step: Step, id: OpId)
    requires Enabled(s, step) && id in s.ops && EnqueueSide(step)
    ensures CountedDown(s, Apply(s, step), id)
  {
    hide IsList, Reverse, Without;
  }

  lemma DestroyCountsDown(s: State, step: Step, id: OpId)
    requires Enabled(s, step) && id in s.ops && !WorkerSide(step) && !EnqueueSide(step)
    ensures CountedDown(s, Apply(s, step), id)
  {
    hide IsList, Reverse, Without, NoEnqueueRunning;
  }

  lemma NotBelowZero(s: State, step: Step, id: OpId)
    requires Inv(s) && Enabled(s, step) && id in s.ops && s.ops[id].waitCount == 0
    ensures id in Apply(s, step).ops && Apply(s, step).ops[id].waitCount == 0
  {
    CountsDown(s, step, id);
    StepKeeps(s, step);
    hide ReadyOk, InflightOk, CountOk, DestroyOk, WorkerOk, WakeOk, Apply, Enabled;
    OpAt(Apply(s, step), id);
  }

  /** Once claimed, an op stays claimed. */
  lemma {:induction false} ZeroStays(trace: seq<State>, steps: seq<Step>, id: OpId, j: nat, k: nat)
    requires Run(trace, steps) && j <= k < |trace| && id in trace[j].ops && trace[j].ops[id].waitCount == 0
    ensures id in trace[k].ops && trace[k].ops[id].waitCount == 0
    decreases k - j
  {
    if j < k {
      hide Inv, Enabled, Apply;
      RunInv(trace, steps, j);
      NotBelowZero(trace[j], steps[j], id);
      ZeroStays(trace, steps, id, j + 1, k);
    }
  }

  /** Exactly one step of a run takes an op's count to zero, among all racing parties. */
  lemma ClaimedOnce(trace: seq<State>, steps: seq<Step>, id: OpId, k: nat)
    requires Run(trace, steps) && k < |trace| && id in trace[k].ops
    requires trace[k].ops[id].waitCount == 0 && |trace[k].ops[id].waits| > 0
    ensures exists j :: 0 <= j < k && Claims(trace[j], steps[j], id)
    ensures forall i, j ::
      0 <= i < k && 0 <= j < k && Claims(trace[i], steps[i], id) && Claims(trace[j], steps[j], id) ==> i == j
  {
    FindClaim(trace, steps, id, k);
    forall i, j | 0 <= i < k && 0 <= j < k && Claims(trace[i], steps[i], id) && Claims(trace[j], steps[j], id)
      ensures i == j
    {
      if i < j {
        ZeroStays(trace, steps, id, i + 1, j);
      } else if j < i {
        ZeroStays(trace, steps, id, j + 1, i);
      }
    }
  }

  lemma {:induction false} FindClaim(trace: seq<State>, steps: seq<Step>, id: OpId, k: nat)
    requires Run(trace, steps) && k < |trace| && id in trace[k].ops
    requires trace[k].ops[id].waitCount == 0 && |trace[k].ops[id].waits| > 0
    ensures exists j :: 0 <= j < k && Claims(trace[j], steps[j], id)
  {
    hide Apply, Enabled, Claims;
    assert k > 0 by { InitEmpty(); }
    var s, step := trace[k - 1], steps[k - 1];
    if id in s.ops {
      CountsDown(s, step, id);
      RunCountNat(trace, steps, k - 1, id);
      if s.ops[id].waitCount > 0 {
        ThisClaims(s, step, id);
      } else {
        FindClaim(trace, steps, id, k - 1);
      }
    } else {
      AcceptedFresh(s, step, id);
    }
  }

  lemma InitEmpty()
    ensures Init().ops == map[]
  {
  }

  lemma ThisClaims(s: State, step: Step, id: OpId)
    requires Enabled(s, step) && id in s.ops && id in Apply(s, step).ops
    requires s.ops[id].waitCount > 0 && Apply(s, step).ops[id].waitCount == 0
    ensures Claims(s, step, id)
  {
    hide Apply, Enabled;
  }

  lemma RunCountNat(trace: seq<State>, steps: seq<Step>, k: nat, id: OpId)
    requires Run(trace, steps) && k < |trace| && id in trace[k].ops
    ensures trace[k].ops[id].waitCount >= 0
  {
    RunInv(trace, steps, k);
    OpAt(trace[k], id);
  }

  lemma WorkerKeys(s: State, step: Step)
    requires Enabled(s, step) && WorkerSide(step)
    ensures Apply(s, step).ops.Keys == s.ops.Keys
  {
    hide IsList, Reverse, Treated, NextPhase;
  }

  lemma EnqueueKeys(s: State, step: Step)
    requires Enabled(s, step) && EnqueueSide(step) && !step.Accept?
    ensures Apply(s, step).ops.Keys == s.ops.Keys
  {
    hide IsList, Without, Registered, NotedOp, Settled;
  }

  lemma DestroyKeys(s: State, step: Step)
    requires Enabled(s, step) && !WorkerSide(step) && !EnqueueSide(step)
    ensures Apply(s, step).ops.Keys == s.ops.Keys
  {
    hide IsList, Reverse, Without, NoEnqueueRunning, AccountCancelled;
  }

  /** Ops come into being by `Accept` alone. */
  lemma AcceptedFresh(s: State, step: Step, id: OpId)
    requires Enabled(s, step) && id !in s.ops && id in Apply(s, step).ops
    ensures step.Accept? && step.id == id
    ensures Apply(s, step).ops[id] == NewOp(step.n, step.hasBody, step.hasCleanup)
  {
    if !step.Accept? {
      hide Enabled, Apply;
      if WorkerSide(step) {
        WorkerKeys(s, step);
      } else if EnqueueSide(step) {
        EnqueueKeys(s, step);
      } else {
        DestroyKeys(s, step);
      }
      assert false;
    }
  }

  /** Every op is as it was submitted: so many waits, with or without a body and a cleanup. */
  lemma {:induction false} AsSubmitted(trace: seq<State>, steps: seq<Step>, k: nat, id: OpId)
    requires Run(trace, steps) && k < |trace| && id in trace[k].ops
    ensures var op := trace[k].ops[id];
            exists j :: 0 <= j < k && steps[j] == Accept(id, |op.waits|, op.hasBody, op.hasCleanup)
  {
    hide Apply, Enabled;
    assert k > 0 by { InitEmpty(); }
    var s, step := trace[k - 1], steps[k - 1];
    if id in s.ops {
      CountsDown(s, step, id);
      AsSubmitted(trace, steps, k - 1, id);
    } else {
      AcceptedFresh(s, step, id);
      NewOpShape(step.n, step.hasBody, step.hasCleanup);
      assert step == Accept(id, step.n, step.hasBody, step.hasCleanup);
    }
  }

  lemma NewOpShape(n: nat, hasBody: bool, hasCleanup: bool)
    ensures var op := NewOp(n, hasBody, hasCleanup);
            |op.waits| == n && op.hasBody == hasBody && op.hasCleanup == hasCleanup && op.waitCount == n
  {
  }

  /** Pushed once: the push order has no repetition and holds exactly the ops that left the waiting side. */
  lemma PushedOnce(trace: seq<State>, steps: seq<Step>, k: nat)
    requires Run(trace, steps) && k < |trace|
    ensures NoDup(trace[k].pushLog)
    ensures forall id :: id in trace[k].pushLog <==> id in trace[k].ops && Pushed(trace[k].ops[id])
    ensures forall id :: id in trace[k].pushLog ==> id !in trace[k].inflight && trace[k].ops[id].waitCount == 0
  {
    RunInv(trace, steps, k);
    hide CountOk, DestroyOk, WorkerOk, WakeOk, IsList, Reverse;
    forall id | id in trace[k].pushLog
      ensures trace[k].ops[id].waitCount == 0
    {
      OpAt(trace[k], id);
    }
  }

  /** The worker serves ops in push order: a FIFO queue, whatever the stack did in between. */
  lemma ProcessedInPushOrder(trace: seq<State>, steps: seq<Step>, k: nat)
    requires Run(trace, steps) && k < |trace|
    ensures trace[k].pushLog == trace[k].procLog + trace[k].batch + Reverse(trace[k].stack)
    ensures trace[k].procLog <= trace[k].pushLog
  {
    RunInv(trace, steps, k);
    hide Reverse;
  }

  // ---- outcomes

  /** A body or a signal only after clean waits; outcome before cleanup before release, each once. */
  lemma Outcomes(trace: seq<State>, steps: seq<Step>, k: nat, id: OpId)
    requires Run(trace, steps) && k < |trace| && id in trace[k].ops
    ensures var op := trace[k].ops[id];
            && (op.bodies > 0 || op.signals > 0 ==> CleanWaits(op))
            && (op.signals > 0 && op.hasBody ==> op.bodies == 1)
            && op.bodies <= 1 && op.signals + op.fails <= 1 && op.cleanups <= 1 && op.releases <= 1
            && (op.cleanups > 0 ==> op.signals + op.fails == 1)
            && (op.releases > 0 ==> op.signals + op.fails == 1 && op.cleanups == (if op.hasCleanup then 1 else 0))
            && (op.stage.Released? ==> op.releases == 1)
  {
    RunInv(trace, steps, k);
    OpAt(trace[k], id);
    if trace[k].ops[id].stage.Current? {
      CurrentIs(trace[k], id);
    }
  }

  lemma CurrentIs(s: State, id: OpId)
    requires WorkerOk(s) && id in s.ops && s.ops[id].stage.Current?
    ensures s.worker.Processing? && PhaseOk(s.ops[id], s.worker.phase)
  {
  }

  /** `inflight_count` is accepted minus released ops. */
  lemma InflightCountExact(trace: seq<State>, steps: seq<Step>, k: nat)
    requires Run(trace, steps) && k < |trace|
    ensures trace[k].inflightCount == |trace[k].ops.Keys| - |ReleasedOps(trace[k])|
  {
    RunInv(trace, steps, k);
    hide OpsOk, ReadyOk, InflightOk, CountOk, DestroyOk, WorkerOk, WakeOk, Run;
    LiveCount(trace[k]);
  }

  lemma LiveCount(s: State)
    requires CountOk(s)
    ensures s.inflightCount == |s.ops.Keys| - |ReleasedOps(s)|
  {
    assert s.ops.Keys == Live(s.ops) + ReleasedOps(s) && Live(s.ops) !! ReleasedOps(s);
  }

  ghost function ReleasedOps(s: State): (r: set<OpId>)
  {
    set id | id in s.ops && s.ops[id].stage.Released?
  }

  /** No party can act on an op that has been released: its callbacks, pushes and registrations are over. */
  lemma ReleasedIsQuiet(trace: seq<State>, steps: seq<Step>, k: nat, id: OpId, step: Step)
    requires Run(trace, steps) && k < |trace| && id in trace[k].ops && trace[k].ops[id].stage.Released?
    requires Enabled(trace[k], step)
    requires step.Register? || step.Fire? || step.Note? || step.Settle? || step.Splice? || step.PushLoad?
      || step.PushCas?
    ensures step.id != id
  {
    RunInv(trace, steps, k);
    OpAt(trace[k], id);
    NonePending(trace[k].ops[id].waits);
  }

  // ---- wake-up and shutdown

  /** Asleep on a current token with work or shutdown pending: a thread is about to post, and that wakes the worker. */
  lemma NoLostWakeup(trace: seq<State>, steps: seq<Step>, k: nat)
    requires Run(trace, steps) && k < |trace| && trace[k].worker.Asleep?
    requires trace[k].head.Some? || trace[k].shutdown
    ensures || Enabled(trace[k], WorkerWake)
            || exists step: Step :: (step.Post? || step.DestroyPostChain? || step.DestroyPostShutdown?)
                  && Enabled(trace[k], step) && Enabled(Apply(trace[k], step), WorkerWake)
  {
    RunInv(trace, steps, k);
    hide OpsOk, ReadyOk, InflightOk, CountOk, DestroyOk, WorkerOk, WakeOk, Enabled, Apply;
    OwedPostWakes(trace[k]);
  }

  lemma OwedPostWakes(s: State)
    requires WakeOk(s) && s.worker.Asleep? && (s.head.Some? || s.shutdown)
    ensures || Enabled(s, WorkerWake)
            || exists step: Step :: (step.Post? || step.DestroyPostChain? || step.DestroyPostShutdown?)
                  && Enabled(s, step) && Enabled(Apply(s, step), WorkerWake)
  {
    if s.epoch == s.worker.token {
      var step := if s.destroyer.PostChain? then DestroyPostChain
                  else if s.destroyer.PostShutdown? then DestroyPostShutdown
                  else var id :| id in s.ops && s.ops[id].owesPost; Post(id);
      assert Enabled(s, step) && Enabled(Apply(s, step), WorkerWake);
    }
  }

  /** The worker returns only after shutdown was requested and every accepted op was released. */
  lemma ExitsDrained(trace: seq<State>, steps: seq<Step>, k: nat)
    requires Run(trace, steps) && k < |trace| && trace[k].worker.Exited?
    ensures trace[k].shutdown && trace[k].inflightCount == 0
    ensures forall id :: id in trace[k].ops ==> trace[k].ops[id].stage.Released?
    ensures trace[k].pushLog == trace[k].procLog
  {
    RunInv(trace, steps, k);
    hide OpsOk, ReadyOk, InflightOk, CountOk, WakeOk, IsSegment, IsList, NoDup;
    NobodyLive(trace[k]);
    BatchEmpty(trace[k]);
    NothingReady(trace[k]);
  }

  lemma NothingReady(s: State)
    requires ReadyOk(s) && s.batch == []
    requires forall id :: id in s.ops ==> s.ops[id].stage.Released?
    ensures s.pushLog == s.procLog
  {
    assert forall k :: 0 <= k < |s.stack| ==> s.stack[k] in s.stack;
    assert |s.stack| == 0;
  }

  lemma NobodyLive(s: State)
    requires CountOk(s) && s.inflightCount == 0
    ensures forall id :: id in s.ops ==> s.ops[id].stage.Released?
  {
    forall id | id in s.ops
      ensures s.ops[id].stage.Released?
    {
      assert id !in Live(s.ops);
    }
  }

  // ---- progress

  /** Some party other than a new caller of enqueue or destroy, or a semaphore, can take a step. */
  ghost predicate CanStep(s: State)
  {
    exists step: Step :: !step.Accept? && !step.Fire? && !step.DestroyLock? && Enabled(s, step)
  }

  /**
   * No deadlock: as long as some accepted op is unreleased, either some wait is still armed (its
   * semaphore has not spoken) or some party can take a step.
   */
  lemma NoDeadlock(trace: seq<State>, steps: seq<Step>, k: nat, id: OpId)
    requires Run(trace, steps) && k < |trace| && id in trace[k].ops && !trace[k].ops[id].stage.Released?
    ensures || (exists i :: 0 <= i < |trace[k].ops[id].waits| && trace[k].ops[id].waits[i].Armed?)
            || CanStep(trace[k])
  {
    hide Inv;
    var s := trace[k];
    var op := s.ops[id];
    RunInv(trace, steps, k);
    match op.stage
    case New => LockedStep(s, Link(id));
    case Waiting => WaitingStep(s, id);
    case Claimed => LockedStep(s, Splice(id));
    case Spliced => assert Enabled(s, PushLoad(id));
    case Swinging => assert Enabled(s, PushCas(id));
    case Chained => ChainStep(s, id);
    case Ready => WorkerStep(s, id);
    case Batched => WorkerStep(s, id);
    case Current => WorkerStep(s, id);
  }

  lemma WalkStep(s: State)
    requires DestroyOk(s) && InflightOk(s) && s.destroyer.Walk?
    ensures CanStep(s)
  {
    hide IsSegment, IsList;
    if s.destroyer.todo == [] {
      assert Enabled(s, DestroyUnlock);
    } else {
      var id := s.destroyer.todo[0];
      assert id in s.destroyer.todo;
      var op := s.ops[id];
      var step := if s.destroyer.i < |op.waits| then DestroyCancel
                  else if op.won == 0 then DestroySkip
                  else if s.destroyer.noted then DestroySettle else DestroyNote;
      assert Enabled(s, step);
    }
  }

  lemma LockedStep(s: State, step: Step)
    requires Inv(s) && !step.Accept? && !step.Fire? && !step.DestroyLock? && (MutexFree(s) ==> Enabled(s, step))
    ensures CanStep(s)
  {
    hide OpsOk, ReadyOk, InflightOk, CountOk, DestroyOk, WorkerOk, WakeOk, Enabled;
    if !MutexFree(s) {
      WalkStep(s);
    }
  }

  lemma WaitingStep(s: State, id: OpId)
    requires Inv(s) && id in s.ops && s.ops[id].stage.Waiting?
    ensures || (exists i :: 0 <= i < |s.ops[id].waits| && s.ops[id].waits[i].Armed?)
            || CanStep(s)
  {
    hide OpsOk, ReadyOk, InflightOk, CountOk, DestroyOk, WorkerOk, WakeOk;
    var op := s.ops[id];
    OpAt(s, id);
    NonePending(op.waits);
    var i :| 0 <= i < |op.waits| && !op.waits[i].Accounted?;
    match op.waits[i]
    case Unarmed => RegisterStep(s, id);
    case Armed =>
    case Fired(_) => assert Enabled(s, Note(id, i));
    case RegFailed => assert Enabled(s, Note(id, i));
    case Noted(_) => assert Enabled(s, Settle(id, i));
    case Cancelled =>
      CancelledUpdate(op.waits, i, Armed);
      Walker(s, id);
      WalkStep(s);
  }

  lemma RegisterStep(s: State, id: OpId)
    requires id in s.ops && WaitsOk(s.ops[id]) && s.ops[id].stage.Waiting?
    requires exists i :: 0 <= i < |s.ops[id].waits| && s.ops[id].waits[i].Unarmed?
    ensures CanStep(s)
  {
    hide Pending, CountCancelled;
    var op := s.ops[id];
    assert op.armed < |op.waits|;
    var step := if op.waits[op.armed].Unarmed? then Register(id, true)
                else if op.waits[op.armed].RegFailed? then Note(id, op.armed) else Settle(id, op.armed);
    assert Enabled(s, step);
  }

  lemma Walker(s: State, id: OpId)
    requires DestroyOk(s) && id in s.ops && s.ops[id].won > 0
    ensures s.destroyer.Walk?
  {
    hide IsSegment, IsList;
  }

  lemma ChainStep(s: State, id: OpId)
    requires Inv(s) && id in s.ops && s.ops[id].stage.Chained?
    ensures CanStep(s)
  {
    hide OpsOk, ReadyOk, InflightOk, CountOk, WorkerOk, WakeOk, IsList;
    assert id in Chain(s);
    if s.destroyer.Walk? {
      WalkStep(s);
    } else {
      assert ChainIn(s);
      assert Enabled(s, if s.destroyer.loaded then DestroyCas else DestroyLoadHead);
    }
  }

  lemma WorkerStep(s: State, id: OpId)
    requires Inv(s) && id in s.ops && Pushed(s.ops[id]) && !s.ops[id].stage.Released?
    ensures CanStep(s)
  {
    hide OpsOk, InflightOk, CountOk, DestroyOk, WakeOk, WorkerOk, ReadyOk;
    match s.worker
    case Top => assert Enabled(s, WorkerLoadShutdown);
    case Exchange(_) => ReadyEnables(s);
    case CheckDrain(_) => assert Enabled(s, WorkerCheckDrain);
    case Prepare(_) => assert Enabled(s, WorkerPrepare);
    case Prepared(_, _) => assert Enabled(s, WorkerLoadHead);
    case HeadSeen(_, _, _) => assert Enabled(s, WorkerRecheckShutdown);
    case Asleep(_, _) => AsleepStep(s, id);
    case NextOp => ReadyEnables(s);
    case Processing(_, _) =>
      CurrentOp(s);
      assert Enabled(s, WorkerProcess(true));
    case Exited =>
      ExitedDrained(s);
      NobodyLive(s);
  }

  lemma ReadyEnables(s: State)
    requires ReadyOk(s) && (s.worker.Exchange? || s.worker.NextOp?)
    ensures CanStep(s)
  {
    hide LogsOk;
    assert forall k :: 0 <= k < |s.batch| ==> s.batch[k] in s.batch;
    assert Enabled(s, if s.worker.Exchange? then WorkerExchange(s.stack) else WorkerNext);
  }

  lemma ExitedDrained(s: State)
    requires WorkerOk(s) && DestroyOk(s) && s.worker.Exited?
    ensures s.inflightCount == 0
  {
    hide IsSegment, IsList, NoDup;
  }

  lemma AsleepStep(s: State, id: OpId)
    requires ReadyOk(s) && WakeOk(s) && WorkerOk(s) && s.worker.Asleep?
    requires id in s.ops && Pushed(s.ops[id]) && !s.ops[id].stage.Released?
    ensures CanStep(s)
  {
    hide ReadyOk, WakeOk, WorkerOk, Enabled, Apply;
    BatchEmpty(s);
    AsleepNotCurrent(s, id);
    StackHolds(s, id);
    OwedPostWakes(s);
  }

  lemma AsleepNotCurrent(s: State, id: OpId)
    requires WorkerOk(s) && s.worker.Asleep? && id in s.ops
    ensures !s.ops[id].stage.Current?
  {
  }

  lemma StackHolds(s: State, id: OpId)
    requires ReadyOk(s) && s.batch == [] && id in s.ops
    requires Pushed(s.ops[id]) && !s.ops[id].stage.Released? && !s.ops[id].stage.Current?
    ensures s.head.Some?
  {
    assert id in s.pushLog && id !in s.procLog;
    assert id in Reverse(s.stack);
  }
}
