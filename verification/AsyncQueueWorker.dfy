/** Steps of the worker and of the shutdown walk preserve the queue invariant. */
module AsyncQueueWorker {
  import opened Common
  import opened AsyncQueue
  import opened AsyncQueueInvariant
  import opened AsyncQueueSteps

  // ---- the worker

  lemma {:induction false} ListUnique(h: Option<OpId>, ops: map<OpId, Op>, a: seq<OpId>, b: seq<OpId>)
    requires IsList(h, ops, a) && IsList(h, ops, b)
    ensures a == b
    decreases |a|
  {
    if a != [] && b != [] {
      ListTail(h, ops, a);
      ListTail(h, ops, b);
      ListUnique(ops[a[0]].next, ops, a[1..], b[1..]);
      assert a == [a[0]] + a[1..] && b == [b[0]] + b[1..];
    }
  }

  lemma ListTail(h: Option<OpId>, ops: map<OpId, Op>, a: seq<OpId>)
    requires IsList(h, ops, a) && a != []
    ensures IsList(ops[a[0]].next, ops, a[1..])
  {
    assert ops[a[0]].next == After(a, 0);
    forall k | 0 <= k < |a[1..]|
      ensures ops[a[1..][k]].next == After(a[1..], k)
    {
      assert a[1..][k] == a[k + 1] && After(a[1..], k) == After(a, k + 1);
    }
  }

  /** Steps of the worker that touch neither ops nor lists. */
  lemma WorkerIdleKeeps(s: State, step: Step)
    requires Inv(s) && Enabled(s, step)
    requires || step.WorkerLoadShutdown? || step.WorkerCheckDrain? || step.WorkerPrepare? || step.WorkerLoadHead?
             || step.WorkerRecheckShutdown? || step.WorkerWake?
             || (step.WorkerNext? && s.batch == []) || (step.WorkerExchange? && step.chain == [])
    ensures Inv(Apply(s, step))
  {
    hide OpsOk, ReadyOk, InflightOk, CountOk, DestroyOk, WorkerOk, WakeOk, OpOk, PhaseOk, PostOwed, IsList;
    var s' := Apply(s, step);
    assert s' == s.(worker := s'.worker);
    WorkerIdleOk(s, step);
    OpsFrame(s, s');
    ReadyFrame(s, s');
    InflightFrame(s, s');
    CountFrame(s, s');
    DestroyFrame(s, s');
  }

  lemma OpsFrame(s: State, s': State)
    requires OpsOk(s) && s'.ops == s.ops
    ensures OpsOk(s')
  {
  }

  lemma WorkerIdleOk(s: State, step: Step)
    requires WorkerOk(s) && WakeOk(s) && DestroyOk(s) && Enabled(s, step)
    requires || step.WorkerLoadShutdown? || step.WorkerCheckDrain? || step.WorkerPrepare? || step.WorkerLoadHead?
             || step.WorkerRecheckShutdown? || step.WorkerWake?
             || (step.WorkerNext? && s.batch == []) || (step.WorkerExchange? && step.chain == [])
    ensures WorkerOk(Apply(s, step)) && WakeOk(Apply(s, step))
  {
    hide PhaseOk, NoDup, IsSegment, IsList, NoEnqueueRunning;
  }

  lemma ExchangeReady(s: State, chain: seq<OpId>)
    requires ReadyOk(s) && s.worker.Exchange? && s.batch == [] && IsList(s.head, s.ops, chain) && chain != []
    ensures chain == s.stack
    ensures ReadyOk(Apply(s, WorkerExchange(chain)))
  {
    hide LogsOk, StagesOk;
    ListUnique(s.head, s.ops, chain, s.stack);
    ExchangeStages(s, chain);
    ExchangeLogs(s, chain);
  }

  lemma ExchangeLogs(s: State, chain: seq<OpId>)
    requires LogsOk(s) && s.worker.Exchange? && s.batch == [] && chain == s.stack && chain != []
    requires IsList(s.head, s.ops, chain)
    ensures LogsOk(Apply(s, WorkerExchange(chain)))
  {
    hide IsList;
    assert Reverse<OpId>([]) == [];
    assert s.procLog + s.batch + Reverse(s.stack) == s.procLog + Reverse(s.stack) + [];
  }

  lemma ExchangeStages(s: State, chain: seq<OpId>)
    requires StagesOk(s) && LogsOk(s) && s.worker.Exchange? && s.batch == [] && chain == s.stack && chain != []
    requires IsList(s.head, s.ops, chain)
    ensures StagesOk(Apply(s, WorkerExchange(chain)))
  {
    hide IsList, LogsOk, NoDup;
    assert forall x :: x in Reverse(chain) ==> x in chain;
  }

  lemma ExchangeOps(s: State, chain: seq<OpId>)
    requires OpsOk(s) && forall id :: id in chain ==> id in s.ops && s.ops[id].stage.Ready?
    ensures forall id :: id in s.ops ==> OpOk(SetStages(s.ops, chain, Batched)[id])
  {
    forall id | id in s.ops
      ensures OpOk(SetStages(s.ops, chain, Batched)[id])
    {
      assert OpOk(s.ops[id]);
    }
  }

  lemma ExchangeKeeps(s: State, chain: seq<OpId>)
    requires Inv(s) && Enabled(s, WorkerExchange(chain)) && chain != []
    ensures Inv(Apply(s, WorkerExchange(chain)))
  {
    hide OpsOk, InflightOk, CountOk, DestroyOk, WorkerOk, WakeOk, OpOk, PhaseOk, PostOwed, IsList, ReadyOk;
    var s' := Apply(s, WorkerExchange(chain));
    BatchEmpty(s);
    ExchangeReady(s, chain);
    StackReady(s);
    ExchangeOps(s, chain);
    assert s'.ops == SetStages(s.ops, chain, Batched);
    hide Apply, Enabled;
    AllOps(s');
    InflightFrame(s, s');
    CountFrame(s, s');
    DestroyFrame(s, s');
    ExchangeWorker(s, s');
  }

  lemma BatchEmpty(s: State)
    requires WorkerOk(s) && !s.worker.NextOp? && !s.worker.Processing?
    ensures s.batch == []
  {
  }

  lemma AllOps(s: State)
    requires forall id :: id in s.ops ==> OpOk(s.ops[id])
    ensures OpsOk(s)
  {
  }

  lemma StackReady(s: State)
    requires ReadyOk(s)
    ensures forall id :: id in s.stack ==> id in s.ops && s.ops[id].stage.Ready?
  {
  }

  lemma ExchangeWorker(s: State, s': State)
    requires WorkerOk(s) && WakeOk(s) && s.worker.Exchange? && s'.worker.NextOp? && s'.shutdown == s.shutdown
    requires s'.ops.Keys == s.ops.Keys
    requires forall id :: id in s.ops ==> s'.ops[id].stage.Current? == s.ops[id].stage.Current?
    ensures WorkerOk(s') && WakeOk(s')
  {
  }

  lemma NextReady(s: State, s': State)
    requires ReadyOk(s) && s.batch != [] && s.batch[0] in s.ops
    requires s'.ops == s.ops[s.batch[0] := s.ops[s.batch[0]].(stage := Current)]
    requires s'.procLog == s.procLog + [s.batch[0]] && s'.batch == s.batch[1..]
    requires s'.pushLog == s.pushLog && s'.stack == s.stack && s'.head == s.head
    ensures ReadyOk(s')
    ensures s.ops[s.batch[0]].stage.Batched?
  {
    hide LogsOk, IsList, StagesOk;
    NextLogs(s, s');
    NextStages(s, s');
    assert IsList(s'.head, s'.ops, s'.stack) by { SameLinks(s.head, s.ops, s'.ops, s.stack); }
  }

  lemma SameLinks(h: Option<OpId>, ops: map<OpId, Op>, ops': map<OpId, Op>, c: seq<OpId>)
    requires IsList(h, ops, c) && forall id :: id in ops ==> id in ops' && ops'[id].next == ops[id].next
    ensures IsList(h, ops', c)
  {
  }

  lemma NextStages(s: State, s': State)
    requires StagesOk(s) && s.batch != []
    requires s.batch[0] in s.ops && s'.ops == s.ops[s.batch[0] := s.ops[s.batch[0]].(stage := Current)]
    requires s'.procLog == s.procLog + [s.batch[0]] && s'.batch == s.batch[1..] && s.batch[0] !in s'.batch
    requires s'.pushLog == s.pushLog && s'.stack == s.stack
    ensures StagesOk(s') && s.ops[s.batch[0]].stage.Batched?
  {
    assert s.batch[0] in s.batch;
    assert forall id :: id in s'.batch ==> id in s.batch;
  }

  lemma NextLogs(s: State, s': State)
    requires LogsOk(s) && s.batch != []
    requires s'.procLog == s.procLog + [s.batch[0]] && s'.batch == s.batch[1..]
    requires s'.pushLog == s.pushLog && s'.stack == s.stack
    ensures LogsOk(s') && s.batch[0] !in s'.batch
  {
    hide Reverse;
    assert s.procLog + s.batch == s'.procLog + s'.batch;
    var p := |s.procLog|;
    assert s.pushLog[p] == s.batch[0];
    forall k | 0 <= k < |s'.batch|
      ensures s'.batch[k] != s.batch[0]
    {
      assert s'.batch[k] == s.pushLog[p + 1 + k];
    }
  }

  lemma NextKeeps(s: State)
    requires Inv(s) && Enabled(s, WorkerNext) && s.batch != []
    ensures Inv(Apply(s, WorkerNext))
  {
    hide OpsOk, InflightOk, CountOk, DestroyOk, WorkerOk, WakeOk, OpOk, PhaseOk, PostOwed, IsList, ReadyOk;
    var s' := Apply(s, WorkerNext);
    var id := s.batch[0];
    assert s'.ops == s.ops[id := s.ops[id].(stage := Current)];
    NextReady(s, s');
    OpAt(s, id);
    StartedOp(s.ops[id]);
    OpSet(s, s', id);
    InflightFrame(s, s');
    CountFrame(s, s');
    DestroyFrame(s, s');
    StartedWorker(s);
  }

  lemma StartedOp(op: Op)
    requires OpOk(op) && op.stage.Batched?
    ensures OpOk(op.(stage := Current)) && PhaseOk(op.(stage := Current), LoadError)
  {
  }

  lemma StartedWorker(s: State)
    requires WorkerOk(s) && WakeOk(s) && Enabled(s, WorkerNext) && s.batch != []
    requires PhaseOk(s.ops[s.batch[0]].(stage := Current), LoadError)
    ensures WorkerOk(Apply(s, WorkerNext)) && WakeOk(Apply(s, WorkerNext))
  {
    hide PhaseOk, PostOwed;
  }

  /** The op after one stage of the worker's treatment, whatever the calls return. */
  lemma TreatedOp(op: Op, phase: Phase, ok: bool)
    requires OpOk(op) && op.stage.Current? && PhaseOk(op, phase)
    ensures OpOk(Treated(op, phase, ok))
    ensures !phase.Uncount? ==> PhaseOk(Treated(op, phase, ok), NextPhase(op, phase, ok))
  {
    CleanIfNoError(op);
    TreatedWaits(op, phase, ok);
    hide WaitsOk;
    assert CleanWaits(op) ==> CleanWaits(Treated(op, phase, ok));
    hide CleanWaits;
  }

  lemma TreatedWaits(op: Op, phase: Phase, ok: bool)
    requires WaitsOk(op) && op.stage.Current?
    ensures WaitsOk(Treated(op, phase, ok))
  {
    hide Pending, CountCancelled;
    var r := Treated(op, phase, ok);
    assert r.waits == op.waits && LoopOk(r);
  }

  /** An op that reached the worker with no error recorded has only clean waits. */
  lemma CleanIfNoError(op: Op)
    requires WaitsOk(op) && op.stage.Current?
    ensures !op.error ==> CleanWaits(op)
  {
    NonePending(op.waits);
    if !op.error {
      forall i | 0 <= i < |op.waits| ensures op.waits[i] == Accounted(true) {
        assert !Bad(op.waits[i]);
      }
    }
  }

  lemma ProcessKeeps(s: State, ok: bool)
    requires Inv(s) && Enabled(s, WorkerProcess(ok))
    ensures Inv(Apply(s, WorkerProcess(ok)))
  {
    hide OpsOk, InflightOk, DestroyOk, WakeOk, OpOk, PhaseOk, PostOwed, ReadyOk, WorkerOk, CountOk;
    var id, phase := s.worker.id, s.worker.phase;
    var s' := Process(s, id, phase, ok);
    assert s' == Apply(s, WorkerProcess(ok));
    hide Apply, Enabled;
    OpAt(s, id);
    CurrentOp(s);
    TreatedOp(s.ops[id], phase, ok);
    TreatedSame(s.ops[id], phase, ok);
    ProcessCount(s, id, phase, ok);
    ProcessWorker(s, ok);
    hide Treated, NextPhase;
    ProcessFrames(s, s', id);
  }

  lemma ProcessFrames(s: State, s': State, id: OpId)
    requires Inv(s) && id in s.ops && id in s'.ops && OpOk(s'.ops[id])
    requires s' == s.(ops := s.ops[id := s'.ops[id]], inflightCount := s'.inflightCount, worker := s'.worker)
    requires s'.inflightCount == s.inflightCount || 0 <= s'.inflightCount < s.inflightCount
    requires SameReady(s.ops[id], s'.ops[id]) && SameDestroy(s.ops[id], s'.ops[id])
    requires OnInflight(s.ops[id]) == OnInflight(s'.ops[id])
    requires CountOk(s') && WorkerOk(s') && WakeOk(s')
    ensures Inv(s')
  {
    hide OpsOk, InflightOk, DestroyOk, WakeOk, OpOk, ReadyOk, WorkerOk, CountOk;
    OpSet(s, s', id);
    ReadyFrame(s, s');
    InflightFrame(s, s');
    DestroyFrame(s, s');
  }

  lemma TreatedSame(op: Op, phase: Phase, ok: bool)
    requires op.stage.Current?
    ensures SameReady(op, Treated(op, phase, ok)) && SameDestroy(op, Treated(op, phase, ok))
    ensures OnInflight(op) == OnInflight(Treated(op, phase, ok))
    ensures Treated(op, phase, ok).stage == if phase.Uncount? then Released else Current
  {
  }

  lemma CurrentOp(s: State)
    requires WorkerOk(s) && s.worker.Processing?
    ensures s.worker.id in s.ops && s.ops[s.worker.id].stage.Current? && PhaseOk(s.ops[s.worker.id], s.worker.phase)
  {
  }

  lemma ProcessCount(s: State, id: OpId, phase: Phase, ok: bool)
    requires CountOk(s) && id in s.ops && s.ops[id].stage.Current?
    ensures CountOk(Process(s, id, phase, ok))
    ensures Process(s, id, phase, ok).inflightCount == s.inflightCount
            || 0 <= Process(s, id, phase, ok).inflightCount < s.inflightCount
  {
    var s' := Process(s, id, phase, ok);
    TreatedSame(s.ops[id], phase, ok);
    hide Treated;
    if phase.Uncount? {
      assert id in Live(s.ops);
      assert Live(s'.ops) == Live(s.ops) - {id};
    } else {
      CountFrame(s, s');
    }
  }

  lemma ProcessWorker(s: State, ok: bool)
    requires WorkerOk(s) && s.worker.Processing? && s.worker.id in s.ops
    requires var op := s.ops[s.worker.id];
             !s.worker.phase.Uncount? ==> PhaseOk(Treated(op, s.worker.phase, ok), NextPhase(op, s.worker.phase, ok))
    ensures WorkerOk(Process(s, s.worker.id, s.worker.phase, ok))
    ensures WakeOk(Process(s, s.worker.id, s.worker.phase, ok))
  {
    hide PhaseOk;
    TreatedSame(s.ops[s.worker.id], s.worker.phase, ok);
    hide Treated, NextPhase;
  }

  // ---- shutdown

  /** Shutdown steps that touch neither ops nor lists. */
  lemma DestroyOnly(s: State, s': State)
    requires Inv(s) && s' == s.(destroyer := s'.destroyer, shutdown := s'.shutdown, epoch := s'.epoch)
    requires s.shutdown ==> s'.shutdown
    requires DestroyOk(s') && WakeOk(s')
    ensures Inv(s')
  {
    hide OpsOk, InflightOk, DestroyOk, WakeOk, ReadyOk, WorkerOk, CountOk;
    OpsFrame(s, s');
    ReadyFrame(s, s');
    InflightFrame(s, s');
    CountFrame(s, s');
    WorkerFrame(s, s');
  }

  lemma DestroyLockKeeps(s: State)
    requires Inv(s) && Enabled(s, DestroyLock)
    ensures Inv(Apply(s, DestroyLock))
  {
    hide OpsOk, WakeOk, ReadyOk, WorkerOk, CountOk, PostOwed;
    var s' := Apply(s, DestroyLock);
    if PostOwed(s) { PostOwedFrame(s, s'); }
    WakeFrame(s, s');
    assert NoEnqueueRunning(s');
    hide Apply, Enabled, NoEnqueueRunning;
    DestroyOnly(s, s');
  }

  lemma DestroySkipKeeps(s: State)
    requires Inv(s) && Enabled(s, DestroySkip)
    ensures Inv(Apply(s, DestroySkip))
  {
    hide OpsOk, WakeOk, ReadyOk, WorkerOk, CountOk, InflightOk, PostOwed, DestroyOk;
    var s' := Apply(s, DestroySkip);
    if PostOwed(s) { PostOwedFrame(s, s'); }
    WakeFrame(s, s');
    SkipOk(s, s');
    hide Apply, Enabled;
    DestroyOnly(s, s');
  }

  lemma SkipOk(s: State, s': State)
    requires DestroyOk(s) && AtWalk(s) && s.ops[s.destroyer.todo[0]].won == 0
    requires s' == s.(destroyer := Walk(s.destroyer.todo[1..], 0, false, s.destroyer.chain))
    ensures DestroyOk(s')
  {
    hide IsSegment, IsList;
    assert forall id :: id in s'.destroyer.todo ==> id in s.destroyer.todo;
    assert NoEnqueueRunning(s');
    hide NoEnqueueRunning;
  }

  predicate Late(step: Step)
  {
    || step.DestroyUnlock? || step.DestroyPostChain? || step.DestroyDrained?
    || step.DestroySetShutdown? || step.DestroyPostShutdown? || step.DestroyJoin?
  }

  /** The walk is over: only the flag, the notification and the shutdown thread itself change. */
  lemma LateOk(s: State, step: Step)
    requires DestroyOk(s) && Enabled(s, step) && Late(step)
    ensures DestroyOk(Apply(s, step))
  {
    hide IsSegment, IsList, NoDup;
    var s' := Apply(s, step);
    assert s'.ops == s.ops && Chain(s') == Chain(s);
    assert NoEnqueueRunning(s) ==> NoEnqueueRunning(s');
    hide NoEnqueueRunning;
  }

  lemma LateKeeps(s: State, step: Step)
    requires Inv(s) && Enabled(s, step) && Late(step)
    ensures Inv(Apply(s, step))
  {
    hide OpsOk, InflightOk, DestroyOk, WakeOk, PostOwed, ReadyOk, WorkerOk, CountOk;
    var s' := Apply(s, step);
    LateOk(s, step);
    if step.DestroyPostChain? || step.DestroyPostShutdown? {
      WakeAfterPost(s, s');
    } else if step.DestroySetShutdown? {
      ShutdownOwed(s');
      WakeByPost(s, s');
    } else {
      if PostOwed(s) { PostOwedFrame(s, s'); }
      WakeFrame(s, s');
    }
    assert s' == s.(destroyer := s'.destroyer, shutdown := s'.shutdown, epoch := s'.epoch);
    assert s.shutdown ==> s'.shutdown;
    hide Apply, Enabled;
    DestroyOnly(s, s');
  }

  lemma ShutdownOwed(s: State)
    requires s.destroyer.PostShutdown? || s.destroyer.PostChain?
    ensures PostOwed(s)
  {
  }

  /** A change to the op the walk is at, made before any of its waits is accounted. */
  lemma WalkChange(s: State, s': State, id: OpId)
    requires Inv(s) && AtWalk(s) && id == s.destroyer.todo[0] && id in s'.ops && OpOk(s'.ops[id])
    requires s'.destroyer.Walk? && s'.destroyer.todo == s.destroyer.todo && s'.destroyer.chain == s.destroyer.chain
    requires s' == s.(ops := s.ops[id := s'.ops[id]], destroyer := s'.destroyer)
    requires var a, b := s.ops[id], s'.ops[id];
             && a.stage.Waiting? && b.stage.Waiting? && b.armed == a.armed && |b.waits| == |a.waits|
             && b.owesPost == a.owesPost && (s'.destroyer.noted ==> b.error)
    ensures Inv(s')
  {
    hide OpsOk, InflightOk, DestroyOk, WakeOk, OpOk, PhaseOk, PostOwed, ReadyOk, WorkerOk, CountOk;
    OpSet(s, s', id);
    WalkDestroy(s, s');
    hide AtWalk;
    ReadyFrame(s, s');
    InflightFrame(s, s');
    CountFrame(s, s');
    WorkerFrame(s, s');
    if PostOwed(s) { PostOwedFrame(s, s'); }
    WakeFrame(s, s');
  }

  lemma WalkDestroy(s: State, s': State)
    requires DestroyOk(s) && AtWalk(s)
    requires s'.destroyer.Walk? && s'.destroyer.todo == s.destroyer.todo && s'.destroyer.chain == s.destroyer.chain
    requires s'.ops.Keys == s.ops.Keys && s'.inflight == s.inflight && s'.shutdown == s.shutdown
    requires forall id :: id in s.ops && id != s.destroyer.todo[0] ==> s'.ops[id] == s.ops[id]
    requires var a, b := s.ops[s.destroyer.todo[0]], s'.ops[s.destroyer.todo[0]];
             && !a.stage.Chained? && !b.stage.Chained? && !b.stage.New?
             && b.armed == a.armed && |b.waits| == |a.waits| && (s'.destroyer.noted ==> b.error)
    ensures DestroyOk(s')
  {
    ChainKept(s, s');
    hide IsSegment, IsList;
  }

  lemma WalkAt(s: State)
    requires DestroyOk(s) && InflightOk(s) && AtWalk(s)
    ensures OnInflight(s.ops[s.destroyer.todo[0]])
    ensures s.ops[s.destroyer.todo[0]].armed == |s.ops[s.destroyer.todo[0]].waits|
  {
    hide IsSegment, IsList;
    assert s.destroyer.todo[0] in s.destroyer.todo;
  }

  lemma WalkNoted(s: State)
    requires DestroyOk(s) && AtWalk(s)
    ensures s.destroyer.noted ==> s.ops[s.destroyer.todo[0]].error
  {
    hide IsSegment, IsList;
  }

  lemma CancelKeeps(s: State)
    requires Inv(s) && Enabled(s, DestroyCancel)
    ensures Inv(Apply(s, DestroyCancel))
  {
    hide OpsOk, InflightOk, DestroyOk, WakeOk, OpOk, PhaseOk, PostOwed, ReadyOk, WorkerOk, CountOk;
    var s' := Apply(s, DestroyCancel);
    var op := s.ops[s.destroyer.todo[0]];
    OpAt(s, s.destroyer.todo[0]);
    if op.waits[s.destroyer.i].Armed? {
      CancelOp(op, s.destroyer.i);
      WalkAt(s);
      OpenWait(op, s.destroyer.i);
      WalkNoted(s);
      WalkChange(s, s', s.destroyer.todo[0]);
    } else {
      OpsFrame(s, s');
      ReadyFrame(s, s');
      InflightFrame(s, s');
      CountFrame(s, s');
      WorkerFrame(s, s');
      WalkAt(s);
      WalkNoted(s);
      WalkDestroy(s, s');
      if PostOwed(s) { PostOwedFrame(s, s'); }
      WakeFrame(s, s');
    }
  }

  lemma DestroyNoteKeeps(s: State)
    requires Inv(s) && Enabled(s, DestroyNote)
    ensures Inv(Apply(s, DestroyNote))
  {
    hide OpsOk, InflightOk, DestroyOk, WakeOk, PhaseOk, PostOwed, ReadyOk, WorkerOk, CountOk;
    var s' := Apply(s, DestroyNote);
    OpAt(s, s.destroyer.todo[0]);
    WalkChange(s, s', s.destroyer.todo[0]);
  }
}
