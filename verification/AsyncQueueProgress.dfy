/** The shutdown walk leaves no timepoint armed, so destroy never depends on a semaphore. */
module AsyncQueueProgress {
  import opened Common
  import opened AsyncQueue
  import opened AsyncQueueInvariant
  import opened AsyncQueueSteps
  import opened AsyncQueueWorker
  import opened AsyncQueueTheorems
  import opened AsyncQueueOutcomes
  import AsyncQueueCancel

  /** An armed wait of an op is one the walk has yet to come to. */
  ghost predicate Ahead(d: Destroyer, id: OpId, waits: seq<Wait>)
  {
    forall j :: 0 <= j < |waits| && waits[j].Armed? ==>
      d.Walk? && id in d.todo && (d.todo[0] == id ==> d.i <= j)
  }

  ghost predicate ArmedAhead(s: State)
  {
    !s.destroyer.Idle? ==> forall id :: id in s.ops ==> Ahead(s.destroyer, id, s.ops[id].waits)
  }

  predicate NoArmed(waits: seq<Wait>)
  {
    forall j :: 0 <= j < |waits| ==> !waits[j].Armed?
  }

  /** Nothing gets armed. */
  ghost predicate FewerArmed(a: seq<Wait>, b: seq<Wait>)
  {
    |b| == |a| && forall j :: 0 <= j < |b| && b[j].Armed? ==> a[j].Armed?
  }

  // ---- steps

  lemma LockAhead(s: State)
    requires Inv(s) && Enabled(s, DestroyLock)
    ensures ArmedAhead(Apply(s, DestroyLock))
  {
    hide ReadyOk, CountOk, DestroyOk, WorkerOk, WakeOk;
    forall id | id in s.ops
      ensures Ahead(Walk(s.inflight, 0, false, []), id, s.ops[id].waits)
    {
      OpAt(s, id);
      hide OpsOk;
      var op := s.ops[id];
      forall j | 0 <= j < |op.waits| && op.waits[j].Armed?
        ensures id in s.inflight
      {
        OpenWait(op, j);
      }
    }
  }

  /** While destroy runs nothing is registered, so the other parties only disarm. */
  lemma EnqueueDisarms(s: State, step: Step, id: OpId)
    requires NoEnqueueRunning(s) && Enabled(s, step) && EnqueueSide(step) && !step.Accept?
    requires id in s.ops && id in Apply(s, step).ops
    ensures FewerArmed(s.ops[id].waits, Apply(s, step).ops[id].waits)
  {
    hide Without;
    var op := s.ops[id];
    assert op.armed == |op.waits|;
    hide NoEnqueueRunning;
  }

  lemma OthersAhead(s: State, step: Step)
    requires Inv(s) && Enabled(s, step) && (WorkerSide(step) || EnqueueSide(step)) && ArmedAhead(s)
    ensures ArmedAhead(Apply(s, step))
  {
    var s' := Apply(s, step);
    AsyncQueueCancel.OthersKeepDestroyer(s, step);
    NoneRunning(s, step);
    if !s.destroyer.Idle? {
      KeysKept(s, step);
      hide Inv, Enabled, Apply, NoEnqueueRunning;
      forall id | id in s'.ops
        ensures Ahead(s'.destroyer, id, s'.ops[id].waits)
      {
        assert Ahead(s.destroyer, id, s.ops[id].waits);
        if WorkerSide(step) {
          WorkerWaits(s, step, id);
        } else {
          EnqueueDisarms(s, step, id);
        }
      }
    }
  }

  lemma NoneRunning(s: State, step: Step)
    requires DestroyOk(s) && Enabled(s, step)
    ensures !s.destroyer.Idle? ==> NoEnqueueRunning(s) && !step.Accept?
  {
    hide IsList, IsSegment, NoDup, NoEnqueueRunning;
  }

  lemma KeysKept(s: State, step: Step)
    requires Enabled(s, step) && !step.Accept?
    ensures Apply(s, step).ops.Keys == s.ops.Keys
  {
    hide Enabled, Apply;
    if WorkerSide(step) {
      WorkerKeys(s, step);
    } else if EnqueueSide(step) {
      EnqueueKeys(s, step);
    } else {
      DestroyKeys(s, step);
    }
  }

  lemma CancelAhead(s: State)
    requires Enabled(s, DestroyCancel) && ArmedAhead(s)
    ensures ArmedAhead(Apply(s, DestroyCancel))
  {
    var s' := CancelOne(s);
    forall id | id in s'.ops
      ensures Ahead(s'.destroyer, id, s'.ops[id].waits)
    {
      assert Ahead(s.destroyer, id, s.ops[id].waits);
    }
  }

  /** The op the walk leaves has no armed wait left. */
  lemma LeaveAhead(d: Destroyer, d': Destroyer, id: OpId, waits: seq<Wait>)
    requires d.Walk? && d.todo != [] && d'.Walk? && d'.todo == d.todo[1..] && d'.i == 0
    requires Ahead(d, id, waits) && (id == d.todo[0] ==> d.i >= |waits|)
    ensures Ahead(d', id, waits)
  {
  }

  lemma SettleAhead(s: State)
    requires Enabled(s, DestroySettle) && ArmedAhead(s)
    ensures ArmedAhead(Apply(s, DestroySettle))
  {
    hide Without;
    var s' := SettleCancelled(s);
    forall id | id in s'.ops
      ensures Ahead(s'.destroyer, id, s'.ops[id].waits)
    {
      assert Ahead(s.destroyer, id, s.ops[id].waits);
      LeaveAhead(s.destroyer, s'.destroyer, id, s.ops[id].waits);
      assert FewerArmed(s.ops[id].waits, s'.ops[id].waits);
    }
  }

  lemma SkipAhead(s: State)
    requires Enabled(s, DestroySkip) && ArmedAhead(s)
    ensures ArmedAhead(Apply(s, DestroySkip))
  {
    var s' := Apply(s, DestroySkip);
    forall id | id in s'.ops
      ensures Ahead(s'.destroyer, id, s'.ops[id].waits)
    {
      LeaveAhead(s.destroyer, s'.destroyer, id, s.ops[id].waits);
    }
  }

  lemma NoteAhead(s: State)
    requires Enabled(s, DestroyNote) && ArmedAhead(s)
    ensures ArmedAhead(Apply(s, DestroyNote))
  {
    var s' := Apply(s, DestroyNote);
    forall id | id in s'.ops
      ensures Ahead(s'.destroyer, id, s'.ops[id].waits)
    {
      assert Ahead(s.destroyer, id, s.ops[id].waits);
    }
  }

  /** No op has an armed wait. */
  ghost predicate AllDisarmed(s: State)
  {
    forall id :: id in s.ops ==> NoArmed(s.ops[id].waits)
  }

  /** The walk is over. */
  predicate PastWalk(d: Destroyer)
  {
    !d.Idle? && !d.Walk?
  }

  lemma WalkedDisarmed(s: State)
    requires ArmedAhead(s) && (PastWalk(s.destroyer) || (s.destroyer.Walk? && s.destroyer.todo == []))
    ensures AllDisarmed(s)
  {
    forall id | id in s.ops
      ensures NoArmed(s.ops[id].waits)
    {
      assert Ahead(s.destroyer, id, s.ops[id].waits);
    }
  }

  lemma DisarmedAhead(s: State)
    requires AllDisarmed(s)
    ensures ArmedAhead(s)
  {
    forall id | id in s.ops
      ensures Ahead(s.destroyer, id, s.ops[id].waits)
    {
      assert NoArmed(s.ops[id].waits);
    }
  }

  lemma LateStart(s: State, step: Step)
    requires Enabled(s, step) && (Late(step) || step.DestroyLoadHead? || step.DestroyCas?)
    ensures PastWalk(s.destroyer) || (s.destroyer.Walk? && s.destroyer.todo == [])
  {
    hide ChainIn;
  }

  lemma ChainCasDisarmed(s: State)
    requires Enabled(s, DestroyCas) && AllDisarmed(s)
    ensures AllDisarmed(Apply(s, DestroyCas))
  {
    hide Reverse, NoArmed;
    var s' := Apply(s, DestroyCas);
    forall id | id in s'.ops
      ensures id in s.ops && s'.ops[id].waits == s.ops[id].waits
    {
    }
  }

  lemma ChainLoadDisarmed(s: State)
    requires Enabled(s, DestroyLoadHead) && AllDisarmed(s)
    ensures AllDisarmed(Apply(s, DestroyLoadHead))
  {
    hide NoArmed;
  }

  /** After the walk there is nothing armed, and nothing is going to be. */
  lemma PastAhead(s: State, step: Step)
    requires Enabled(s, step) && ArmedAhead(s) && (Late(step) || step.DestroyLoadHead? || step.DestroyCas?)
    ensures ArmedAhead(Apply(s, step))
  {
    hide Enabled, Apply, ArmedAhead;
    LateStart(s, step);
    WalkedDisarmed(s);
    if step.DestroyCas? {
      ChainCasDisarmed(s);
    } else if step.DestroyLoadHead? {
      ChainLoadDisarmed(s);
    } else {
      LateSame(s, step);
    }
    DisarmedAhead(Apply(s, step));
  }

  lemma StepAhead(s: State, step: Step)
    requires Inv(s) && Enabled(s, step) && ArmedAhead(s)
    ensures ArmedAhead(Apply(s, step))
  {
    hide Inv, Enabled, Apply, ArmedAhead;
    match step
    case DestroyLock => LockAhead(s);
    case DestroyCancel => CancelAhead(s);
    case DestroyNote => NoteAhead(s);
    case DestroySettle => SettleAhead(s);
    case DestroySkip => SkipAhead(s);
    case _ => if WorkerSide(step) || EnqueueSide(step) { OthersAhead(s, step); } else { PastAhead(s, step); }
  }

  lemma {:induction false} RunAhead(trace: seq<State>, steps: seq<Step>, k: nat)
    requires Run(trace, steps) && k < |trace|
    ensures ArmedAhead(trace[k])
  {
    hide Inv, Enabled, Apply;
    if k > 0 {
      hide ArmedAhead;
      RunInv(trace, steps, k - 1);
      RunAhead(trace, steps, k - 1);
      StepAhead(trace[k - 1], steps[k - 1]);
    }
  }

  // ---- theorems

  /** In every state after the shutdown walk no wait of any op is armed. */
  lemma WalkDisarms(trace: seq<State>, steps: seq<Step>, k: nat, id: OpId)
    requires Run(trace, steps) && k < |trace| && PastWalk(trace[k].destroyer) && id in trace[k].ops
    ensures NoArmed(trace[k].ops[id].waits)
  {
    hide Run, ArmedAhead, NoArmed;
    RunAhead(trace, steps, k);
    WalkedDisarmed(trace[k]);
  }

  /** Once destroy has begun, an unreleased op never waits for a semaphore: some party can take a step. */
  lemma UnreleasedStep(trace: seq<State>, steps: seq<Step>, k: nat, id: OpId)
    requires Run(trace, steps) && k < |trace| && id in trace[k].ops && !trace[k].ops[id].stage.Released?
    requires !trace[k].destroyer.Idle?
    ensures CanStep(trace[k])
  {
    hide Run, CanStep;
    if trace[k].destroyer.Walk? {
      RunWalkStep(trace, steps, k);
    } else {
      WalkDisarms(trace, steps, k, id);
      NoDeadlock(trace, steps, k, id);
    }
  }

  lemma RunWalkStep(trace: seq<State>, steps: seq<Step>, k: nat)
    requires Run(trace, steps) && k < |trace| && trace[k].destroyer.Walk?
    ensures CanStep(trace[k])
  {
    hide Run, CanStep, OpsOk, ReadyOk, InflightOk, CountOk, DestroyOk, WorkerOk, WakeOk;
    RunInv(trace, steps, k);
    WalkStep(trace[k]);
  }

  /** Destroy is never stuck: from its first step to its last some party can take a step. */
  lemma DestroyNeverStuck(trace: seq<State>, steps: seq<Step>, k: nat)
    requires Run(trace, steps) && k < |trace| && !trace[k].destroyer.Idle? && !trace[k].destroyer.Done?
    ensures CanStep(trace[k])
  {
    hide Run, Inv, CanStep;
    RunInv(trace, steps, k);
    var s := trace[k];
    if s.destroyer.Walk? {
      RunWalkStep(trace, steps, k);
    } else if s.destroyer.Await? && s.inflightCount != 0 {
      var id := SomeLive(s);
      UnreleasedStep(trace, steps, k, id);
    } else if s.destroyer.Join? {
      JoinStep(s);
    } else {
      DestroyerStep(s);
    }
  }

  lemma SomeLive(s: State) returns (id: OpId)
    requires Inv(s) && s.inflightCount != 0
    ensures id in s.ops && !s.ops[id].stage.Released?
  {
    hide OpsOk, ReadyOk, InflightOk, DestroyOk, WorkerOk, WakeOk;
    id :| id in Live(s.ops);
  }

  lemma DestroyerStep(s: State)
    requires Inv(s) && PastWalk(s.destroyer) && !s.destroyer.Join? && !s.destroyer.Done?
    requires s.destroyer.Await? ==> s.inflightCount == 0
    ensures CanStep(s)
  {
    hide OpsOk, ReadyOk, InflightOk, CountOk, WorkerOk, WakeOk, IsList, IsSegment, NoEnqueueRunning;
    match s.destroyer
    case PushChain(chain, loaded) =>
      assert forall k :: 0 <= k < |chain| ==> chain[k] in Chain(s);
      assert Enabled(s, if loaded then DestroyCas else DestroyLoadHead);
    case PostChain => assert Enabled(s, DestroyPostChain);
    case Await => assert Enabled(s, DestroyDrained);
    case SetShutdown => assert Enabled(s, DestroySetShutdown);
    case PostShutdown => assert Enabled(s, DestroyPostShutdown);
  }

  /** The worker that destroy waits for can be woken and goes on until it returns. */
  lemma JoinStep(s: State)
    requires Inv(s) && s.destroyer.Join?
    ensures CanStep(s)
  {
    hide OpsOk, InflightOk, CountOk, DestroyOk, WakeOk, WorkerOk, ReadyOk;
    match s.worker
    case Top => assert Enabled(s, WorkerLoadShutdown);
    case Exchange(_) => ReadyEnables(s);
    case CheckDrain(_) => assert Enabled(s, WorkerCheckDrain);
    case Prepare(_) => assert Enabled(s, WorkerPrepare);
    case Prepared(_, _) => assert Enabled(s, WorkerLoadHead);
    case HeadSeen(_, _, _) => assert Enabled(s, WorkerRecheckShutdown);
    case Asleep(_, _) =>
      ShutdownSet(s);
      OwedPostWakes(s);
    case NextOp => ReadyEnables(s);
    case Processing(_, _) =>
      CurrentOp(s);
      assert Enabled(s, WorkerProcess(true));
    case Exited => assert Enabled(s, DestroyJoin);
  }

  lemma ShutdownSet(s: State)
    requires DestroyOk(s) && s.destroyer.Join?
    ensures s.shutdown
  {
    hide IsList, IsSegment, NoDup;
  }

  // ---- the end

  /** Steps the worker has left, at most, once shutdown is requested and all ops are released. */
  function StepsLeft(w: Worker): (n: nat)
  {
    match w
    case Exited => 0
    case CheckDrain(sd) => if sd then 1 else 7
    case Exchange(sd) => if sd then 2 else 8
    case Top => 3
    case HeadSeen(_, _, _) => 4
    case Asleep(_, _) => 4
    case NextOp => 4
    case Prepared(_, _) => 5
    case Prepare(_) => 6
    case Processing(_, _) => 9
  }

  /** After shutdown was requested the worker returns: each of its steps brings it nearer to its exit. */
  lemma WorkerReturns(trace: seq<State>, steps: seq<Step>, k: nat)
    requires Run(trace, steps) && k < |steps| && trace[k].shutdown
    ensures StepsLeft(trace[k].worker) <= 8 && (StepsLeft(trace[k].worker) == 0 <==> trace[k].worker.Exited?)
    ensures if WorkerSide(steps[k]) then StepsLeft(trace[k + 1].worker) < StepsLeft(trace[k].worker)
            else trace[k + 1].worker == trace[k].worker
  {
    hide Inv;
    RunInv(trace, steps, k);
    ShutdownSteps(trace[k], steps[k]);
  }

  lemma ShutdownSteps(s: State, step: Step)
    requires Inv(s) && Enabled(s, step) && s.shutdown
    ensures StepsLeft(s.worker) <= 8 && (StepsLeft(s.worker) == 0 <==> s.worker.Exited?)
    ensures if WorkerSide(step) then StepsLeft(Apply(s, step).worker) < StepsLeft(s.worker)
            else Apply(s, step).worker == s.worker
  {
    hide OpsOk, ReadyOk, InflightOk, CountOk, DestroyOk, WorkerOk, WakeOk, Enabled, Apply;
    NothingLeft(s);
    if WorkerSide(step) {
      WorkerNears(s, step);
    } else {
      OthersKeepWorker(s, step);
    }
  }

  lemma NothingLeft(s: State)
    requires Inv(s) && s.shutdown
    ensures s.inflightCount == 0 && !s.worker.Processing? && s.batch == [] && s.stack == []
    ensures s.worker.Prepare? || s.worker.Prepared? || s.worker.HeadSeen? || s.worker.Asleep? ==> !s.worker.sd
  {
    hide OpsOk, InflightOk, WakeOk, IsList, IsSegment, NoDup, PhaseOk, LogsOk, CountOk;
    NobodyLive(s);
    EmptyOrMember(s.stack);
    EmptyOrMember(s.batch);
  }

  lemma OthersKeepWorker(s: State, step: Step)
    requires Enabled(s, step) && !WorkerSide(step)
    ensures Apply(s, step).worker == s.worker
  {
    hide IsList, Reverse, Without, SetStages, NoEnqueueRunning, Registered, NotedOp, Settled;
  }

  lemma EmptyExchange(s: State, chain: seq<OpId>)
    requires IsList(s.head, s.ops, s.stack) && s.stack == [] && Enabled(s, WorkerExchange(chain))
    ensures Apply(s, WorkerExchange(chain)).worker == CheckDrain(s.worker.sd)
  {
    hide SetStages, Reverse;
    assert chain == [];
  }

  lemma WorkerNears(s: State, step: Step)
    requires WorkerOk(s) && ReadyOk(s) && Enabled(s, step) && WorkerSide(step)
    requires s.shutdown && s.inflightCount == 0 && !s.worker.Processing? && s.batch == [] && s.stack == []
    ensures StepsLeft(Apply(s, step).worker) < StepsLeft(s.worker)
  {
    hide PhaseOk, LogsOk, StagesOk, NoDup, Reverse, SetStages, IsList;
    if step.WorkerExchange? {
      hide Apply, WorkerOk;
      EmptyExchange(s, step.chain);
    }
  }

  // ---- rest

  /** Steps the worker has left, at most, before it sleeps, while there is nothing to do. */
  function StepsToSleep(w: Worker): (n: nat)
  {
    match w
    case Asleep(_, _) => 0
    case Exited => 0
    case HeadSeen(_, _, empty) => if empty then 1 else 7
    case Prepared(_, _) => 2
    case Prepare(_) => 3
    case CheckDrain(_) => 4
    case Exchange(_) => 5
    case Top => 6
    case NextOp => 7
    case Processing(_, _) => 8
  }

  /** The worker does not spin: with nothing ready and no shutdown requested, its steps lead to sleep. */
  lemma WorkerRests(trace: seq<State>, steps: seq<Step>, k: nat)
    requires Run(trace, steps) && k < |steps| && WorkerSide(steps[k]) && !steps[k].WorkerWake?
    requires !trace[k].shutdown && trace[k].stack == [] && trace[k].batch == [] && !trace[k].worker.Processing?
    ensures StepsToSleep(trace[k + 1].worker) < StepsToSleep(trace[k].worker)
  {
    hide Inv;
    RunInv(trace, steps, k);
    WorkerSettles(trace[k], steps[k]);
  }

  lemma WorkerSettles(s: State, step: Step)
    requires Inv(s) && Enabled(s, step) && WorkerSide(step) && !step.WorkerWake?
    requires !s.shutdown && s.stack == [] && s.batch == [] && !s.worker.Processing?
    ensures StepsToSleep(Apply(s, step).worker) < StepsToSleep(s.worker)
  {
    hide OpsOk, InflightOk, CountOk, DestroyOk, WakeOk;
    hide PhaseOk, LogsOk, StagesOk, NoDup, Reverse, SetStages, IsList;
    HeadOfEmpty(s);
    if step.WorkerExchange? {
      hide Apply, WorkerOk;
      EmptyExchange(s, step.chain);
    }
  }

  lemma HeadOfEmpty(s: State)
    requires ReadyOk(s)
    ensures IsList(s.head, s.ops, s.stack) && (s.stack == [] ==> s.head == None)
  {
    hide LogsOk, StagesOk;
  }
}
