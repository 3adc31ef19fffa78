/**
 * Posts that come after the queue is gone. A thread that has pushed an op still has to post the worker
 * notification; nothing makes destroy wait for that post. These lemmas say exactly which posts are late.
 */
module AsyncQueueLatePost {
  import opened Common
  import opened AsyncQueue
  import opened AsyncQueueInvariant
  import opened AsyncQueueSteps
  import opened AsyncQueueTheorems

  predicate Owes(s: State, id: OpId)
  {
    id in s.ops && s.ops[id].owesPost
  }

  /** Destroy has seen the queue drained. */
  predicate PastDrain(d: Destroyer)
  {
    d.SetShutdown? || d.PostShutdown? || d.Join? || d.Done?
  }

  /** Nothing is left to do but to shut the worker down, and for posts that are still owed. */
  ghost predicate Winding(s: State)
  {
    PastDrain(s.destroyer) && forall id :: id in s.ops ==> s.ops[id].stage.Released?
  }

  // ---- which steps are left

  lemma NoMoreWork(s: State, step: Step)
    requires Inv(s) && Winding(s) && Enabled(s, step)
    ensures !step.Accept? && !step.Link? && !step.Register? && !step.Fire? && !step.Note? && !step.Settle?
    ensures !step.Splice? && !step.PushLoad? && !step.PushCas?
  {
    hide ReadyOk, InflightOk, CountOk, DestroyOk, WorkerOk, WakeOk, IsList, NoEnqueueRunning, ChainIn;
    if EnqueueSide(step) && !step.Accept? {
      OpAt(s, step.id);
      NonePending(s.ops[step.id].waits);
      hide Pending, CountCancelled, HistoryOk;
    }
  }

  lemma NothingTaken(s: State, step: Step)
    requires ReadyOk(s) && WorkerOk(s) && Winding(s) && Enabled(s, step)
    ensures step.WorkerExchange? ==> step.chain == []
    ensures step.WorkerNext? ==> s.batch == []
    ensures !step.WorkerProcess?
  {
    hide LogsOk, Reverse, PhaseOk;
    EmptyOrMember(s.stack);
    EmptyOrMember(s.batch);
    assert s.stack == [] && s.batch == [] && First(s.stack) == None;
  }

  /** The ops stay as they are, but for a post that is no longer owed. */
  ghost predicate OnlyPosts(s: State, step: Step, s': State)
  {
    && PastDrain(s'.destroyer) && s'.ops.Keys == s.ops.Keys
    && forall id :: id in s.ops ==>
         s'.ops[id].stage == s.ops[id].stage && s'.ops[id].owesPost == (s.ops[id].owesPost && step != Post(id))
  }

  lemma WindingStep(s: State, step: Step)
    requires Inv(s) && Winding(s) && Enabled(s, step)
    ensures OnlyPosts(s, step, Apply(s, step)) && Winding(Apply(s, step))
  {
    hide Enabled, Apply, OpsOk, ReadyOk, InflightOk, CountOk, DestroyOk, WorkerOk, WakeOk, OnlyPosts;
    NoMoreWork(s, step);
    NothingTaken(s, step);
    if WorkerSide(step) {
      WindingWorker(s, step);
      SameOps(s, step, Apply(s, step));
    } else if step.Post? {
      WindingPost(s, step.id);
    } else {
      WindingDestroy(s, step);
      SameOps(s, step, Apply(s, step));
    }
    StillWinding(s, step, Apply(s, step));
  }

  lemma StillWinding(s: State, step: Step, s': State)
    requires Winding(s) && OnlyPosts(s, step, s')
    ensures Winding(s')
  {
  }

  lemma SameOps(s: State, step: Step, s': State)
    requires s'.ops == s.ops && PastDrain(s'.destroyer) && !step.Post?
    ensures OnlyPosts(s, step, s')
  {
  }

  lemma WindingPost(s: State, id: OpId)
    requires Enabled(s, Post(id)) && PastDrain(s.destroyer)
    ensures OnlyPosts(s, Post(id), Apply(s, Post(id)))
  {
  }

  lemma WindingDestroy(s: State, step: Step)
    requires Enabled(s, step) && PastDrain(s.destroyer) && !WorkerSide(step) && !EnqueueSide(step)
    ensures Apply(s, step).ops == s.ops && PastDrain(Apply(s, step).destroyer)
  {
    hide IsList, Reverse, NoEnqueueRunning, ChainIn, Process, SetStages, CancelOne, SettleCancelled;
  }

  lemma WindingWorker(s: State, step: Step)
    requires Enabled(s, step) && WorkerSide(step) && !step.WorkerProcess?
    requires (step.WorkerExchange? ==> step.chain == []) && (step.WorkerNext? ==> s.batch == [])
    ensures Apply(s, step).ops == s.ops && Apply(s, step).destroyer == s.destroyer
  {
    hide IsList, Reverse, SetStages, Process;
  }

  lemma DrainedWinds(s: State)
    requires Inv(s) && Enabled(s, DestroyDrained)
    ensures Winding(Apply(s, DestroyDrained)) && Apply(s, DestroyDrained).ops == s.ops
  {
    hide OpsOk, ReadyOk, InflightOk, CountOk, DestroyOk, WorkerOk, WakeOk;
    NobodyLive(s);
  }

  lemma {:induction false} WindingRun(trace: seq<State>, steps: seq<Step>, j: nat, k: nat)
    requires Run(trace, steps) && j < k < |trace| && steps[j] == DestroyDrained
    ensures Winding(trace[k])
    decreases k
  {
    hide Inv, Enabled, Apply, Winding;
    if k == j + 1 {
      RunInv(trace, steps, j);
      DrainedWinds(trace[j]);
    } else {
      WindingRun(trace, steps, j, k - 1);
      RunInv(trace, steps, k - 1);
      WindingStep(trace[k - 1], steps[k - 1]);
    }
  }

  /** After the drain a post is owed exactly if it was owed at the drain and has not been made since. */
  lemma {:induction false} LatePosts(trace: seq<State>, steps: seq<Step>, j: nat, k: nat, id: OpId)
    requires Run(trace, steps) && j < k < |trace| && steps[j] == DestroyDrained
    ensures Owes(trace[k], id) <==> Owes(trace[j], id) && forall m :: j < m < k ==> steps[m] != Post(id)
    decreases k
  {
    hide Inv, Enabled, Apply, Winding;
    if k == j + 1 {
      RunInv(trace, steps, j);
      DrainedWinds(trace[j]);
    } else {
      LatePosts(trace, steps, j, k - 1, id);
      WindingRun(trace, steps, j, k - 1);
      RunInv(trace, steps, k - 1);
      WindingStep(trace[k - 1], steps[k - 1]);
      assert (forall m :: j < m < k ==> steps[m] != Post(id)) <==>
             (forall m :: j < m < k - 1 ==> steps[m] != Post(id)) && steps[k - 1] != Post(id);
    }
  }

  /** If nobody owes a post when destroy sees the queue drained, nobody does when it returns. */
  lemma NoLatePosts(trace: seq<State>, steps: seq<Step>, j: nat, k: nat)
    requires Run(trace, steps) && j < k < |trace| && steps[j] == DestroyDrained
    requires forall id :: !Owes(trace[j], id)
    ensures forall id :: !Owes(trace[k], id)
  {
    forall id
      ensures !Owes(trace[k], id)
    {
      LatePosts(trace, steps, j, k, id);
    }
  }

  // ---- a run on which a post is late

  ghost predicate Reached(s: State)
  {
    exists trace, steps :: Run(trace, steps) && trace[|trace| - 1] == s
  }

  lemma ReachInit()
    ensures Reached(Init())
  {
    assert Run([Init()], []);
  }

  lemma ReachNext(s: State, step: Step, s': State)
    requires Reached(s) && Enabled(s, step) && s' == Apply(s, step)
    ensures Reached(s')
  {
    hide Enabled, Apply;
    var trace, steps :| Run(trace, steps) && trace[|trace| - 1] == s;
    var trace', steps' := trace + [s'], steps + [step];
    forall k | 0 <= k < |steps'|
      ensures Enabled(trace'[k], steps'[k]) && trace'[k + 1] == Apply(trace'[k], steps'[k])
    {
      if k < |steps| {
        assert Enabled(trace[k], steps[k]) && trace[k + 1] == Apply(trace[k], steps[k]);
      }
    }
    assert Run(trace', steps');
  }

  /** The one op of the run: one wait, no body, no cleanup. */
  function Only(w: Wait, count: int, armed: nat, stage: Stage, owes: bool, signals: nat, releases: nat): (op: Op)
  {
    Op([w], count, 0, false, armed, stage, None, owes, false, false, 0, signals, 0, 0, releases)
  }

  function With(op: Op, inflight: seq<OpId>, count: int): (s: State)
  {
    State(map[0 := op], None, inflight, count, false, 0, Top, [], Idle, [], [], [])
  }

  lemma Registers()
    ensures Reached(With(Only(Armed, 1, 1, Waiting, false, 0, 0), [0], 1))
  {
    ReachInit();
    var a := With(Only(Unarmed, 1, 0, New, false, 0, 0), [], 1);
    var b := With(Only(Unarmed, 1, 0, Waiting, false, 0, 0), [0], 1);
    assert NewOp(1, false, false).waits == [Unarmed];
    assert Apply(Init(), Accept(0, 1, false, false)).ops == a.ops;
    ReachNext(Init(), Accept(0, 1, false, false), a);
    assert Apply(a, Link(0)).ops == b.ops && [0] + a.inflight == [0];
    ReachNext(a, Link(0), b);
    var c := With(Only(Armed, 1, 1, Waiting, false, 0, 0), [0], 1);
    assert b.ops[0].waits[0 := Armed] == [Armed];
    assert Apply(b, Register(0, true)).ops == c.ops;
    ReachNext(b, Register(0, true), c);
  }

  lemma Resolves()
    ensures Reached(With(Only(Accounted(true), 0, 1, Claimed, false, 0, 0), [0], 1))
  {
    Registers();
    var a := With(Only(Armed, 1, 1, Waiting, false, 0, 0), [0], 1);
    var b := With(Only(Fired(true), 1, 1, Waiting, false, 0, 0), [0], 1);
    var c := With(Only(Noted(true), 1, 1, Waiting, false, 0, 0), [0], 1);
    var d := With(Only(Accounted(true), 0, 1, Claimed, false, 0, 0), [0], 1);
    assert a.ops[0].waits[0 := Fired(true)] == b.ops[0].waits && Apply(a, Fire(0, 0, true)).ops == b.ops;
    ReachNext(a, Fire(0, 0, true), b);
    assert b.ops[0].waits[0 := Noted(true)] == c.ops[0].waits && Apply(b, Note(0, 0)).ops == c.ops;
    ReachNext(b, Note(0, 0), c);
    assert c.ops[0].waits[0 := Accounted(true)] == d.ops[0].waits && Apply(c, Settle(0, 0)).ops == d.ops;
    ReachNext(c, Settle(0, 0), d);
  }

  /** Pushed, and its pusher has yet to post. */
  function PushedOnly(): (s: State)
  {
    State(map[0 := Only(Accounted(true), 0, 1, Ready, true, 0, 0)], Some(0), [], 1, false, 0, Top, [], Idle, [0],
      [0], [])
  }

  lemma Splices()
    ensures Reached(With(Only(Accounted(true), 0, 1, Spliced, false, 0, 0), [], 1))
  {
    Resolves();
    var a := With(Only(Accounted(true), 0, 1, Claimed, false, 0, 0), [0], 1);
    var b := With(Only(Accounted(true), 0, 1, Spliced, false, 0, 0), [], 1);
    assert Without([0], 0) == [];
    assert Apply(a, Splice(0)).ops == b.ops;
    ReachNext(a, Splice(0), b);
  }

  lemma Pushes()
    ensures Reached(PushedOnly())
  {
    Splices();
    var b := With(Only(Accounted(true), 0, 1, Spliced, false, 0, 0), [], 1);
    var c := With(Only(Accounted(true), 0, 1, Swinging, false, 0, 0), [], 1);
    assert Apply(b, PushLoad(0)).ops == c.ops;
    ReachNext(b, PushLoad(0), c);
    assert Apply(c, PushCas(0)).ops == PushedOnly().ops && [0] + c.stack == [0] && c.pushLog + [0] == [0];
    ReachNext(c, PushCas(0), PushedOnly());
  }

  /** The worker is at work on the op while the post is still owed. */
  function AtWork(stage: Stage, count: int, worker: Worker, batch: seq<OpId>, signals: nat, releases: nat,
                  procLog: seq<OpId>): (s: State)
  {
    State(map[0 := Only(Accounted(true), 0, 1, stage, true, signals, releases)], None, [], count, false, 0, worker,
      batch, Idle, [], [0], procLog)
  }

  lemma Takes()
    ensures Reached(AtWork(Current, 1, Processing(0, LoadError), [], 0, 0, [0]))
  {
    Pushes();
    var a := PushedOnly().(worker := Exchange(false));
    ReachNext(PushedOnly(), WorkerLoadShutdown, a);
    var b := AtWork(Batched, 1, NextOp, [0], 0, 0, []);
    assert IsList(Some(0), a.ops, [0]) by { assert After([0], 0) == None; }
    assert Reverse([0]) == [0];
    assert Apply(a, WorkerExchange([0])).ops == b.ops;
    ReachNext(a, WorkerExchange([0]), b);
    var c := AtWork(Current, 1, Processing(0, LoadError), [], 0, 0, [0]);
    assert b.batch[0] == 0 && b.batch[1..] == [] && b.procLog + [0] == [0];
    assert Apply(b, WorkerNext).ops == c.ops;
    ReachNext(b, WorkerNext, c);
  }

  lemma Works()
    ensures Reached(AtWork(Current, 1, Processing(0, Resources), [], 1, 0, [0]))
  {
    Takes();
    var a := AtWork(Current, 1, Processing(0, LoadError), [], 0, 0, [0]);
    var b := a.(worker := Processing(0, RunBody));
    assert Apply(a, WorkerProcess(true)).ops == b.ops;
    ReachNext(a, WorkerProcess(true), b);
    var c := a.(worker := Processing(0, Signal));
    assert Apply(b, WorkerProcess(true)).ops == c.ops;
    ReachNext(b, WorkerProcess(true), c);
    var d := AtWork(Current, 1, Processing(0, Cleanup), [], 1, 0, [0]);
    assert Apply(c, WorkerProcess(true)).ops == d.ops;
    ReachNext(c, WorkerProcess(true), d);
    var e := d.(worker := Processing(0, Resources));
    assert Apply(d, WorkerProcess(true)).ops == e.ops;
    ReachNext(d, WorkerProcess(true), e);
  }

  lemma Releases()
    ensures Reached(AtWork(Released, 0, NextOp, [], 1, 1, [0]))
  {
    Works();
    var a := AtWork(Current, 1, Processing(0, Resources), [], 1, 0, [0]);
    var b := AtWork(Current, 1, Processing(0, Uncount), [], 1, 1, [0]);
    assert Apply(a, WorkerProcess(true)).ops == b.ops;
    ReachNext(a, WorkerProcess(true), b);
    var c := AtWork(Released, 0, NextOp, [], 1, 1, [0]);
    assert Apply(b, WorkerProcess(true)).ops == c.ops;
    ReachNext(b, WorkerProcess(true), c);
  }

  lemma Cancels()
    ensures Reached(AtWork(Released, 0, NextOp, [], 1, 1, [0]).(destroyer := Await))
  {
    Releases();
    var s := AtWork(Released, 0, NextOp, [], 1, 1, [0]);
    ReachNext(s, DestroyLock, s.(destroyer := Walk([], 0, false, [])));
    hide IsList, NoEnqueueRunning, Process;
    ReachNext(s.(destroyer := Walk([], 0, false, [])), DestroyUnlock, s.(destroyer := Await));
  }

  lemma ShutsDown()
    ensures Reached(AtWork(Released, 0, NextOp, [], 1, 1, [0]).(destroyer := Join, shutdown := true, epoch := 1))
  {
    hide IsList, NoEnqueueRunning, Process;
    Cancels();
    var s := AtWork(Released, 0, NextOp, [], 1, 1, [0]);
    hide AtWork;
    DrainedCounts();
    ReachNext(s.(destroyer := Await), DestroyDrained, s.(destroyer := SetShutdown));
    ReachNext(s.(destroyer := SetShutdown), DestroySetShutdown, s.(destroyer := PostShutdown, shutdown := true));
    ReachNext(s.(destroyer := PostShutdown, shutdown := true), DestroyPostShutdown,
              s.(destroyer := Join, shutdown := true, epoch := 1));
  }

  lemma DrainedCounts()
    ensures AtWork(Released, 0, NextOp, [], 1, 1, [0]).inflightCount == 0
    ensures AtWork(Released, 0, NextOp, [], 1, 1, [0]).epoch == 0
  {
  }

  function Last(): (s: State)
  {
    AtWork(Released, 0, Exited, [], 1, 1, [0]).(destroyer := Done, shutdown := true, epoch := 1)
  }

  lemma WorkerLeaves()
    ensures Reached(Last().(worker := CheckDrain(true), destroyer := Join))
  {
    ShutsDown();
    var s := AtWork(Released, 0, NextOp, [], 1, 1, [0]).(destroyer := Join, shutdown := true, epoch := 1);
    ReachNext(s, WorkerNext, s.(worker := Top));
    ReachNext(s.(worker := Top), WorkerLoadShutdown, s.(worker := Exchange(true)));
    ReachNext(s.(worker := Exchange(true)), WorkerExchange([]), s.(worker := CheckDrain(true)));
  }

  lemma Returns()
    ensures Reached(Last())
  {
    hide IsList, NoEnqueueRunning, Process;
    WorkerLeaves();
    var s := Last().(destroyer := Join);
    ReachNext(s.(worker := CheckDrain(true)), WorkerCheckDrain, s);
    ReachNext(s, DestroyJoin, Last());
  }

  /** Destroy may return while a callback still owes its post: the post then touches a freed queue. */
  lemma PostAfterDone()
    ensures exists trace: seq<State>, steps: seq<Step> :: Run(trace, steps) && trace[|trace| - 1].destroyer.Done?
              && Owes(trace[|trace| - 1], 0) && Enabled(trace[|trace| - 1], Post(0))
  {
    Returns();
    assert Owes(Last(), 0) && Enabled(Last(), Post(0)) && Last().destroyer.Done?;
    hide Run, Enabled, Owes, Last;
    var trace, steps :| Run(trace, steps) && trace[|trace| - 1] == Last();
  }
}
