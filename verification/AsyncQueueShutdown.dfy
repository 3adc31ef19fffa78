/** The shutdown walk's decrement and its chain push, and the invariant over whole runs. */
module AsyncQueueShutdown {
  import opened Common
  import opened AsyncQueue
  import opened AsyncQueueInvariant
  import opened AsyncQueueSteps
  import opened AsyncQueueWorker

  /** The walk leaves an op behind, with or without collecting it. */
  lemma WalkOn(s: State, s': State, id: OpId)
    requires DestroyOk(s) && AtWalk(s) && id == s.destroyer.todo[0] && OnInflight(s.ops[id])
    requires s'.shutdown == s.shutdown && s'.inflightCount == s.inflightCount
    requires id in s'.ops && s'.ops == s.ops[id := s'.ops[id]] && s'.ops[id].won == 0
    requires !s'.ops[id].stage.New? && s'.ops[id].armed == |s'.ops[id].waits|
    requires s'.destroyer.Walk? && s'.destroyer == Walk(s.destroyer.todo[1..], 0, false, s'.destroyer.chain)
    requires forall x :: x in s.inflight && x != id ==> x in s'.inflight
    requires if s'.ops[id].stage.Chained?
             then s'.destroyer.chain == [id] + s.destroyer.chain && s'.ops[id].next == First(s.destroyer.chain)
             else s'.destroyer.chain == s.destroyer.chain
    ensures DestroyOk(s')
  {
    WalkChain(s, s', id);
    hide IsList, IsSegment;
    WalkTodo(s.destroyer.todo);
    assert NoEnqueueRunning(s');
    hide NoEnqueueRunning;
    assert forall x :: x in s'.destroyer.todo ==> x in s.destroyer.todo && x in s'.inflight;
    hide NoDup;
  }

  lemma WalkChain(s: State, s': State, id: OpId)
    requires s.destroyer.Walk? && s'.destroyer.Walk? && NoDup(s.destroyer.chain)
    requires forall x :: x in s.destroyer.chain <==> x in s.ops && s.ops[x].stage.Chained?
    requires IsList(First(s.destroyer.chain), s.ops, s.destroyer.chain)
    requires id in s.ops && !s.ops[id].stage.Chained? && id in s'.ops && s'.ops == s.ops[id := s'.ops[id]]
    requires if s'.ops[id].stage.Chained?
             then s'.destroyer.chain == [id] + s.destroyer.chain && s'.ops[id].next == First(s.destroyer.chain)
             else s'.destroyer.chain == s.destroyer.chain
    ensures NoDup(s'.destroyer.chain) && IsSegment(s'.ops, s'.destroyer.chain)
    ensures IsList(First(s'.destroyer.chain), s'.ops, s'.destroyer.chain)
    ensures forall x :: x in s'.destroyer.chain <==> x in s'.ops && s'.ops[x].stage.Chained?
  {
    var c, c' := s.destroyer.chain, s'.destroyer.chain;
    assert id !in c;
    assert IsList(First(c), s'.ops, c);
    if s'.ops[id].stage.Chained? {
      ListPrepend(First(c), s'.ops, [id], c);
      NoDupConcat([id], c);
    }
  }

  lemma WalkTodo(todo: seq<OpId>)
    requires NoDup(todo) && todo != []
    ensures NoDup(todo[1..]) && forall x :: x in todo[1..] <==> x in todo && x != todo[0]
  {
    assert todo == [todo[0]] + todo[1..];
  }

  lemma SettleCancelledShutdown(s: State, s': State, id: OpId)
    requires OpsOk(s) && InflightOk(s) && DestroyOk(s) && Enabled(s, DestroySettle)
    requires s' == SettleCancelled(s) && id == s.destroyer.todo[0]
    ensures OpsOk(s') && InflightOk(s') && DestroyOk(s')
    ensures s.ops[id].stage.Waiting? && !s.ops[id].owesPost
    ensures id in s'.ops && !s'.ops[id].owesPost && (s'.ops[id].stage.Waiting? || s'.ops[id].stage.Chained?)
  {
    hide OpsOk, InflightOk, DestroyOk, OpOk, Without, IsSegment, IsList;
    var op := s.ops[id];
    OpAt(s, id);
    WalkAt(s);
    WalkNoted(s);
    WonWaits(op);
    SettleCancelledOp(op, First(s.destroyer.chain));
    OpSet(s, s', id);
    if op.waitCount == op.won {
      InflightRemoved(s, s', id);
    } else {
      InflightFrame(s, s');
    }
    InflightKept(s, s', id);
    WalkOn(s, s', id);
  }

  lemma SettleCancelledKeeps(s: State)
    requires Inv(s) && Enabled(s, DestroySettle)
    ensures Inv(Apply(s, DestroySettle))
  {
    hide OpsOk, InflightOk, DestroyOk, WakeOk, OpOk, PhaseOk, PostOwed;
    hide ReadyOk, WorkerOk, CountOk, Without, IsSegment, IsList;
    var id := s.destroyer.todo[0];
    var s' := SettleCancelled(s);
    assert s' == Apply(s, DestroySettle);
    SettleCancelledShutdown(s, s', id);
    assert s'.ops == s.ops[id := s'.ops[id]];
    hide SettleCancelled, AtWalk, AccountCancelled, Apply, Enabled;
    ReadyFrame(s, s');
    CountFrame(s, s');
    WorkerFrame(s, s');
    if PostOwed(s) { PostOwedFrame(s, s'); }
    WakeFrame(s, s');
  }

  lemma InflightKept(s: State, s': State, id: OpId)
    requires InflightOk(s) && InflightOk(s') && id in s'.ops && s'.ops == s.ops[id := s'.ops[id]]
    ensures forall x :: x in s.inflight && x != id ==> x in s'.inflight
  {
  }

  lemma WonWaits(op: Op)
    requires OpOk(op) && op.won > 0
    ensures op.stage.Waiting? && !op.owesPost
  {
  }

  /** Reading ready_head into the chain's last link. */
  lemma ChainLoadKeeps(s: State, loaded: bool)
    requires Inv(s) && s.destroyer.PushChain? && ChainIn(s)
    ensures var tail := s.destroyer.chain[|s.destroyer.chain| - 1];
            Inv(SetOp(s, tail, s.ops[tail].(next := s.head)).(destroyer := s.destroyer.(loaded := loaded)))
  {
    hide OpsOk, InflightOk, DestroyOk, WakeOk, OpOk, PhaseOk, PostOwed, ReadyOk, WorkerOk, CountOk;
    var tail := s.destroyer.chain[|s.destroyer.chain| - 1];
    var s' := SetOp(s, tail, s.ops[tail].(next := s.head)).(destroyer := s.destroyer.(loaded := loaded));
    OpAt(s, tail);
    RelinkedOp(s.ops[tail], s.head);
    OpSet(s, s', tail);
    ChainTail(s, s', tail);
    ReadyFrame(s, s');
    InflightFrame(s, s');
    CountFrame(s, s');
    WorkerFrame(s, s');
    if PostOwed(s) { PostOwedFrame(s, s'); }
    WakeFrame(s, s');
  }

  lemma RelinkedOp(op: Op, next: Option<OpId>)
    requires OpOk(op)
    ensures OpOk(op.(next := next))
  {
    assert CleanWaits(op) ==> CleanWaits(op.(next := next));
  }

  lemma ChainTail(s: State, s': State, tail: OpId)
    requires DestroyOk(s) && s.destroyer.PushChain? && ChainIn(s)
    requires tail == s.destroyer.chain[|s.destroyer.chain| - 1]
    requires s'.ops == s.ops[tail := s.ops[tail].(next := s.head)]
    requires s'.destroyer.PushChain? && s'.destroyer.chain == s.destroyer.chain
    requires s'.shutdown == s.shutdown && s'.inflightCount == s.inflightCount && s'.inflight == s.inflight
    ensures DestroyOk(s') && s.ops[tail].stage.Chained?
  {
    var c := s.destroyer.chain;
    assert tail in c;
    forall k | 0 <= k < |c| - 1
      ensures s'.ops[c[k]].next == After(c, k)
    {
      assert c[k] != tail;
    }
  }

  lemma ChainOps(s: State, c: seq<OpId>)
    requires OpsOk(s) && forall id :: id in c ==> id in s.ops && s.ops[id].stage.Chained?
    ensures forall id :: id in s.ops ==> OpOk(SetStages(s.ops, c, Ready)[id])
  {
    forall id | id in s.ops
      ensures OpOk(SetStages(s.ops, c, Ready)[id])
    {
      assert OpOk(s.ops[id]);
    }
  }

  lemma ChainFacts(s: State)
    requires DestroyOk(s) && s.destroyer.PushChain?
    ensures NoDup(s.destroyer.chain) && IsSegment(s.ops, s.destroyer.chain)
    ensures forall id :: id in s.destroyer.chain <==> id in s.ops && s.ops[id].stage.Chained?
  {
  }

  lemma ChainPushed(s: State, s': State)
    requires DestroyOk(s) && s.destroyer.PushChain? && s'.destroyer.PostChain?
    requires s'.shutdown == s.shutdown && s'.inflightCount == s.inflightCount
    requires s'.ops == SetStages(s.ops, s.destroyer.chain, Ready)
    ensures DestroyOk(s')
  {
    hide IsSegment, IsList, NoDup;
    assert NoDup(Chain(s')) && IsSegment(s'.ops, Chain(s')) by { EmptyChain(s'.ops); }
  }

  lemma EmptyChain(ops: map<OpId, Op>)
    ensures NoDup<OpId>([]) && IsSegment(ops, [])
  {
  }

  /** The state after the walk's chain was pushed. */
  ghost function ChainPushedState(s: State): (s': State)
    requires s.destroyer.PushChain? && s.destroyer.chain != []
  {
    var c := s.destroyer.chain;
    s.(ops := SetStages(s.ops, c, Ready), head := Some(c[0]), stack := c + s.stack, pushLog := s.pushLog + Reverse(c),
       destroyer := PostChain)
  }

  lemma ChainCasPushes(s: State)
    requires Inv(s) && s.destroyer.PushChain? && ChainIn(s)
    requires s.head == s.ops[s.destroyer.chain[|s.destroyer.chain| - 1]].next
    ensures Inv(ChainPushedState(s))
  {
    hide OpsOk, InflightOk, DestroyOk, WakeOk, OpOk, PhaseOk, PostOwed;
    hide ReadyOk, WorkerOk, CountOk, IsSegment, NoDup, Reverse;
    var c := s.destroyer.chain;
    var s' := ChainPushedState(s);
    hide ChainIn;
    ChainFacts(s);
    ChainOps(s, c);
    AllOps(s');
    PushReady(s, s', c);
    ChainPushed(s, s');
    hide Pushed;
    InflightFrame(s, s');
    CountFrame(s, s');
    WorkerFrame(s, s');
    ShutdownOwed(s');
    WakeByPost(s, s');
  }

  lemma ChainCasKeeps(s: State)
    requires Inv(s) && Enabled(s, DestroyCas)
    ensures Inv(Apply(s, DestroyCas))
  {
    hide Inv, Reverse, SetStages;
    var c := s.destroyer.chain;
    if s.head == s.ops[c[|c| - 1]].next {
      assert Apply(s, DestroyCas) == ChainPushedState(s);
      ChainCasPushes(s);
    } else {
      ChainLoadKeeps(s, true);
    }
  }
}
