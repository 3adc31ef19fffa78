/** Every step of every party preserves the queue invariant. */
module AsyncQueueSteps {
  import opened Common
  import opened AsyncQueue
  import opened AsyncQueueInvariant

  // ---- effects on one op

  lemma AcceptedOp(n: nat, hasBody: bool, hasCleanup: bool)
    ensures OpOk(NewOp(n, hasBody, hasCleanup))
  {
    NewOpCounts(n);
  }

  lemma RegisterOp(op: Op, ok: bool)
    requires OpOk(op) && !op.stage.New? && op.armed < |op.waits| && op.waits[op.armed].Unarmed?
    ensures OpOk(Registered(op, ok))
  {
    var w := if ok then Armed else RegFailed;
    PendingUpdate(op.waits, op.armed, w);
    CancelledUpdate(op.waits, op.armed, w);
    NonePending(op.waits);
    hide Pending, CountCancelled;
    assert forall i :: 0 <= i < |op.waits| && Bad(Registered(op, ok).waits[i]) ==> Bad(op.waits[i]);
  }

  lemma FireOp(op: Op, i: nat, ok: bool)
    requires OpOk(op) && i < |op.waits| && op.waits[i].Armed?
    ensures OpOk(op.(waits := op.waits[i := Fired(ok)]))
  {
    PendingUpdate(op.waits, i, Fired(ok));
    CancelledUpdate(op.waits, i, Fired(ok));
    var us := op.waits[i := Fired(ok)];
    assert forall j :: 0 <= j < |us| && Bad(us[j]) ==> Bad(op.waits[j]);
  }

  lemma NoteOp(op: Op, i: nat)
    requires OpOk(op) && i < |op.waits| && (op.waits[i].Fired? || op.waits[i].RegFailed?)
    ensures OpOk(NotedOp(op, i))
  {
    var r := NotedOp(op, i);
    PendingUpdate(op.waits, i, r.waits[i]);
    CancelledUpdate(op.waits, i, r.waits[i]);
    assert forall j :: 0 <= j < |r.waits| && Bad(r.waits[j]) && j != i ==> Bad(op.waits[j]);
  }

  lemma SettleOp(op: Op, i: nat)
    requires OpOk(op) && i < |op.waits| && op.waits[i].Noted?
    ensures OpOk(Settled(op, i))
    ensures op.stage.Waiting?
  {
    var r := Settled(op, i);
    PendingUpdate(op.waits, i, r.waits[i]);
    CancelledUpdate(op.waits, i, r.waits[i]);
    NonePending(op.waits);
    NonePending(r.waits);
    assert forall j :: 0 <= j < |r.waits| && Bad(r.waits[j]) ==> Bad(op.waits[j]);
    if r.waitCount == 0 && r.won > 0 {
      CancelledArePending(r.waits);
    }
  }

  lemma {:induction false} CancelledArePending(ws: seq<Wait>)
    ensures CountCancelled(ws) <= Pending(ws)
  {
    if ws != [] {
      CancelledArePending(ws[1..]);
    }
  }

  lemma CancelOp(op: Op, i: nat)
    requires OpOk(op) && i < |op.waits| && op.waits[i].Armed?
    ensures OpOk(op.(waits := op.waits[i := Cancelled], won := op.won + 1))
  {
    PendingUpdate(op.waits, i, Cancelled);
    CancelledUpdate(op.waits, i, Cancelled);
    NonePending(op.waits);
    var us := op.waits[i := Cancelled];
    assert forall j :: 0 <= j < |us| && Bad(us[j]) ==> Bad(op.waits[j]);
  }

  lemma SettleCancelledOp(op: Op, next: Option<OpId>)
    requires OpOk(op) && op.stage.Waiting? && op.error && op.armed == |op.waits|
    ensures var settled := op.(waits := AccountCancelled(op.waits), waitCount := op.waitCount - op.won, won := 0);
            if op.waitCount == op.won then OpOk(settled.(stage := Chained, next := next)) else OpOk(settled)
  {
    AccountCancelledCounts(op.waits);
    CancelledArePending(op.waits);
  }

  // ---- frames: steps that leave a part of the queue alone

  ghost predicate SameReady(a: Op, b: Op)
  {
    && Pushed(a) == Pushed(b)
    && (a.stage.Ready? ==> b.stage.Ready? && a.next == b.next)
    && (a.stage.Batched? ==> b.stage.Batched?)
    && (a.stage.Current? || a.stage.Released? ==> b.stage.Current? || b.stage.Released?)
  }

  lemma ReadyFrame(s: State, s': State)
    requires ReadyOk(s)
    requires s'.head == s.head && s'.stack == s.stack && s'.batch == s.batch
    requires s'.pushLog == s.pushLog && s'.procLog == s.procLog
    requires forall id :: id in s.ops ==> id in s'.ops && SameReady(s.ops[id], s'.ops[id])
    requires forall id :: id in s'.ops && id !in s.ops ==> !Pushed(s'.ops[id])
    ensures ReadyOk(s')
  {
    forall k | 0 <= k < |s.stack|
      ensures s.stack[k] in s'.ops && s'.ops[s.stack[k]].next == s.ops[s.stack[k]].next
    {
      assert s.stack[k] in s.stack;
    }
  }

  lemma InflightFrame(s: State, s': State)
    requires InflightOk(s) && s'.inflight == s.inflight
    requires forall id :: id in s.ops ==> id in s'.ops && OnInflight(s.ops[id]) == OnInflight(s'.ops[id])
    requires forall id :: id in s'.ops && id !in s.ops ==> !OnInflight(s'.ops[id])
    ensures InflightOk(s')
  {
  }

  lemma CountFrame(s: State, s': State)
    requires CountOk(s) && s'.inflightCount == s.inflightCount
    requires s'.ops.Keys == s.ops.Keys
    requires forall id :: id in s.ops ==> s'.ops[id].stage.Released? == s.ops[id].stage.Released?
    ensures CountOk(s')
  {
    assert Live(s'.ops) == Live(s.ops);
  }

  /** The local chain stays a chain while other ops change. */
  lemma ChainKept(s: State, s': State)
    requires DestroyOk(s) && Chain(s') == Chain(s)
    requires s'.ops.Keys == s.ops.Keys
    requires forall id :: id in s.ops ==>
               && s'.ops[id].stage.Chained? == s.ops[id].stage.Chained?
               && (s.ops[id].stage.Chained? ==> s'.ops[id].next == s.ops[id].next)
    ensures forall id :: id in Chain(s') <==> id in s'.ops && s'.ops[id].stage.Chained?
    ensures IsSegment(s'.ops, Chain(s'))
    ensures IsList(First(Chain(s)), s.ops, Chain(s)) ==> IsList(First(Chain(s)), s'.ops, Chain(s))
  {
    forall k | 0 <= k < |Chain(s)|
      ensures Chain(s)[k] in s'.ops && s'.ops[Chain(s)[k]].next == s.ops[Chain(s)[k]].next
    {
      assert Chain(s)[k] in Chain(s);
    }
  }

  /** The shutdown side is unaffected by a step of another party. */
  lemma DestroyFrame(s: State, s': State)
    requires DestroyOk(s) && s'.destroyer == s.destroyer && s'.shutdown == s.shutdown
    requires s'.inflightCount == s.inflightCount || 0 <= s'.inflightCount < s.inflightCount
    requires s.destroyer.Walk? ==> s'.inflight == s.inflight
    requires s'.ops.Keys == s.ops.Keys
    requires forall id :: id in s.ops ==> SameDestroy(s.ops[id], s'.ops[id])
    ensures DestroyOk(s')
  {
    ChainKept(s, s');
  }

  ghost predicate SameDestroy(a: Op, b: Op)
  {
    && a.stage.Chained? == b.stage.Chained?
    && (a.stage.Chained? ==> a.next == b.next)
    && a.won == b.won
    && (a.error ==> b.error)
    && (!a.stage.New? && a.armed == |a.waits| ==> !b.stage.New? && b.armed == |b.waits|)
  }

  lemma WorkerFrame(s: State, s': State)
    requires WorkerOk(s) && s'.worker == s.worker && s'.batch == s.batch && (s.shutdown ==> s'.shutdown)
    requires forall id :: id in s.ops ==> id in s'.ops
    requires forall id :: id in s.ops && s.ops[id].stage.Current? ==>
               && s'.ops[id].stage.Current?
               && (forall phase :: PhaseOk(s.ops[id], phase) ==> PhaseOk(s'.ops[id], phase))
    requires forall id :: id in s'.ops && s'.ops[id].stage.Current? ==> id in s.ops && s.ops[id].stage.Current?
    ensures WorkerOk(s')
  {
  }

  lemma WakeFrame(s: State, s': State)
    requires WakeOk(s) && s'.worker == s.worker && s'.epoch == s.epoch
    requires s'.head == s.head && s'.shutdown == s.shutdown
    requires PostOwed(s) ==> PostOwed(s')
    ensures WakeOk(s')
  {
  }

  lemma WakeByPost(s: State, s': State)
    requires WakeOk(s) && s'.worker == s.worker && s'.epoch == s.epoch && PostOwed(s')
    ensures WakeOk(s')
  {
    hide PostOwed;
  }

  lemma WakeAfterPost(s: State, s': State)
    requires WakeOk(s) && s'.worker == s.worker && s'.epoch == s.epoch + 1
    ensures WakeOk(s')
  {
    hide PostOwed;
  }

  lemma PostOwedFrame(s: State, s': State)
    requires PostOwed(s)
    requires forall id :: id in s.ops && s.ops[id].owesPost ==> id in s'.ops && s'.ops[id].owesPost
    requires s.destroyer == s'.destroyer || (!s.destroyer.PostChain? && !s.destroyer.PostShutdown?)
    ensures PostOwed(s')
  {
    if !s.destroyer.PostChain? && !s.destroyer.PostShutdown? {
      var id :| id in s.ops && s.ops[id].owesPost;
      assert s'.ops[id].owesPost;
    }
  }

  lemma OpAt(s: State, id: OpId)
    requires OpsOk(s) && id in s.ops
    ensures OpOk(s.ops[id])
  {
  }

  lemma OpSet(s: State, s': State, id: OpId)
    requires OpsOk(s) && id in s'.ops && OpOk(s'.ops[id]) && s'.ops == s.ops[id := s'.ops[id]]
    ensures OpsOk(s')
  {
  }

  // ---- enqueuers and callbacks

  /** A change to one op that no list, count or other party can see. */
  lemma QuietChange(s: State, id: OpId, op: Op)
    requires Inv(s) && id in s.ops && OpOk(op)
    requires SameReady(s.ops[id], op) && OnInflight(s.ops[id]) == OnInflight(op)
    requires s.ops[id].stage.Released? == op.stage.Released?
    requires SameDestroy(s.ops[id], op)
    requires !s.ops[id].stage.Current? && !op.stage.Current?
    requires op.owesPost == s.ops[id].owesPost
    ensures Inv(SetOp(s, id, op))
  {
    hide OpsOk, ReadyOk, InflightOk, CountOk, DestroyOk, WorkerOk, WakeOk, OpOk, PhaseOk, PostOwed;
    var s' := SetOp(s, id, op);
    OpSet(s, s', id);
    ReadyFrame(s, s');
    InflightFrame(s, s');
    CountFrame(s, s');
    DestroyFrame(s, s');
    WorkerFrame(s, s');
    if PostOwed(s) { PostOwedFrame(s, s'); }
    WakeFrame(s, s');
  }

  /** An op whose waits are not all accounted has not been claimed, let alone reached the worker. */
  lemma OpenWait(op: Op, i: nat)
    requires OpOk(op) && i < |op.waits| && !op.waits[i].Accounted?
    ensures op.stage.New? || op.stage.Waiting?
  {
    NonePending(op.waits);
  }

  lemma RegisterKeeps(s: State, id: OpId, ok: bool)
    requires Inv(s) && Enabled(s, Register(id, ok))
    ensures Inv(Apply(s, Register(id, ok)))
  {
    hide OpsOk, ReadyOk, InflightOk, CountOk, DestroyOk, WorkerOk, WakeOk, OpOk;
    OpAt(s, id);
    RegisterOp(s.ops[id], ok);
    OpenWait(s.ops[id], s.ops[id].armed);
    QuietChange(s, id, Registered(s.ops[id], ok));
  }

  lemma FireKeeps(s: State, id: OpId, i: nat, ok: bool)
    requires Inv(s) && Enabled(s, Fire(id, i, ok))
    ensures Inv(Apply(s, Fire(id, i, ok)))
  {
    hide OpsOk, ReadyOk, InflightOk, CountOk, DestroyOk, WorkerOk, WakeOk, OpOk;
    OpAt(s, id);
    FireOp(s.ops[id], i, ok);
    OpenWait(s.ops[id], i);
    QuietChange(s, id, s.ops[id].(waits := s.ops[id].waits[i := Fired(ok)]));
  }

  lemma NoteKeeps(s: State, id: OpId, i: nat)
    requires Inv(s) && Enabled(s, Note(id, i))
    ensures Inv(Apply(s, Note(id, i)))
  {
    hide OpsOk, ReadyOk, InflightOk, CountOk, DestroyOk, WorkerOk, WakeOk, OpOk;
    OpAt(s, id);
    NoteOp(s.ops[id], i);
    OpenWait(s.ops[id], i);
    QuietChange(s, id, NotedOp(s.ops[id], i));
  }

  lemma SettleKeeps(s: State, id: OpId, i: nat)
    requires Inv(s) && Enabled(s, Settle(id, i))
    ensures Inv(Apply(s, Settle(id, i)))
  {
    hide OpsOk, ReadyOk, InflightOk, CountOk, DestroyOk, WorkerOk, WakeOk, OpOk;
    OpAt(s, id);
    SettleOp(s.ops[id], i);
    QuietChange(s, id, Settled(s.ops[id], i));
  }

  /** Reading ready_head into next_ready of an op that no list contains. */
  lemma LoadHeadKeeps(s: State, id: OpId)
    requires Inv(s) && id in s.ops && (s.ops[id].stage.Spliced? || s.ops[id].stage.Swinging?)
    ensures Inv(SetOp(s, id, s.ops[id].(stage := Swinging, next := s.head)))
  {
    hide OpsOk, ReadyOk, InflightOk, CountOk, DestroyOk, WorkerOk, WakeOk;
    OpAt(s, id);
    QuietChange(s, id, s.ops[id].(stage := Swinging, next := s.head));
  }

  lemma AcceptKeeps(s: State, id: OpId, n: nat, hasBody: bool, hasCleanup: bool)
    requires Inv(s) && Enabled(s, Accept(id, n, hasBody, hasCleanup))
    ensures Inv(Apply(s, Accept(id, n, hasBody, hasCleanup)))
  {
    hide Inv;
    AcceptedOp(n, hasBody, hasCleanup);
    AddKeeps(s, Apply(s, Accept(id, n, hasBody, hasCleanup)), id);
  }

  lemma AddKeeps(s: State, s': State, id: OpId)
    requires Inv(s) && id !in s.ops && s.destroyer.Idle?
    requires id in s'.ops && s' == s.(ops := s.ops[id := s'.ops[id]], inflightCount := s.inflightCount + 1)
    requires var op := s'.ops[id];
             OpOk(op) && op.won == 0 && !op.owesPost && (op.stage.New? || (op.stage.Claimed? && op.waits == []))
    ensures Inv(s')
  {
    hide OpsOk, ReadyOk, InflightOk, CountOk, DestroyOk, WorkerOk, WakeOk, OpOk, PhaseOk, PostOwed;
    OpSet(s, s', id);
    ReadyFrame(s, s');
    InflightFrame(s, s');
    CountAdded(s, s', id);
    IdleDestroy(s, s', id);
    WorkerFrame(s, s');
    if PostOwed(s) { PostOwedFrame(s, s'); }
    WakeFrame(s, s');
  }

  lemma CountAdded(s: State, s': State, id: OpId)
    requires CountOk(s) && id !in s.ops && id in s'.ops && s'.ops == s.ops[id := s'.ops[id]]
    requires !s'.ops[id].stage.Released? && s'.inflightCount == s.inflightCount + 1
    ensures CountOk(s')
  {
    assert Live(s'.ops) == Live(s.ops) + {id};
  }

  lemma IdleDestroy(s: State, s': State, id: OpId)
    requires DestroyOk(s) && s.destroyer.Idle? && s'.destroyer == s.destroyer && s'.shutdown == s.shutdown
    requires id !in s.ops && id in s'.ops && s'.ops == s.ops[id := s'.ops[id]]
    requires s'.ops[id].won == 0 && !s'.ops[id].stage.Chained?
    ensures DestroyOk(s')
  {
  }

  lemma LinkKeeps(s: State, id: OpId)
    requires Inv(s) && Enabled(s, Link(id))
    ensures Inv(Apply(s, Link(id)))
  {
    hide OpsOk, ReadyOk, CountOk, DestroyOk, WorkerOk, WakeOk, PhaseOk, PostOwed;
    var s' := Apply(s, Link(id));
    assert s'.ops == s.ops[id := s'.ops[id]];
    OpAt(s, id);
    OpSet(s, s', id);
    hide Apply, Enabled, OpOk;
    ReadyFrame(s, s');
    NoDupConcat([id], s.inflight);
    CountFrame(s, s');
    DestroyFrame(s, s');
    WorkerFrame(s, s');
    if PostOwed(s) { PostOwedFrame(s, s'); }
    WakeFrame(s, s');
  }

  lemma WithoutContents(s: seq<OpId>, id: OpId)
    requires NoDup(s)
    ensures NoDup(Without(s, id))
    ensures forall x :: x in Without(s, id) <==> x in s && x != id
  {
    if id in s {
      RemoveAtContents(s, IndexOf(s, id));
    }
  }

  lemma InflightRemoved(s: State, s': State, id: OpId)
    requires InflightOk(s) && id in s.ops && id in s'.ops && s'.ops == s.ops[id := s'.ops[id]]
    requires !OnInflight(s'.ops[id]) && s'.inflight == Without(s.inflight, id)
    ensures InflightOk(s')
  {
    WithoutContents(s.inflight, id);
  }

  lemma SpliceLists(s: State, id: OpId)
    requires OpsOk(s) && ReadyOk(s) && InflightOk(s) && Enabled(s, Splice(id))
    ensures var s' := Apply(s, Splice(id)); OpsOk(s') && ReadyOk(s') && InflightOk(s')
  {
    hide OpsOk, ReadyOk, InflightOk, PhaseOk, Without;
    var s' := Apply(s, Splice(id));
    assert s'.ops == s.ops[id := s'.ops[id]];
    OpAt(s, id);
    OpSet(s, s', id);
    hide Apply, Enabled, OpOk;
    ReadyFrame(s, s');
    InflightRemoved(s, s', id);
  }

  lemma SpliceKeeps(s: State, id: OpId)
    requires Inv(s) && Enabled(s, Splice(id))
    ensures Inv(Apply(s, Splice(id)))
  {
    hide OpsOk, ReadyOk, InflightOk, CountOk, DestroyOk, WorkerOk, WakeOk, PhaseOk, PostOwed, Without;
    SpliceLists(s, id);
    var s' := Apply(s, Splice(id));
    assert s'.ops == s.ops[id := s'.ops[id]];
    OpAt(s, id);
    hide Apply, Enabled, OpOk;
    CountFrame(s, s');
    DestroyFrame(s, s');
    WorkerFrame(s, s');
    if PostOwed(s) { PostOwedFrame(s, s'); }
    WakeFrame(s, s');
  }

  /** Putting ops in front of the ready stack, whose top their last element points to. */
  lemma ListPrepend(h: Option<OpId>, ops: map<OpId, Op>, c: seq<OpId>, stack: seq<OpId>)
    requires IsList(h, ops, stack) && IsSegment(ops, c) && c != []
    requires ops[c[|c| - 1]].next == h
    ensures IsList(Some(c[0]), ops, c + stack)
  {
    var l := c + stack;
    assert forall k :: 0 <= k < |l| ==> l[k] in ops;
    forall k | 0 <= k < |l|
      ensures ops[l[k]].next == After(l, k)
    {
      if k < |c| {
        assert l[k] == c[k];
      } else {
        assert l[k] == stack[k - |c|] && After(l, k) == After(stack, k - |c|);
      }
    }
  }

  /** A linearised push: `c`, newest first, goes on the stack. */
  lemma PushReady(s: State, s': State, c: seq<OpId>)
    requires ReadyOk(s) && NoDup(c) && c != []
    requires forall id :: id in c ==> id in s.ops && !Pushed(s.ops[id])
    requires s'.ops.Keys == s.ops.Keys
    requires forall id :: id in s.ops ==>
               s'.ops[id].next == s.ops[id].next && s'.ops[id].stage == if id in c then Ready else s.ops[id].stage
    requires IsSegment(s.ops, c) && s.ops[c[|c| - 1]].next == s.head
    requires s'.head == Some(c[0]) && s'.stack == c + s.stack && s'.pushLog == s.pushLog + Reverse(c)
    requires s'.batch == s.batch && s'.procLog == s.procLog
    ensures ReadyOk(s')
  {
    hide IsList, IsSegment, LogsOk, StagesOk, NoDup, Reverse;
    PushLogs(s, s', c);
    PushList(s, s', c);
    PushStages(s, s', c);
  }

  lemma PushStages(s: State, s': State, c: seq<OpId>)
    requires StagesOk(s) && s'.ops.Keys == s.ops.Keys
    requires forall id :: id in c ==> id in s.ops && !Pushed(s.ops[id])
    requires forall id :: id in s.ops ==> s'.ops[id].stage == if id in c then Ready else s.ops[id].stage
    requires forall id :: id in s'.pushLog <==> id in s.pushLog || id in c
    requires s'.stack == c + s.stack && s'.batch == s.batch && s'.procLog == s.procLog
    ensures StagesOk(s')
  {
  }

  lemma PushLogs(s: State, s': State, c: seq<OpId>)
    requires LogsOk(s) && StagesOk(s) && NoDup(c)
    requires forall id :: id in c ==> id in s.ops && !Pushed(s.ops[id])
    requires s'.stack == c + s.stack && s'.batch == s.batch && s'.procLog == s.procLog
    requires s'.pushLog == s.pushLog + Reverse(c)
    ensures LogsOk(s')
    ensures forall x :: x in s'.pushLog <==> x in s.pushLog || x in c
  {
    ReverseConcat(c, s.stack);
    ReverseContents(c);
    NoDupConcat(s.pushLog, Reverse(c));
  }

  lemma PushList(s: State, s': State, c: seq<OpId>)
    requires IsList(s.head, s.ops, s.stack) && IsSegment(s.ops, c) && c != []
    requires s.ops[c[|c| - 1]].next == s.head
    requires s'.ops.Keys == s.ops.Keys
    requires forall id :: id in s.ops ==> s'.ops[id].next == s.ops[id].next
    ensures IsList(Some(c[0]), s'.ops, c + s.stack)
  {
    assert IsList(s.head, s'.ops, s.stack);
    assert IsSegment(s'.ops, c);
    ListPrepend(s.head, s'.ops, c, s.stack);
  }

  lemma ReverseContents(c: seq<OpId>)
    requires NoDup(c)
    ensures NoDup(Reverse(c))
    ensures forall x :: x in Reverse(c) <==> x in c
  {
    forall x | x in c
      ensures x in Reverse(c)
    {
      var k :| 0 <= k < |c| && c[k] == x;
      assert Reverse(c)[|c| - 1 - k] == x;
    }
  }

  lemma SwungOp(op: Op)
    requires OpOk(op) && op.stage.Swinging?
    ensures OpOk(op.(stage := Ready, owesPost := true)) && op.armed == |op.waits|
  {
    NonePending(op.waits);
  }

  /** The state after a successful push. */
  function PushedState(s: State, id: OpId): (s': State)
    requires id in s.ops
  {
    s.(ops := s.ops[id := s.ops[id].(stage := Ready, owesPost := true)], head := Some(id),
       stack := [id] + s.stack, pushLog := s.pushLog + [id])
  }

  lemma PushedLists(s: State, id: OpId)
    requires OpsOk(s) && ReadyOk(s) && InflightOk(s) && id in s.ops && s.ops[id].stage.Swinging?
    requires s.head == s.ops[id].next
    ensures var s' := PushedState(s, id); OpsOk(s') && ReadyOk(s') && InflightOk(s')
  {
    hide OpsOk, ReadyOk, InflightOk, OpOk, PhaseOk;
    var s' := PushedState(s, id);
    OpAt(s, id);
    SwungOp(s.ops[id]);
    OpSet(s, s', id);
    assert Reverse([id]) == [id];
    PushReady(s, s', [id]);
    InflightFrame(s, s');
  }

  lemma PushedRest(s: State, id: OpId)
    requires CountOk(s) && DestroyOk(s) && WorkerOk(s) && WakeOk(s) && OpsOk(s) && id in s.ops
    requires s.ops[id].stage.Swinging?
    ensures var s' := PushedState(s, id); CountOk(s') && DestroyOk(s') && WorkerOk(s') && WakeOk(s')
  {
    hide CountOk, DestroyOk, WorkerOk, WakeOk, OpsOk, OpOk, PhaseOk;
    var s' := PushedState(s, id);
    OpAt(s, id);
    CountFrame(s, s');
    DestroyFrame(s, s');
    WorkerFrame(s, s');
    assert s'.ops[id].owesPost;
    WakeByPost(s, s');
  }

  lemma PushKeeps(s: State, id: OpId)
    requires Inv(s) && Enabled(s, PushCas(id))
    ensures Inv(Apply(s, PushCas(id)))
  {
    hide OpsOk, ReadyOk, InflightOk, CountOk, DestroyOk, WorkerOk, WakeOk;
    if s.head == s.ops[id].next {
      assert Apply(s, PushCas(id)) == PushedState(s, id);
      hide Apply, Enabled;
      PushedLists(s, id);
      PushedRest(s, id);
    } else {
      LoadHeadKeeps(s, id);
    }
  }

  lemma PostKeeps(s: State, id: OpId)
    requires Inv(s) && Enabled(s, Post(id))
    ensures Inv(Apply(s, Post(id)))
  {
    hide OpsOk, ReadyOk, InflightOk, CountOk, DestroyOk, WorkerOk, WakeOk, OpOk, PostOwed, PhaseOk;
    var s' := Apply(s, Post(id));
    OpAt(s, id);
    PostedOp(s.ops[id]);
    OpSet(s, s', id);
    WakeAfterPost(s, s');
    ReadyFrame(s, s');
    InflightFrame(s, s');
    CountFrame(s, s');
    DestroyFrame(s, s');
    WorkerFrame(s, s');
  }

  lemma PostedOp(op: Op)
    requires OpOk(op)
    ensures OpOk(op.(owesPost := false))
    ensures forall phase :: PhaseOk(op, phase) ==> PhaseOk(op.(owesPost := false), phase)
  {
  }
}
