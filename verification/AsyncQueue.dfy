/**
 * The NPU driver's asynchronous work queue as a step system.
 *
 * Every atomic access, every critical section that contains no other atomic access and every call
 * out of the queue is one step; steps of enqueuers, timepoint callbacks, the shutdown walk and the
 * worker interleave freely. A callback, an enqueuer whose registration failed and an enqueuer with
 * an empty wait list all run the same push code, so that code is written once, per op.
 */
module AsyncQueue {
  import opened Common

  type OpId = nat

  /** One wait entry. Its decrement of `wait_count` is still owed until it is `Accounted`. */
  datatype Wait =
    | Unarmed              // the registration loop has not reached it
    | Armed                // timepoint registered: may fire once or be cancelled once
    | Fired(ok: bool)      // callback entered with this status
    | RegFailed            // acquire_timepoint returned an error
    | Cancelled            // cancel_timepoint won by the shutdown walk
    | Noted(ok: bool)      // any error stored, fetch_sub still to come
    | Accounted(ok: bool)  // fetch_sub done

  datatype Stage =
    | New       // counted in inflight_count, not yet linked
    | Waiting   // on the inflight list
    | Claimed   // some party took wait_count to zero and is about to push
    | Spliced   // off the inflight list, about to load ready_head
    | Swinging  // next_ready holds the expected ready_head; about to compare and swap
    | Chained   // collected by the shutdown walk
    | Ready     // on the ready stack
    | Batched   // taken by the worker
    | Current   // being processed by the worker
    | Released

  datatype Op = Op(
    waits: seq<Wait>,
    waitCount: int,
    won: nat,             // the shutdown walk's local count of cancels won on this op
    error: bool,          // error_status is set
    armed: nat,           // registration loop index
    stage: Stage,
    next: Option<OpId>,   // next_ready
    owesPost: bool,       // pushed; its pusher has yet to post the worker notification
    hasBody: bool,
    hasCleanup: bool,
    bodies: nat,          // history: what has been done for the op
    signals: nat,
    fails: nat,
    cleanups: nat,
    releases: nat)

  datatype Phase = LoadError | RunBody | Signal | Fail | Cleanup | Resources | Uncount

  datatype Worker =
    | Top
    | Exchange(sd: bool)
    | CheckDrain(sd: bool)
    | Prepare(sd: bool)
    | Prepared(sd: bool, token: nat)
    | HeadSeen(sd: bool, token: nat, empty: bool)
    | Asleep(sd: bool, token: nat)
    | NextOp
    | Processing(id: OpId, phase: Phase)
    | Exited

  datatype Destroyer =
    | Idle
    | Walk(todo: seq<OpId>, i: nat, noted: bool, chain: seq<OpId>)  // holds inflight_mutex
    | PushChain(chain: seq<OpId>, loaded: bool)
    | PostChain
    | Await
    | SetShutdown
    | PostShutdown
    | Join
    | Done

  datatype State = State(
    ops: map<OpId, Op>,
    head: Option<OpId>,     // ready_head
    inflight: seq<OpId>,    // inflight list from inflight_head
    inflightCount: int,
    shutdown: bool,
    epoch: nat,             // worker notification epoch: advanced by each post
    worker: Worker,
    batch: seq<OpId>,       // what is left of the worker's reversed chunk
    destroyer: Destroyer,
    stack: seq<OpId>,       // history: ops on the ready stack, newest first
    pushLog: seq<OpId>,     // history: linearised push order
    procLog: seq<OpId>)     // history: processing order

  datatype Step =
    | Accept(id: OpId, n: nat, hasBody: bool, hasCleanup: bool)
    | Link(id: OpId)
    | Register(id: OpId, ok: bool)
    | Fire(id: OpId, i: nat, ok: bool)
    | Note(id: OpId, i: nat)
    | Settle(id: OpId, i: nat)
    | Splice(id: OpId)
    | PushLoad(id: OpId)
    | PushCas(id: OpId)
    | Post(id: OpId)
    | WorkerLoadShutdown
    | WorkerExchange(chain: seq<OpId>)
    | WorkerCheckDrain
    | WorkerPrepare
    | WorkerLoadHead
    | WorkerRecheckShutdown
    | WorkerWake
    | WorkerNext
    | WorkerProcess(ok: bool)
    | DestroyLock
    | DestroyCancel
    | DestroyNote
    | DestroySettle
    | DestroySkip
    | DestroyUnlock
    | DestroyLoadHead
    | DestroyCas
    | DestroyPostChain
    | DestroyDrained
    | DestroySetShutdown
    | DestroyPostShutdown
    | DestroyJoin

  /** Waits whose decrement of `wait_count` has not happened yet. */
  function Pending(ws: seq<Wait>): (n: nat)
  {
    if ws == [] then 0 else (if ws[0].Accounted? then 0 else 1) + Pending(ws[1..])
  }

  function CountCancelled(ws: seq<Wait>): (n: nat)
  {
    if ws == [] then 0 else (if ws[0].Cancelled? then 1 else 0) + CountCancelled(ws[1..])
  }

  /** All cancels the walk won on an op are accounted by its single fetch_sub. */
  function AccountCancelled(ws: seq<Wait>): (r: seq<Wait>)
    ensures |r| == |ws|
    ensures forall i :: 0 <= i < |ws| ==> r[i] == if ws[i].Cancelled? then Accounted(false) else ws[i]
  {
    seq(|ws|, i requires 0 <= i < |ws| => if ws[i].Cancelled? then Accounted(false) else ws[i])
  }

  function After(c: seq<OpId>, k: nat): (r: Option<OpId>)
    requires k < |c|
  {
    if k + 1 < |c| then Some(c[k + 1]) else None
  }

  /** `c` is the null-terminated list that starts at `h` and follows `next_ready`. */
  ghost predicate IsList(h: Option<OpId>, ops: map<OpId, Op>, c: seq<OpId>)
  {
    && h == First(c)
    && (forall k :: 0 <= k < |c| ==> c[k] in ops)
    && (forall k :: 0 <= k < |c| ==> ops[c[k]].next == After(c, k))
  }

  /** `c` is linked from element to element; the last link is not constrained. */
  ghost predicate IsSegment(ops: map<OpId, Op>, c: seq<OpId>)
  {
    && (forall k :: 0 <= k < |c| ==> c[k] in ops)
    && (forall k :: 0 <= k < |c| - 1 ==> ops[c[k]].next == After(c, k))
  }

  function Init(): (s: State)
  {
    State(map[], None, [], 0, false, 0, Top, [], Idle, [], [], [])
  }

  function NewOp(n: nat, hasBody: bool, hasCleanup: bool): (op: Op)
  {
    Op(seq(n, _ => Unarmed), n, 0, false, 0, if n == 0 then Claimed else New, None, false,
       hasBody, hasCleanup, 0, 0, 0, 0, 0)
  }

  /** No enqueue is in progress (destroy's contract with its callers). */
  ghost predicate NoEnqueueRunning(s: State)
  {
    forall id :: id in s.ops ==> !s.ops[id].stage.New? && s.ops[id].armed == |s.ops[id].waits|
  }

  ghost predicate MutexFree(s: State)
  {
    !s.destroyer.Walk?
  }

  ghost predicate AtWalk(s: State)
  {
    && s.destroyer.Walk?
    && s.destroyer.todo != []
    && s.destroyer.todo[0] in s.ops
  }

  ghost predicate Enabled(s: State, step: Step)
  {
    match step
    case Accept(id, n, _, _) => id !in s.ops && s.destroyer.Idle?
    case Link(id) => id in s.ops && s.ops[id].stage.New? && MutexFree(s)
    case Register(id, ok) =>
      && id in s.ops
      && var op := s.ops[id];
         !op.stage.New? && op.armed < |op.waits| && op.waits[op.armed].Unarmed?
    case Fire(id, i, ok) => id in s.ops && i < |s.ops[id].waits| && s.ops[id].waits[i].Armed?
    case Note(id, i) =>
      && id in s.ops && i < |s.ops[id].waits|
      && (s.ops[id].waits[i].Fired? || s.ops[id].waits[i].RegFailed?)
    case Settle(id, i) => id in s.ops && i < |s.ops[id].waits| && s.ops[id].waits[i].Noted?
    case Splice(id) => id in s.ops && s.ops[id].stage.Claimed? && MutexFree(s)
    case PushLoad(id) => id in s.ops && s.ops[id].stage.Spliced?
    case PushCas(id) => id in s.ops && s.ops[id].stage.Swinging?
    case Post(id) => id in s.ops && s.ops[id].owesPost
    case WorkerLoadShutdown => s.worker.Top?
    case WorkerExchange(chain) => s.worker.Exchange? && IsList(s.head, s.ops, chain)
    case WorkerCheckDrain => s.worker.CheckDrain?
    case WorkerPrepare => s.worker.Prepare?
    case WorkerLoadHead => s.worker.Prepared?
    case WorkerRecheckShutdown => s.worker.HeadSeen?
    case WorkerWake => s.worker.Asleep? && s.epoch != s.worker.token
    case WorkerNext => s.worker.NextOp? && (forall k :: 0 <= k < |s.batch| ==> s.batch[k] in s.ops)
    case WorkerProcess(ok) => s.worker.Processing? && s.worker.id in s.ops
    case DestroyLock => s.destroyer.Idle? && NoEnqueueRunning(s)
    case DestroyCancel => AtWalk(s) && s.destroyer.i < |s.ops[s.destroyer.todo[0]].waits|
    case DestroyNote =>
      && AtWalk(s) && s.destroyer.i >= |s.ops[s.destroyer.todo[0]].waits|
      && s.ops[s.destroyer.todo[0]].won > 0 && !s.destroyer.noted
    case DestroySettle =>
      && AtWalk(s) && s.destroyer.i >= |s.ops[s.destroyer.todo[0]].waits|
      && s.ops[s.destroyer.todo[0]].won > 0 && s.destroyer.noted
    case DestroySkip =>
      && AtWalk(s) && s.destroyer.i >= |s.ops[s.destroyer.todo[0]].waits|
      && s.ops[s.destroyer.todo[0]].won == 0
    case DestroyUnlock => s.destroyer.Walk? && s.destroyer.todo == []
    case DestroyLoadHead => s.destroyer.PushChain? && !s.destroyer.loaded && ChainIn(s)
    case DestroyCas => s.destroyer.PushChain? && s.destroyer.loaded && ChainIn(s)
    case DestroyPostChain => s.destroyer.PostChain?
    case DestroyDrained => s.destroyer.Await? && s.inflightCount == 0
    case DestroySetShutdown => s.destroyer.SetShutdown?
    case DestroyPostShutdown => s.destroyer.PostShutdown?
    case DestroyJoin => s.destroyer.Join? && s.worker.Exited?
  }

  ghost predicate ChainIn(s: State)
    requires s.destroyer.PushChain?
  {
    s.destroyer.chain != [] && forall k :: 0 <= k < |s.destroyer.chain| ==> s.destroyer.chain[k] in s.ops
  }

  ghost function Apply(s: State, step: Step): (s': State)
    requires Enabled(s, step)
  {
    match step
    case Accept(id, n, hasBody, hasCleanup) =>
      s.(ops := s.ops[id := NewOp(n, hasBody, hasCleanup)], inflightCount := s.inflightCount + 1)
    case Link(id) =>
      s.(ops := s.ops[id := s.ops[id].(stage := Waiting)], inflight := [id] + s.inflight)
    case Register(id, ok) => SetOp(s, id, Registered(s.ops[id], ok))
    case Fire(id, i, ok) => SetOp(s, id, s.ops[id].(waits := s.ops[id].waits[i := Fired(ok)]))
    case Note(id, i) => SetOp(s, id, NotedOp(s.ops[id], i))
    case Settle(id, i) => SetOp(s, id, Settled(s.ops[id], i))
    case Splice(id) =>
      s.(ops := s.ops[id := s.ops[id].(stage := Spliced)], inflight := Without(s.inflight, id))
    case PushLoad(id) => SetOp(s, id, s.ops[id].(stage := Swinging, next := s.head))
    case PushCas(id) =>
      if s.head == s.ops[id].next then
        s.(ops := s.ops[id := s.ops[id].(stage := Ready, owesPost := true)],
           head := Some(id), stack := [id] + s.stack, pushLog := s.pushLog + [id])
      else
        SetOp(s, id, s.ops[id].(next := s.head))
    case Post(id) => SetOp(s, id, s.ops[id].(owesPost := false)).(epoch := s.epoch + 1)
    case WorkerLoadShutdown => s.(worker := Exchange(s.shutdown))
    case WorkerExchange(chain) =>
      if chain == [] then
        s.(worker := CheckDrain(s.worker.sd))
      else
        s.(ops := SetStages(s.ops, chain, Batched), head := None, stack := [],
           batch := Reverse(chain), worker := NextOp)
    case WorkerCheckDrain =>
      if s.worker.sd && s.inflightCount == 0 then s.(worker := Exited)
      else s.(worker := Prepare(s.worker.sd))
    case WorkerPrepare => s.(worker := Prepared(s.worker.sd, s.epoch))
    case WorkerLoadHead => s.(worker := HeadSeen(s.worker.sd, s.worker.token, s.head.None?))
    case WorkerRecheckShutdown =>
      if s.worker.empty && s.shutdown == s.worker.sd
      then s.(worker := Asleep(s.worker.sd, s.worker.token))
      else s.(worker := Top)
    case WorkerWake => s.(worker := Top)
    case WorkerNext =>
      if s.batch == [] then s.(worker := Top)
      else
        s.(ops := s.ops[s.batch[0] := s.ops[s.batch[0]].(stage := Current)], batch := s.batch[1..],
           procLog := s.procLog + [s.batch[0]], worker := Processing(s.batch[0], LoadError))
    case WorkerProcess(ok) => Process(s, s.worker.id, s.worker.phase, ok)
    case DestroyLock => s.(destroyer := Walk(s.inflight, 0, false, []))
    case DestroyCancel => CancelOne(s)
    case DestroyNote =>
      SetOp(s, s.destroyer.todo[0], s.ops[s.destroyer.todo[0]].(error := true))
        .(destroyer := s.destroyer.(noted := true))
    case DestroySettle => SettleCancelled(s)
    case DestroySkip => s.(destroyer := Walk(s.destroyer.todo[1..], 0, false, s.destroyer.chain))
    case DestroyUnlock =>
      s.(destroyer := if s.destroyer.chain == [] then Await else PushChain(s.destroyer.chain, false))
    case DestroyLoadHead =>
      var tail := s.destroyer.chain[|s.destroyer.chain| - 1];
      SetOp(s, tail, s.ops[tail].(next := s.head)).(destroyer := s.destroyer.(loaded := true))
    case DestroyCas =>
      var chain := s.destroyer.chain;
      var tail := chain[|chain| - 1];
      if s.head == s.ops[tail].next then
        s.(ops := SetStages(s.ops, chain, Ready), head := Some(chain[0]), stack := chain + s.stack,
           pushLog := s.pushLog + Reverse(chain), destroyer := PostChain)
      else
        SetOp(s, tail, s.ops[tail].(next := s.head))
    case DestroyPostChain => s.(epoch := s.epoch + 1, destroyer := Await)
    case DestroyDrained => s.(destroyer := SetShutdown)
    case DestroySetShutdown => s.(shutdown := true, destroyer := PostShutdown)
    case DestroyPostShutdown => s.(epoch := s.epoch + 1, destroyer := Join)
    case DestroyJoin => s.(destroyer := Done)
  }

  function SetOp(s: State, id: OpId, op: Op): (s': State)
  {
    s.(ops := s.ops[id := op])
  }

  function SetStages(ops: map<OpId, Op>, ids: seq<OpId>, stage: Stage): (r: map<OpId, Op>)
  {
    map id | id in ops :: if id in ids then ops[id].(stage := stage) else ops[id]
  }

  function Without(s: seq<OpId>, id: OpId): (r: seq<OpId>)
  {
    if id in s then RemoveAt(s, IndexOf(s, id)) else s
  }

  /** One turn of the registration loop; on failure the index advances only after the decrement. */
  function Registered(op: Op, ok: bool): (r: Op)
    requires op.armed < |op.waits|
  {
    if ok then op.(waits := op.waits[op.armed := Armed], armed := op.armed + 1)
    else op.(waits := op.waits[op.armed := RegFailed])
  }

  function NotedOp(op: Op, i: nat): (r: Op)
    requires i < |op.waits|
  {
    var ok := op.waits[i].Fired? && op.waits[i].ok;
    op.(waits := op.waits[i := Noted(ok)], error := op.error || !ok)
  }

  function Settled(op: Op, i: nat): (r: Op)
    requires i < |op.waits| && op.waits[i].Noted?
  {
    op.(waits := op.waits[i := Accounted(op.waits[i].ok)],
        waitCount := op.waitCount - 1,
        armed := if i == op.armed then op.armed + 1 else op.armed,
        stage := if op.waitCount == 1 then Claimed else op.stage)
  }

  ghost function CancelOne(s: State): (s': State)
    requires Enabled(s, DestroyCancel)
  {
    var id := s.destroyer.todo[0];
    var op := s.ops[id];
    var s1 := s.(destroyer := s.destroyer.(i := s.destroyer.i + 1));
    if op.waits[s.destroyer.i].Armed? then
      SetOp(s1, id, op.(waits := op.waits[s.destroyer.i := Cancelled], won := op.won + 1))
    else
      s1
  }

  ghost function SettleCancelled(s: State): (s': State)
    requires Enabled(s, DestroySettle)
  {
    var id := s.destroyer.todo[0];
    var op := s.ops[id];
    var settled := op.(waits := AccountCancelled(op.waits), waitCount := op.waitCount - op.won, won := 0);
    if op.waitCount == op.won then
      s.(ops := s.ops[id := settled.(stage := Chained, next := First(s.destroyer.chain))],
         inflight := Without(s.inflight, id),
         destroyer := Walk(s.destroyer.todo[1..], 0, false, [id] + s.destroyer.chain))
    else
      s.(ops := s.ops[id := settled],
         destroyer := Walk(s.destroyer.todo[1..], 0, false, s.destroyer.chain))
  }

  /** One stage of the worker's treatment of an op; `ok` is the outcome of the call made there. */
  function Treated(op: Op, phase: Phase, ok: bool): (r: Op)
  {
    match phase
    case LoadError => op
    case RunBody => if op.hasBody then op.(bodies := op.bodies + 1) else op
    case Signal => if ok then op.(signals := op.signals + 1) else op
    case Fail => op.(fails := op.fails + 1)
    case Cleanup => if op.hasCleanup then op.(cleanups := op.cleanups + 1) else op
    case Resources => op.(releases := op.releases + 1)
    case Uncount => op.(stage := Released)
  }

  /** Where the worker goes from a stage; an op without a body has nothing to fail there. */
  function NextPhase(op: Op, phase: Phase, ok: bool): (r: Phase)
  {
    match phase
    case LoadError => if op.error then Fail else RunBody
    case RunBody => if op.hasBody && !ok then Fail else Signal
    case Signal => if ok then Cleanup else Fail
    case Fail => Cleanup
    case Cleanup => Resources
    case Resources => Uncount
    case Uncount => Uncount
  }

  function Process(s: State, id: OpId, phase: Phase, ok: bool): (s': State)
    requires id in s.ops
  {
    var op := s.ops[id];
    var s1 := SetOp(s, id, Treated(op, phase, ok));
    if phase.Uncount? then s1.(inflightCount := s.inflightCount - 1, worker := NextOp)
    else s1.(worker := Processing(id, NextPhase(op, phase, ok)))
  }

  /** A run of the queue from its creation: `trace` lists its states, `steps` what was done between them. */
  ghost predicate Run(trace: seq<State>, steps: seq<Step>)
  {
    && |trace| == |steps| + 1
    && trace[0] == Init()
    && forall k :: 0 <= k < |steps| ==>
         Enabled(trace[k], steps[k]) && trace[k + 1] == Apply(trace[k], steps[k])
  }
}
