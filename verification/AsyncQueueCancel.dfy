/**
 * The order in which cancelled ops are served. A comment in the source says it is submission order;
 * it is the opposite: among the ops that one shutdown walk cancels, the worker sees the newest first.
 */
module AsyncQueueCancel {
  import opened Common
  import opened AsyncQueue
  import opened AsyncQueueInvariant
  import opened AsyncQueueTheorems

  ghost predicate Precedes(l: seq<OpId>, a: OpId, b: OpId)
  {
    exists i, j :: 0 <= i < j < |l| && l[i] == a && l[j] == b
  }

  lemma PrecedesOneWay(l: seq<OpId>, a: OpId, b: OpId)
    requires NoDup(l) && Precedes(l, a, b)
    ensures !Precedes(l, b, a)
  {
  }

  // ---- the walk

  /** The walk goes through `l` from the front and puts what it cancels in front of its chain. */
  ghost predicate Walking(d: Destroyer, l: seq<OpId>)
  {
    match d
    case Walk(todo, _, _, chain) => |todo| <= |l| && todo == l[|l| - |todo|..] && Backwards(chain, l, |l| - |todo|)
    case PushChain(chain, _) => Backwards(chain, l, |l|)
    case Idle => false
    case _ => true
  }

  /** `chain` holds elements of the first `m` of `l`, in the opposite order. */
  ghost predicate Backwards(chain: seq<OpId>, l: seq<OpId>, m: nat)
  {
    && m <= |l|
    && (forall p :: 0 <= p < |chain| ==> chain[p] in l[..m])
    && (forall p, q :: 0 <= p < q < |chain| ==> Precedes(l, chain[q], chain[p]))
  }

  lemma BackwardsNext(chain: seq<OpId>, l: seq<OpId>, m: nat)
    requires m < |l| && Backwards(chain, l, m)
    ensures Backwards(chain, l, m + 1) && Backwards([l[m]] + chain, l, m + 1)
  {
    assert l[..m + 1] == l[..m] + [l[m]];
    var c := [l[m]] + chain;
    forall p, q | 0 <= p < q < |c|
      ensures Precedes(l, c[q], c[p])
    {
      if p == 0 {
        assert c[q] == chain[q - 1] && chain[q - 1] in l[..m];
        var i :| 0 <= i < m && l[..m][i] == c[q];
        assert l[i] == c[q] && l[m] == c[p];
      } else {
        assert c[q] == chain[q - 1] && c[p] == chain[p - 1];
      }
    }
  }

  predicate DestroySide(step: Step)
  {
    !WorkerSide(step) && !EnqueueSide(step)
  }

  lemma StepWalking(s: State, step: Step, l: seq<OpId>)
    requires Enabled(s, step) && Walking(s.destroyer, l)
    ensures Walking(Apply(s, step).destroyer, l)
  {
    if DestroySide(step) {
      DestroyWalking(s, step, l);
    } else {
      OthersKeepDestroyer(s, step);
    }
    hide *;
  }

  lemma OthersKeepDestroyer(s: State, step: Step)
    requires Enabled(s, step) && !DestroySide(step)
    ensures Apply(s, step).destroyer == s.destroyer
  {
    hide IsList, Reverse, Without, SetStages, Registered, NotedOp, Settled, Treated, NextPhase;
  }

  lemma DestroyWalking(s: State, step: Step, l: seq<OpId>)
    requires Enabled(s, step) && DestroySide(step) && Walking(s.destroyer, l)
    ensures Walking(Apply(s, step).destroyer, l)
  {
    hide NoEnqueueRunning, IsList, Reverse, Without, Backwards;
    if step.DestroySettle? || step.DestroySkip? {
      var m := |l| - |s.destroyer.todo|;
      assert s.destroyer.todo[0] == l[m] && s.destroyer.todo[1..] == l[m + 1..];
      BackwardsNext(s.destroyer.chain, l, m);
    }
  }

  /** From the start of the walk on, what is cancelled is chained against list order. */
  lemma {:induction false} RunWalking(trace: seq<State>, steps: seq<Step>, j: nat, k: nat)
    requires Run(trace, steps) && j < k < |trace| && steps[j] == DestroyLock
    ensures Walking(trace[k].destroyer, trace[j].inflight)
    decreases k
  {
    hide Enabled, Apply, Walking;
    if k == j + 1 {
      LockWalks(trace[j]);
    } else {
      RunWalking(trace, steps, j, k - 1);
      StepWalking(trace[k - 1], steps[k - 1], trace[j].inflight);
    }
  }

  lemma LockWalks(s: State)
    requires Enabled(s, DestroyLock)
    ensures Walking(Apply(s, DestroyLock).destroyer, s.inflight)
  {
  }

  // ---- the inflight list

  ghost predicate NotNew(s: State, id: OpId)
  {
    id in s.ops && !s.ops[id].stage.New?
  }

  /** An op is linked once: it never is new again. */
  lemma NotNewAgain(s: State, step: Step, id: OpId)
    requires Enabled(s, step) && NotNew(s, id)
    ensures NotNew(Apply(s, step), id)
  {
    if WorkerSide(step) {
      WorkerNotNew(s, step, id);
    } else if EnqueueSide(step) {
      EnqueueNotNew(s, step, id);
    } else {
      DestroyNotNew(s, step, id);
    }
    hide *;
  }

  lemma WorkerNotNew(s: State, step: Step, id: OpId)
    requires Enabled(s, step) && NotNew(s, id) && WorkerSide(step)
    ensures NotNew(Apply(s, step), id)
  {
    if step.WorkerProcess? {
      ProcessNotNew(s, step, id);
    } else if step.WorkerExchange? {
      ExchangeNotNew(s, step, id);
    } else {
      hide IsList, Reverse, SetStages, Process;
    }
  }

  lemma ProcessNotNew(s: State, step: Step, id: OpId)
    requires Enabled(s, step) && NotNew(s, id) && step.WorkerProcess?
    ensures NotNew(Apply(s, step), id)
  {
    assert Apply(s, step) == Process(s, s.worker.id, s.worker.phase, step.ok);
    hide Apply, Enabled;
  }

  lemma ExchangeNotNew(s: State, step: Step, id: OpId)
    requires Enabled(s, step) && NotNew(s, id) && step.WorkerExchange?
    ensures NotNew(Apply(s, step), id)
  {
    hide IsList, Reverse;
  }

  lemma EnqueueNotNew(s: State, step: Step, id: OpId)
    requires Enabled(s, step) && NotNew(s, id) && EnqueueSide(step)
    ensures NotNew(Apply(s, step), id)
  {
    hide IsList, Reverse, Without;
  }

  lemma DestroyNotNew(s: State, step: Step, id: OpId)
    requires Enabled(s, step) && NotNew(s, id) && DestroySide(step)
    ensures NotNew(Apply(s, step), id)
  {
    hide IsList, Reverse, Without, NoEnqueueRunning;
  }

  ghost predicate InOrder(s: State, a: OpId, b: OpId)
  {
    && NotNew(s, a) && NotNew(s, b)
    && (a in s.inflight && b in s.inflight ==> Precedes(s.inflight, a, b))
  }

  /** How a step changes the inflight list. */
  ghost predicate ListChanges(s: State, step: Step, l': seq<OpId>)
  {
    || l' == s.inflight
    || (step.Link? && step.id in s.ops && s.ops[step.id].stage.New? && l' == [step.id] + s.inflight)
    || exists id :: l' == Without(s.inflight, id)
  }

  lemma InflightChange(s: State, step: Step)
    requires Enabled(s, step)
    ensures ListChanges(s, step, Apply(s, step).inflight)
  {
    hide IsList, Reverse, NoEnqueueRunning, Without, SetStages;
    if WorkerSide(step) {
      WorkerKeepsList(s, step);
      hide Apply, Enabled;
    } else if EnqueueSide(step) {
      hide CancelOne, SettleCancelled, Process;
    } else {
      hide Process;
    }
  }

  lemma WorkerKeepsList(s: State, step: Step)
    requires Enabled(s, step) && WorkerSide(step)
    ensures Apply(s, step).inflight == s.inflight
  {
    hide IsList, Reverse, SetStages;
  }

  lemma WithoutKeepsOrder(l: seq<OpId>, id: OpId, a: OpId, b: OpId)
    requires NoDup(l)
    ensures forall x :: x in Without(l, id) ==> x in l && x != id
    ensures Precedes(l, a, b) && a != id && b != id ==> Precedes(Without(l, id), a, b)
  {
    if id in l {
      var k := IndexOf(l, id);
      var r := RemoveAt(l, k);
      RemoveAtContents(l, k);
      if Precedes(l, a, b) && a != id && b != id {
        var i, j :| 0 <= i < j < |l| && l[i] == a && l[j] == b;
        var i', j' := if i < k then i else i - 1, if j < k then j else j - 1;
        assert r[i'] == a && r[j'] == b;
      }
    }
  }

  lemma StepInOrder(s: State, step: Step, a: OpId, b: OpId)
    requires Inv(s) && Enabled(s, step) && InOrder(s, a, b)
    ensures InOrder(Apply(s, step), a, b)
  {
    hide Inv, Enabled, Apply, NotNew;
    NotNewAgain(s, step, a);
    NotNewAgain(s, step, b);
    ListNoDup(s);
    if a in Apply(s, step).inflight && b in Apply(s, step).inflight {
      ListInOrder(s, step, a, b);
    }
  }

  lemma ListInOrder(s: State, step: Step, a: OpId, b: OpId)
    requires Enabled(s, step) && InOrder(s, a, b) && NoDup(s.inflight)
    requires a in Apply(s, step).inflight && b in Apply(s, step).inflight
    ensures Precedes(Apply(s, step).inflight, a, b)
  {
    InflightChange(s, step);
    var l, l' := s.inflight, Apply(s, step).inflight;
    hide Enabled, Apply, NoDup, Without;
    if l' == l {
    } else if step.Link? && step.id in s.ops && s.ops[step.id].stage.New? && l' == [step.id] + l {
      var i, j :| 0 <= i < j < |l| && l[i] == a && l[j] == b;
      assert l'[i + 1] == a && l'[j + 1] == b;
    } else {
      var id :| l' == Without(l, id);
      WithoutKeepsOrder(l, id, a, b);
    }
  }

  lemma {:induction false} RunInOrder(trace: seq<State>, steps: seq<Step>, a: OpId, b: OpId, i: nat, k: nat)
    requires Run(trace, steps) && i <= k < |trace| && InOrder(trace[i], a, b)
    ensures InOrder(trace[k], a, b)
    decreases k
  {
    hide Enabled, Apply, InOrder, Inv;
    if i < k {
      RunInOrder(trace, steps, a, b, i, k - 1);
      RunInv(trace, steps, k - 1);
      StepInOrder(trace[k - 1], steps[k - 1], a, b);
    }
  }

  /** Linking puts the new op before all older ones. */
  lemma LinkedFirst(s: State, a: OpId, b: OpId)
    requires Inv(s) && Enabled(s, Link(a)) && b in s.inflight
    ensures InOrder(Apply(s, Link(a)), a, b)
  {
    hide OpsOk, ReadyOk, CountOk, DestroyOk, WorkerOk, WakeOk;
    var l := [a] + s.inflight;
    var j :| 0 <= j < |s.inflight| && s.inflight[j] == b;
    assert l[0] == a && l[j + 1] == b;
  }

  /** A successful push of the walk's chain. */
  ghost predicate PushesChain(s: State, step: Step)
  {
    && step == DestroyCas && Enabled(s, step) && s.destroyer.PushChain?
    && s.head == s.ops[s.destroyer.chain[|s.destroyer.chain| - 1]].next
  }

  /**
   * If `a` was submitted after `b`, both waited when the shutdown walk began, and the walk cancelled
   * both, then `a` is pushed before `b`; by ProcessedInPushOrder the worker serves it before `b`.
   */
  lemma CancelledNewestFirst(trace: seq<State>, steps: seq<Step>, i: nat, j: nat, k: nat, a: OpId, b: OpId)
    requires Run(trace, steps) && i < j < k < |steps|
    requires steps[i] == Link(a) && b in trace[i].inflight && steps[j] == DestroyLock && PushesChain(trace[k], steps[k])
    requires a in trace[k].destroyer.chain && b in trace[k].destroyer.chain
    ensures Precedes(trace[k + 1].pushLog, a, b)
  {
    hide Inv, Enabled, Apply, Walking, NotNew, Backwards, Precedes, Reverse;
    var chain, l := trace[k].destroyer.chain, trace[j].inflight;
    RunInv(trace, steps, i);
    LinkedFirst(trace[i], a, b);
    RunInOrder(trace, steps, a, b, i + 1, j);
    RunWalking(trace, steps, j, k);
    ChainPushed(trace[k], l);
    RunInv(trace, steps, j);
    ListNoDup(trace[j]);
    hide NoDup;
    ChainOrder(chain, l, a, b);
    AppendedOrder(trace[k].pushLog, chain, a, b);
  }

  lemma ChainPushed(s: State, l: seq<OpId>)
    requires PushesChain(s, DestroyCas) && Walking(s.destroyer, l)
    ensures Apply(s, DestroyCas).pushLog == s.pushLog + Reverse(s.destroyer.chain)
    ensures Backwards(s.destroyer.chain, l, |l|)
  {
    hide Reverse, Backwards;
  }

  lemma ListNoDup(s: State)
    requires Inv(s)
    ensures NoDup(s.inflight)
  {
  }

  lemma ChainOrder(chain: seq<OpId>, l: seq<OpId>, a: OpId, b: OpId)
    requires NoDup(l) && Backwards(chain, l, |l|) && a in chain && b in chain
    requires a in l && b in l ==> Precedes(l, a, b)
    ensures Precedes(chain, b, a)
  {
    assert l[..|l|] == l;
    var p :| 0 <= p < |chain| && chain[p] == b;
    var q :| 0 <= q < |chain| && chain[q] == a;
    assert chain[p] in l[..|l|] && chain[q] in l[..|l|];
    PrecedesOneWay(l, a, b);
    assert forall x, y :: 0 <= x < y < |chain| ==> Precedes(l, chain[y], chain[x]);
    assert a != b;
  }

  lemma AppendedOrder(log: seq<OpId>, chain: seq<OpId>, a: OpId, b: OpId)
    requires Precedes(chain, b, a)
    ensures Precedes(log + Reverse(chain), a, b)
  {
    var p, q :| 0 <= p < q < |chain| && chain[p] == b && chain[q] == a;
    var r := log + Reverse(chain);
    assert r[|log| + |chain| - 1 - q] == a && r[|log| + |chain| - 1 - p] == b;
  }
}
