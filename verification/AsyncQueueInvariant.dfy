/** What every step of the queue keeps. */
module AsyncQueueInvariant {
  import opened Common
  import opened AsyncQueue

  // ---- one op on its own

  predicate Bad(w: Wait)
  {
    (w.Noted? || w.Accounted?) && !w.ok
  }

  /** The registration loop's progress: everything before it has been armed, nothing after it. */
  ghost predicate LoopOk(op: Op)
  {
    && op.armed <= |op.waits|
    && (forall j :: op.armed < j < |op.waits| ==> op.waits[j].Unarmed?)
    && (op.armed < |op.waits| ==>
          op.waits[op.armed].Unarmed? || op.waits[op.armed].RegFailed? || op.waits[op.armed] == Noted(false))
    && (forall j :: 0 <= j < op.armed ==> !op.waits[j].Unarmed? && !op.waits[j].RegFailed?)
    && (op.stage.New? ==> op.armed == 0 && |op.waits| > 0 && op.waits[0].Unarmed?)
  }

  ghost predicate Untouched(op: Op)
  {
    op.bodies == 0 && op.signals == 0 && op.fails == 0 && op.cleanups == 0 && op.releases == 0
  }

  /** One outcome, one cleanup, one release. */
  ghost predicate Finished(op: Op)
  {
    && op.signals + op.fails == 1
    && op.cleanups == (if op.hasCleanup then 1 else 0)
    && op.releases == 1
  }

  ghost predicate CleanWaits(op: Op)
  {
    forall i :: 0 <= i < |op.waits| ==> op.waits[i] == Accounted(true)
  }

  /** `wait_count` is exact, and an op is unclaimed exactly while it is positive. */
  ghost predicate WaitsOk(op: Op)
  {
    && op.waitCount == Pending(op.waits)
    && op.won == CountCancelled(op.waits)
    && LoopOk(op)
    && ((op.stage.New? || op.stage.Waiting?) <==> op.waitCount > 0)
    && (op.won > 0 ==> op.stage.Waiting?)
    && ((exists i :: 0 <= i < |op.waits| && Bad(op.waits[i])) ==> op.error)
  }

  /** A body and a signal only after clean waits; nothing before the worker; all of it by release. */
  ghost predicate HistoryOk(op: Op)
  {
    && op.bodies <= 1
    && (op.bodies > 0 ==> CleanWaits(op) && op.hasBody)
    && (op.signals > 0 ==> CleanWaits(op) && (op.hasBody ==> op.bodies == 1))
    && (!op.stage.Current? && !op.stage.Released? ==> Untouched(op))
    && (op.stage.Released? ==> Finished(op))
    && (op.owesPost ==> Pushed(op))
  }

  ghost predicate OpOk(op: Op)
  {
    WaitsOk(op) && HistoryOk(op)
  }

  /** Where the worker is in an op's treatment fixes what has been done for it. */
  ghost predicate PhaseOk(op: Op, phase: Phase)
  {
    && op.cleanups == (if (phase.Resources? || phase.Uncount?) && op.hasCleanup then 1 else 0)
    && op.releases == (if phase.Uncount? then 1 else 0)
    && op.signals + op.fails == (if phase.Cleanup? || phase.Resources? || phase.Uncount? then 1 else 0)
    && (phase.LoadError? || phase.RunBody? ==> op.bodies == 0)
    && (phase.RunBody? || phase.Signal? ==> !op.error)
    && (phase.Signal? && op.hasBody ==> op.bodies == 1)
  }

  predicate Pushed(op: Op)
  {
    op.stage.Ready? || op.stage.Batched? || op.stage.Current? || op.stage.Released?
  }

  predicate OnInflight(op: Op)
  {
    op.stage.Waiting? || (op.stage.Claimed? && |op.waits| > 0)
  }

  // ---- the queue

  ghost predicate OpsOk(s: State)
  {
    forall id :: id in s.ops ==> OpOk(s.ops[id])
  }

  /** Processing order is push order: what was processed, then the batch, then the stack upside down. */
  ghost predicate LogsOk(s: State)
  {
    s.pushLog == s.procLog + s.batch + Reverse(s.stack) && NoDup(s.pushLog)
  }

  ghost predicate StagesOk(s: State)
  {
    && (forall id :: id in s.pushLog <==> id in s.ops && Pushed(s.ops[id]))
    && (forall id :: id in s.stack ==> id in s.ops && s.ops[id].stage.Ready?)
    && (forall id :: id in s.batch ==> id in s.ops && s.ops[id].stage.Batched?)
    && (forall id :: id in s.procLog ==> id in s.ops && (s.ops[id].stage.Current? || s.ops[id].stage.Released?))
  }

  /** The ready side: the linked stack, the worker's batch and the logs agree with the ops' stages. */
  ghost predicate ReadyOk(s: State)
  {
    IsList(s.head, s.ops, s.stack) && LogsOk(s) && StagesOk(s)
  }

  ghost predicate InflightOk(s: State)
  {
    && NoDup(s.inflight)
    && (forall id :: id in s.inflight <==> id in s.ops && OnInflight(s.ops[id]))
  }

  ghost function Live(ops: map<OpId, Op>): (r: set<OpId>)
  {
    set id | id in ops && !ops[id].stage.Released?
  }

  ghost predicate CountOk(s: State)
  {
    s.inflightCount == |Live(s.ops)|
  }

  ghost function Chain(s: State): (c: seq<OpId>)
  {
    if s.destroyer.Walk? || s.destroyer.PushChain? then s.destroyer.chain else []
  }

  ghost predicate DestroyOk(s: State)
  {
    && (!s.destroyer.Idle? ==> NoEnqueueRunning(s))
    && NoDup(Chain(s))
    && (forall id :: id in Chain(s) <==> id in s.ops && s.ops[id].stage.Chained?)
    && IsSegment(s.ops, Chain(s))
    && (s.destroyer.Walk? ==> IsList(First(s.destroyer.chain), s.ops, s.destroyer.chain))
    && (s.destroyer.PushChain? ==> s.destroyer.chain != [])
    && (s.destroyer.Walk? ==>
          && NoDup(s.destroyer.todo)
          && (forall id :: id in s.destroyer.todo ==> id in s.inflight)
          && (s.destroyer.noted ==>
                s.destroyer.todo != [] && s.destroyer.todo[0] in s.ops && s.ops[s.destroyer.todo[0]].error))
    && (forall id :: id in s.ops && s.ops[id].won > 0 ==>
          s.destroyer.Walk? && s.destroyer.todo != [] && s.destroyer.todo[0] == id)
    && (s.destroyer.SetShutdown? || s.shutdown ==> s.inflightCount == 0)
    && (s.shutdown <==> s.destroyer.PostShutdown? || s.destroyer.Join? || s.destroyer.Done?)
  }

  ghost predicate WorkerOk(s: State)
  {
    && (forall id :: id in s.ops && s.ops[id].stage.Current? ==> s.worker.Processing? && s.worker.id == id)
    && (s.worker.Processing? ==>
          s.worker.id in s.ops && s.ops[s.worker.id].stage.Current? && PhaseOk(s.ops[s.worker.id], s.worker.phase))
    && (s.batch != [] ==> s.worker.NextOp? || s.worker.Processing?)
    && ((s.worker.Exchange? || s.worker.CheckDrain?) && s.worker.sd ==> s.shutdown)
    && (s.worker.Prepare? || s.worker.Prepared? || s.worker.HeadSeen? || s.worker.Asleep? ==> !s.worker.sd)
    && (s.worker.Exited? ==> s.shutdown)
  }

  /** Some thread has pushed work or requested shutdown and has not posted yet. */
  ghost predicate PostOwed(s: State)
  {
    (exists id :: id in s.ops && s.ops[id].owesPost) || s.destroyer.PostChain? || s.destroyer.PostShutdown?
  }

  ghost predicate WakeOk(s: State)
  {
    && (s.worker.Prepared? || s.worker.HeadSeen? || s.worker.Asleep? ==> s.worker.token <= s.epoch)
    && (s.worker.HeadSeen? && s.worker.empty && s.epoch == s.worker.token && s.head.Some? ==> PostOwed(s))
    && (s.worker.Asleep? && s.epoch == s.worker.token && (s.head.Some? || s.shutdown) ==> PostOwed(s))
  }

  ghost predicate Inv(s: State)
  {
    OpsOk(s) && ReadyOk(s) && InflightOk(s) && CountOk(s) && DestroyOk(s) && WorkerOk(s) && WakeOk(s)
  }

  // ---- counting waits

  lemma {:induction false} PendingUpdate(ws: seq<Wait>, i: nat, w: Wait)
    requires i < |ws|
    ensures Pending(ws[i := w]) ==
            Pending(ws) - (if ws[i].Accounted? then 0 else 1) + (if w.Accounted? then 0 else 1)
  {
    var us := ws[i := w];
    if i == 0 {
      assert us[1..] == ws[1..];
    } else {
      assert us[1..] == ws[1..][i - 1 := w];
      PendingUpdate(ws[1..], i - 1, w);
    }
  }

  lemma {:induction false} CancelledUpdate(ws: seq<Wait>, i: nat, w: Wait)
    requires i < |ws|
    ensures CountCancelled(ws[i := w]) ==
            CountCancelled(ws) - (if ws[i].Cancelled? then 1 else 0) + (if w.Cancelled? then 1 else 0)
  {
    var us := ws[i := w];
    if i == 0 {
      assert us[1..] == ws[1..];
    } else {
      assert us[1..] == ws[1..][i - 1 := w];
      CancelledUpdate(ws[1..], i - 1, w);
    }
  }

  /** The walk's one fetch_sub covers exactly the cancels it won. */
  lemma {:induction false} AccountCancelledCounts(ws: seq<Wait>)
    ensures Pending(AccountCancelled(ws)) == Pending(ws) - CountCancelled(ws)
    ensures CountCancelled(AccountCancelled(ws)) == 0
  {
    if ws != [] {
      assert AccountCancelled(ws)[1..] == AccountCancelled(ws[1..]);
      AccountCancelledCounts(ws[1..]);
    }
  }

  lemma {:induction false} NonePending(ws: seq<Wait>)
    ensures Pending(ws) == 0 <==> forall i :: 0 <= i < |ws| ==> ws[i].Accounted?
  {
    if ws != [] {
      NonePending(ws[1..]);
      assert ws == [ws[0]] + ws[1..];
      assert Pending(ws) == (if ws[0].Accounted? then 0 else 1) + Pending(ws[1..]);
      if forall i :: 0 <= i < |ws| ==> ws[i].Accounted? {
        forall i | 0 <= i < |ws[1..]| ensures ws[1..][i].Accounted? {
          assert ws[1..][i] == ws[i + 1];
        }
      } else {
        var i :| 0 <= i < |ws| && !ws[i].Accounted?;
        if i > 0 {
          assert !ws[1..][i - 1].Accounted?;
        }
      }
    }
  }

  lemma {:induction false} NewOpCounts(n: nat)
    ensures Pending(seq(n, _ => Unarmed)) == n && CountCancelled(seq(n, _ => Unarmed)) == 0
  {
    if n > 0 {
      assert seq(n, _ => Unarmed)[1..] == seq(n - 1, _ => Unarmed);
      NewOpCounts(n - 1);
    }
  }
}
