/** Which chains come out of a list of dispatches, and when they are within what the device allows. */
module CommandRuns {
  import opened Common
  import opened CommandChain

  // ---- dispatches by queue

  /** The dispatches cut where the queue changes. */
  function RunsOf(ds: seq<Dispatch>): (r: seq<seq<Dispatch>>)
    ensures forall i :: 0 <= i < |r| ==> r[i] != []
    ensures forall i, d :: 0 <= i < |r| && d in r[i] ==> d in ds
  {
    if ds == [] then []
    else
      var n := |ds| - 1;
      var before := RunsOf(ds[..n]);
      var last := |before| - 1;
      assert ds == ds[..n] + [ds[n]];
      if before != [] && before[last][0].queue == ds[n].queue then before[last := before[last] + [ds[n]]]
      else before + [[ds[n]]]
  }

  function Concat(runs: seq<seq<Dispatch>>): (r: seq<Dispatch>)
  {
    if runs == [] then [] else Concat(runs[..|runs| - 1]) + runs[|runs| - 1]
  }

  ghost predicate OneQueue(run: seq<Dispatch>)
  {
    run != [] && forall d :: d in run ==> d.queue == run[0].queue
  }

  lemma RunsNext(ds: seq<Dispatch>, d: Dispatch)
    ensures var before, after := RunsOf(ds), RunsOf(ds + [d]);
            var last := |before| - 1;
            if before != [] && before[last][0].queue == d.queue
            then |after| == |before| && after[..last] == before[..last] && after[last] == before[last] + [d]
            else after == before + [[d]]
  {
    assert (ds + [d])[..|ds|] == ds;
  }

  lemma {:induction false} RunsConcat(ds: seq<Dispatch>)
    ensures Concat(RunsOf(ds)) == ds
    decreases |ds|
  {
    if ds != [] {
      var n := |ds| - 1;
      hide RunsOf;
      RunsConcat(ds[..n]);
      RunsNext(ds[..n], ds[n]);
      assert ds == ds[..n] + [ds[n]];
      assert (RunsOf(ds[..n]) + [[ds[n]]])[..|RunsOf(ds[..n])|] == RunsOf(ds[..n]);
    }
  }

  ghost predicate QueuesOk(runs: seq<seq<Dispatch>>)
  {
    && (forall i :: 0 <= i < |runs| ==> OneQueue(runs[i]))
    && (forall i :: 1 <= i < |runs| ==> Differ(runs[i - 1], runs[i]))
  }

  predicate Differ(a: seq<Dispatch>, b: seq<Dispatch>)
  {
    a != [] && b != [] && a[0].queue != b[0].queue
  }

  /** Together the runs are the dispatches, each run is on one queue, and neighbouring runs are on different ones. */
  lemma {:induction false} RunsPartition(ds: seq<Dispatch>)
    ensures Concat(RunsOf(ds)) == ds && QueuesOk(RunsOf(ds))
    decreases |ds|
  {
    RunsConcat(ds);
    if ds != [] {
      var n := |ds| - 1;
      hide Concat;
      RunsPartition(ds[..n]);
      RunsNext(ds[..n], ds[n]);
      hide RunsOf;
      assert ds == ds[..n] + [ds[n]];
      QueuesNext(RunsOf(ds[..n]), RunsOf(ds), ds[n]);
    }
  }

  lemma QueuesNext(before: seq<seq<Dispatch>>, after: seq<seq<Dispatch>>, d: Dispatch)
    requires QueuesOk(before)
    requires var last := |before| - 1;
             if before != [] && before[last] != [] && before[last][0].queue == d.queue
             then |after| == |before| && after[..last] == before[..last] && after[last] == before[last] + [d]
             else after == before + [[d]]
    ensures QueuesOk(after)
  {
    var last := |before| - 1;
    assert before != [] ==> OneQueue(before[last]);
    assert forall i :: 0 <= i < last && |after| == |before| ==> after[i] == after[..last][i];
    forall i | 1 <= i < |after|
      ensures Differ(after[i - 1], after[i])
    {
      assert i < |before| ==> Differ(before[i - 1], before[i]);
    }
  }

  /** The control-packet data of the dispatches. */
  function ControlData(run: seq<Dispatch>): (r: seq<seq<Word>>)
  {
    if run == [] then [] else ControlData(run[..|run| - 1]) + run[|run| - 1].reconfigurations
  }

  function BindingsOf(run: seq<Dispatch>): (r: seq<Binding>)
  {
    if run == [] then [] else BindingsOf(run[..|run| - 1]) + run[|run| - 1].bindings
  }

  lemma NextDispatch(patch: Patch, run: seq<Dispatch>, d: Dispatch)
    requires DispatchOk(d) && forall x :: x in run ==> DispatchOk(x)
    ensures AllCommands(patch, run + [d]) == AllCommands(patch, run) + CommandsOf(patch, d)
    ensures ControlData(run + [d]) == ControlData(run) + d.reconfigurations
    ensures BindingsOf(run + [d]) == BindingsOf(run) + d.bindings
  {
    hide CommandsOf;
    assert (run + [d])[..|run|] == run;
  }

  lemma FirstDispatch(patch: Patch, d: Dispatch)
    requires DispatchOk(d)
    ensures AllCommands(patch, [d]) == CommandsOf(patch, d)
    ensures ControlData([d]) == d.reconfigurations && BindingsOf([d]) == d.bindings
  {
    hide CommandsOf;
    NextDispatch(patch, [], d);
    assert [] + [d] == [d];
  }

  // ---- groups are runs

  /** The group holds the commands, control buffers and bindings of the run. */
  ghost predicate Bound(patch: Patch, g: Group, run: seq<Dispatch>)
    requires forall d :: d in run ==> DispatchOk(d)
  {
    && run != [] && g.queue == run[0].queue && g.cmds == AllCommands(patch, run)
    && DataOf(g.controlBuffers) == ControlData(run) && g.bindings == BindingsOf(run)
  }

  ghost predicate GroupsBound(patch: Patch, groups: seq<Group>, ds: seq<Dispatch>)
    requires forall d :: d in ds ==> DispatchOk(d)
  {
    && |groups| == |RunsOf(ds)|
    && forall i :: 0 <= i < |groups| ==> Bound(patch, groups[i], RunsOf(ds)[i])
  }

  lemma BoundNext(patch: Patch, groups: seq<Group>, after: seq<Group>, ds: seq<Dispatch>, d: Dispatch)
    requires DispatchOk(d) && (forall x :: x in ds ==> DispatchOk(x)) && GroupsBound(patch, groups, ds)
    requires Accumulated(patch, d, groups, after)
    ensures GroupsBound(patch, after, ds + [d])
  {
    hide CommandsOf, AllCommands, ControlData, BindingsOf;
    assert (ds + [d])[..|ds|] == ds;
    var before, runs := RunsOf(ds), RunsOf(ds + [d]);
    var last := |groups| - 1;
    if groups != [] && groups[last].queue == d.queue {
      assert Bound(patch, groups[last], before[last]);
      NextDispatch(patch, before[last], d);
      assert Bound(patch, after[last], runs[last]);
      forall i | 0 <= i < last
        ensures Bound(patch, after[i], runs[i])
      {
        assert after[i] == after[..last][i] == groups[i];
        assert Bound(patch, groups[i], before[i]);
      }
    } else {
      assert groups != [] ==> Bound(patch, groups[last], before[last]);
      FirstDispatch(patch, d);
      NewGroup(patch, groups, after, d);
      forall i | 0 <= i < |groups|
        ensures Bound(patch, after[i], runs[i])
      {
        assert after[i] == after[..|groups|][i] == groups[i];
        assert Bound(patch, groups[i], before[i]);
      }
    }
  }

  lemma NewGroup(patch: Patch, groups: seq<Group>, after: seq<Group>, d: Dispatch)
    requires DispatchOk(d) && Accumulated(patch, d, groups, after)
    requires groups == [] || groups[|groups| - 1].queue != d.queue
    ensures |after| == |groups| + 1 && after[..|groups|] == groups
    ensures var g := after[|groups|];
            && g.queue == d.queue && g.cmds == CommandsOf(patch, d)
            && DataOf(g.controlBuffers) == d.reconfigurations && g.bindings == d.bindings
  {
    hide CommandsOf;
    var g: Group := Group(d.queue, [], [], [], []);
    assert (groups + [g])[..|groups|] == groups;
    assert [] + CommandsOf(patch, d) == CommandsOf(patch, d) && [] + d.bindings == d.bindings;
    assert [] + d.reconfigurations == d.reconfigurations && DataOf([]) == [];
  }

  lemma {:induction false} BoundBindings(patch: Patch, groups: seq<Group>, ds: seq<Dispatch>)
    requires (forall d :: d in ds ==> DispatchOk(d)) && GroupsBound(patch, groups, ds)
    ensures AllBindings(groups) == BindingsOf(ds)
  {
    hide AllCommands, CommandsOf;
    RunsPartition(ds);
    assert forall i :: 0 <= i < |groups| ==> groups[i].bindings == BindingsOf(RunsOf(ds)[i]);
    BindingsByRuns(groups, RunsOf(ds));
  }

  lemma {:induction false} BindingsByRuns(groups: seq<Group>, runs: seq<seq<Dispatch>>)
    requires |groups| == |runs| && forall i :: 0 <= i < |groups| ==> groups[i].bindings == BindingsOf(runs[i])
    ensures AllBindings(groups) == BindingsOf(Concat(runs))
    decreases |runs|
  {
    if runs != [] {
      var n := |runs| - 1;
      BindingsByRuns(groups[..n], runs[..n]);
      BindingsConcat(Concat(runs[..n]), runs[n]);
    }
  }

  lemma {:induction false} BindingsConcat(a: seq<Dispatch>, b: seq<Dispatch>)
    ensures BindingsOf(a + b) == BindingsOf(a) + BindingsOf(b)
    decreases |b|
  {
    if b == [] {
      assert a + b == a;
    } else {
      var n := |b| - 1;
      BindingsConcat(a, b[..n]);
      assert (a + b)[..|a| + n] == a + b[..n];
    }
  }

  // ---- what the device allows

  /** The buffers the largest chain of a run binds; a run without commands makes no chain. */
  function LargestChain(patch: Patch, run: seq<Dispatch>, maxSlots: nat): (n: nat)
    requires forall d :: d in run ==> DispatchOk(d)
  {
    var cmds := |AllCommands(patch, run)|;
    if cmds == 0 then 0
    else (if cmds < maxSlots then cmds else maxSlots) + |ControlData(run)| + |BindingsOf(run)|
  }

  /** No chain binds more buffers than the device allows. */
  ghost predicate RunsWithin(patch: Patch, ds: seq<Dispatch>, maxSlots: nat, ceiling: nat)
    requires forall d :: d in ds ==> DispatchOk(d)
  {
    forall i :: 0 <= i < |RunsOf(ds)| ==> LargestChain(patch, RunsOf(ds)[i], maxSlots) <= ceiling
  }

  lemma {:induction false} ChunkArgs(g: Group, maxSlots: nat, begin: nat, k: nat)
    requires maxSlots >= 1 && k < |ChunksFrom(g, maxSlots, begin)|
    ensures var c := ChunksFrom(g, maxSlots, begin)[k];
            && c.queue == g.queue && c.controlBuffers == g.controlBuffers && c.bindings == g.bindings
            && |c.cmds| <= maxSlots && |c.cmds| <= |g.cmds| - begin && IsPiece(c.cmds, g.cmds)
    decreases |g.cmds| - begin
  {
    if k == 0 {
      var end := if begin + maxSlots < |g.cmds| then begin + maxSlots else |g.cmds|;
      assert g.cmds[begin..end] == ChunksFrom(g, maxSlots, begin)[0].cmds;
    } else {
      ChunkArgs(g, maxSlots, begin + maxSlots, k - 1);
    }
  }

  ghost predicate IsPiece(part: seq<Cmd>, all: seq<Cmd>)
  {
    exists i, j :: 0 <= i <= j <= |all| && part == all[i..j]
  }

  lemma GroupWithinIff(patch: Patch, g: Group, run: seq<Dispatch>, maxSlots: nat, ceiling: nat)
    requires maxSlots >= 1 && (forall d :: d in run ==> DispatchOk(d)) && Bound(patch, g, run)
    ensures WithinCeiling(ChunksFrom(g, maxSlots, 0), ceiling) <==> LargestChain(patch, run, maxSlots) <= ceiling
  {
    hide AllCommands, ControlData, BindingsOf;
    var chunks := ChunksFrom(g, maxSlots, 0);
    if g.cmds != [] {
      assert NumArgs(chunks[0]) == LargestChain(patch, run, maxSlots);
    } else {
      assert chunks == [];
    }
    hide ChunksFrom;
    forall k | 0 <= k < |chunks|
      ensures NumArgs(chunks[k]) <= LargestChain(patch, run, maxSlots)
    {
      ChunkArgs(g, maxSlots, 0, k);
    }
  }

  lemma {:induction false} AllWithinIff(groups: seq<Group>, maxSlots: nat, ceiling: nat)
    requires maxSlots >= 1
    ensures WithinCeiling(AllChunks(groups, maxSlots), ceiling) <==>
            forall i :: 0 <= i < |groups| ==> WithinCeiling(ChunksFrom(groups[i], maxSlots, 0), ceiling)
    decreases |groups|
  {
    hide ChunksFrom, NumArgs;
    if groups != [] {
      var n := |groups| - 1;
      AllWithinIff(groups[..n], maxSlots, ceiling);
      WithinConcat(AllChunks(groups[..n], maxSlots), ChunksFrom(groups[n], maxSlots, 0), ceiling);
    }
  }

  lemma WithinConcat(a: seq<Chunk>, b: seq<Chunk>, ceiling: nat)
    ensures WithinCeiling(a + b, ceiling) <==> WithinCeiling(a, ceiling) && WithinCeiling(b, ceiling)
  {
    hide NumArgs;
    if WithinCeiling(a + b, ceiling) {
      forall k | 0 <= k < |a|
        ensures NumArgs(a[k]) <= ceiling
      {
        assert (a + b)[k] == a[k];
      }
      forall k | 0 <= k < |b|
        ensures NumArgs(b[k]) <= ceiling
      {
        assert (a + b)[|a| + k] == b[k];
      }
    }
  }

  /** The ceiling test, by the dispatches alone. */
  lemma WithinIff(patch: Patch, groups: seq<Group>, ds: seq<Dispatch>, maxSlots: nat, ceiling: nat)
    requires maxSlots >= 1 && (forall d :: d in ds ==> DispatchOk(d)) && GroupsBound(patch, groups, ds)
    ensures WithinCeiling(AllChunks(groups, maxSlots), ceiling) <==> RunsWithin(patch, ds, maxSlots, ceiling)
  {
    hide AllChunks, ChunksFrom, WithinCeiling, LargestChain, Bound;
    AllWithinIff(groups, maxSlots, ceiling);
    forall i | 0 <= i < |groups|
      ensures WithinCeiling(ChunksFrom(groups[i], maxSlots, 0), ceiling) <==>
              LargestChain(patch, RunsOf(ds)[i], maxSlots) <= ceiling
    {
      GroupWithinIff(patch, groups[i], RunsOf(ds)[i], maxSlots, ceiling);
    }
  }

  /** A chain of a run: a piece of its commands, bound to all its control-packet data and all its bindings. */
  ghost predicate ChainOf(patch: Patch, c: Chunk, run: seq<Dispatch>)
    requires forall d :: d in run ==> DispatchOk(d)
  {
    && run != [] && c.queue == run[0].queue && IsPiece(c.cmds, AllCommands(patch, run))
    && DataOf(c.controlBuffers) == ControlData(run) && c.bindings == BindingsOf(run)
  }

  ghost predicate OfSomeRun(patch: Patch, c: Chunk, ds: seq<Dispatch>)
    requires forall d :: d in ds ==> DispatchOk(d)
  {
    exists i :: 0 <= i < |RunsOf(ds)| && ChainOf(patch, c, RunsOf(ds)[i])
  }

  /** Every chain is one of some run. */
  ghost predicate ChainsOf(patch: Patch, chunks: seq<Chunk>, ds: seq<Dispatch>)
    requires forall d :: d in ds ==> DispatchOk(d)
  {
    forall k :: 0 <= k < |chunks| ==> OfSomeRun(patch, chunks[k], ds)
  }

  lemma {:induction false} ChunkOrigin(groups: seq<Group>, maxSlots: nat, k: nat) returns (i: nat)
    requires maxSlots >= 1 && k < |AllChunks(groups, maxSlots)|
    ensures i < |groups|
    ensures var c, g := AllChunks(groups, maxSlots)[k], groups[i];
            && c.queue == g.queue && c.controlBuffers == g.controlBuffers && c.bindings == g.bindings
            && IsPiece(c.cmds, g.cmds)
    decreases |groups|
  {
    var n := |groups| - 1;
    var before, here := AllChunks(groups[..n], maxSlots), ChunksFrom(groups[n], maxSlots, 0);
    assert AllChunks(groups, maxSlots) == before + here;
    hide ChunksFrom, IsPiece, AllChunks;
    if k < |before| {
      i := ChunkOrigin(groups[..n], maxSlots, k);
      assert (before + here)[k] == before[k] && groups[..n][i] == groups[i];
    } else {
      i := n;
      ChunkArgs(groups[n], maxSlots, 0, k - |before|);
      assert (before + here)[k] == here[k - |before|];
    }
  }

  lemma PlannedChains(patch: Patch, groups: seq<Group>, ds: seq<Dispatch>, maxSlots: nat)
    requires maxSlots >= 1 && (forall d :: d in ds ==> DispatchOk(d)) && GroupsBound(patch, groups, ds)
    ensures ChainsOf(patch, AllChunks(groups, maxSlots), ds)
  {
    hide AllChunks, AllCommands, ControlData, BindingsOf, IsPiece;
    forall k | 0 <= k < |AllChunks(groups, maxSlots)|
      ensures OfSomeRun(patch, AllChunks(groups, maxSlots)[k], ds)
    {
      var i := ChunkOrigin(groups, maxSlots, k);
      assert Bound(patch, groups[i], RunsOf(ds)[i]);
      assert ChainOf(patch, AllChunks(groups, maxSlots)[k], RunsOf(ds)[i]);
    }
  }

  // ---- the chained path

  /** What holds before the chains are flushed. */
  ghost predicate Prepared(patch: Patch, table: Table, groups: seq<Group>, done: seq<Dispatch>, ds: seq<Dispatch>)
    requires forall d :: d in done ==> DispatchOk(d)
  {
    && GroupsOk(groups) && GroupHosts(patch, table, ds, groups)
    && GroupCommands(groups) == AllCommands(patch, done) && GroupsBound(patch, groups, done)
  }

  /**
   * The chained path submits the commands of the default path, in its order, in chunks that are neither
   * empty nor too large and stay on one queue; a failure leaves a prefix. With each command goes its
   * code with the addresses the default path passes written in, and with each chain the buffers of all
   * dispatches of its run; at the end all bindings are written back. When no device call fails and codes
   * and tables are good, it is the number of buffers to bind that decides.
   */
  method RunChained(reliable: bool, patch: Patch, table: Table, ds: seq<Dispatch>, maxSlots: nat, ceiling: nat)
    returns (ok: bool, chunks: seq<Chunk>, synced: seq<Binding>)
    requires maxSlots >= 1 && forall d :: d in ds ==> DispatchOk(d)
    ensures ChunkCommands(chunks) <= AllCommands(patch, ds)
    ensures ok ==> ChunkCommands(chunks) == AllCommands(patch, ds)
    ensures ChunkHosts(patch, table, ds, chunks)
    ensures forall k :: 0 <= k < |chunks| ==> ChunkFits(chunks[k], maxSlots) && NumArgs(chunks[k]) <= ceiling
    ensures ChainsOf(patch, chunks, ds)
    ensures synced <= BindingsOf(ds) && (ok ==> synced == BindingsOf(ds))
    ensures ok ==> RunsWithin(patch, ds, maxSlots, ceiling)
    ensures reliable && (forall d :: d in ds ==> ChainOk(patch, table, d)) ==>
              (ok <==> RunsWithin(patch, ds, maxSlots, ceiling))
  {
    hide ChainOk, Prepared, ChunkFits, ChunkHosts, ChunkCommands, AllChunks, ChainsOf, RunsWithin, AllCommands;
    hide BindingsOf, NumArgs;
    var b := new CommandBuffer();
    NothingPrepared(patch, table, ds);
    for k := 0 to |ds|
      invariant fresh(b) && b.submitted == [] && b.synced == [] && Prepared(patch, table, b.groups, ds[..k], ds)
    {
      PreparedGroups(patch, table, b.groups, ds[..k], ds);
      assert ds[k] in ds;
      ghost var before := b.groups;
      var accumulated := b.Accumulate(reliable, patch, table, ds[k], ds);
      if !accumulated {
        NoneSubmitted(patch, table, ds);
        return false, [], [];
      }
      PreparedNext(patch, table, before, b.groups, ds, k);
    }
    assert ds[..|ds|] == ds;
    ghost var groups := b.groups;
    ghost var planned := AllChunks(groups, maxSlots);
    PlanFits(patch, table, groups, ds, maxSlots, ceiling);
    var queried;
    ok, queried := b.FlushChains(reliable, maxSlots, ceiling);
    chunks, synced := b.submitted, b.synced;
    assert [] + planned == planned && chunks[0..] == chunks && [] + BindingsOf(ds) == BindingsOf(ds);
    SubmittedOk(patch, table, ds, chunks, planned, maxSlots, ceiling);
  }

  lemma NothingPrepared(patch: Patch, table: Table, ds: seq<Dispatch>)
    ensures Prepared(patch, table, [], [], ds) && ds[..0] == []
  {
    NoGroups(patch, table, ds);
    hide GroupsOk, GroupHosts;
  }

  lemma PreparedGroups(patch: Patch, table: Table, groups: seq<Group>, done: seq<Dispatch>, ds: seq<Dispatch>)
    requires (forall d :: d in done ==> DispatchOk(d)) && Prepared(patch, table, groups, done, ds)
    ensures GroupsOk(groups) && GroupHosts(patch, table, ds, groups)
  {
    hide GroupsOk, GroupHosts, GroupCommands, AllCommands, GroupsBound;
  }

  lemma PreparedNext(patch: Patch, table: Table, before: seq<Group>, after: seq<Group>, ds: seq<Dispatch>, k: nat)
    requires k < |ds| && (forall d :: d in ds ==> DispatchOk(d)) && Prepared(patch, table, before, ds[..k], ds)
    requires GroupsOk(after) && GroupHosts(patch, table, ds, after) && Accumulated(patch, ds[k], before, after)
    requires GroupCommands(after) == GroupCommands(before) + CommandsOf(patch, ds[k])
    ensures Prepared(patch, table, after, ds[..k + 1], ds)
  {
    hide GroupsOk, GroupHosts, GroupCommands, AllCommands, GroupsBound, CommandsOf, Accumulated;
    assert ds[..k + 1] == ds[..k] + [ds[k]];
    NextDispatch(patch, ds[..k], ds[k]);
    BoundNext(patch, before, after, ds[..k], ds[k]);
  }

  lemma NoneSubmitted(patch: Patch, table: Table, ds: seq<Dispatch>)
    requires forall d :: d in ds ==> DispatchOk(d)
    ensures ChunkHosts(patch, table, ds, []) && ChunkCommands([]) == [] && ChainsOf(patch, [], ds)
  {
    NoChunks(patch, table, ds);
  }

  /** What is known of the planned chains. */
  lemma PlanFits(patch: Patch, table: Table, groups: seq<Group>, ds: seq<Dispatch>, maxSlots: nat, ceiling: nat)
    requires maxSlots >= 1 && (forall d :: d in ds ==> DispatchOk(d)) && Prepared(patch, table, groups, ds, ds)
    ensures var planned := AllChunks(groups, maxSlots);
            && ChunkCommands(planned) == AllCommands(patch, ds) && ChunkHosts(patch, table, ds, planned)
            && (forall k :: 0 <= k < |planned| ==> ChunkFits(planned[k], maxSlots)) && ChainsOf(patch, planned, ds)
            && (WithinCeiling(planned, ceiling) <==> RunsWithin(patch, ds, maxSlots, ceiling))
    ensures AllBindings(groups) == BindingsOf(ds)
  {
    hide GroupsOk, GroupHosts, GroupCommands, AllCommands, GroupsBound, AllChunks, ChunkCommands, ChunkHosts;
    hide ChunkFits, ChainsOf, WithinCeiling, RunsWithin, AllBindings, BindingsOf;
    AllChunksOk(groups, maxSlots);
    AllChunksHosts(groups, maxSlots, patch, table, ds);
    PlannedChains(patch, groups, ds, maxSlots);
    WithinIff(patch, groups, ds, maxSlots, ceiling);
    BoundBindings(patch, groups, ds);
  }

  /** What a prefix of the planned chains inherits. */
  lemma SubmittedOk(patch: Patch, table: Table, ds: seq<Dispatch>, chunks: seq<Chunk>, planned: seq<Chunk>,
                    maxSlots: nat, ceiling: nat)
    requires (forall d :: d in ds ==> DispatchOk(d)) && chunks <= planned && WithinCeiling(chunks, ceiling)
    requires ChunkHosts(patch, table, ds, planned) && ChainsOf(patch, planned, ds)
    requires forall k :: 0 <= k < |planned| ==> ChunkFits(planned[k], maxSlots)
    ensures ChunkCommands(chunks) <= ChunkCommands(planned) && ChunkHosts(patch, table, ds, chunks)
    ensures forall k :: 0 <= k < |chunks| ==> ChunkFits(chunks[k], maxSlots) && NumArgs(chunks[k]) <= ceiling
    ensures ChainsOf(patch, chunks, ds)
  {
    PrefixInherits(chunks, planned, maxSlots, patch, table, ds);
    hide ChunkFits, ChunkHosts, NumArgs, OfSomeRun;
  }
}
