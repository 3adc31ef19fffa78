/** The router: flows are collected, grouped and routed until no entry is over capacity. */
module Router {
  import opened Common
  import opened PacketTypes
  import opened RoutingGraph
  import opened Dijkstra
  import opened PathTrace
  import opened Capacity
  import opened Congestion
  import opened FindPaths

  // ---- grouping

  /** The flows with one group ID, in order. */
  function WithId(flows: seq<Flow>, id: int): (r: seq<Flow>)
    ensures forall f :: f in r <==> f in flows && f.groupId == id
  {
    if flows == [] then []
    else
      var n := |flows| - 1;
      assert flows == flows[..n] + [flows[n]];
      WithId(flows[..n], id) + if flows[n].groupId == id then [flows[n]] else []
  }

  lemma {:induction false} WithIdDistinct(flows: seq<Flow>, id: int)
    requires DistinctSources(flows)
    ensures DistinctSources(WithId(flows, id))
    decreases |flows|
  {
    if flows != [] {
      var n := |flows| - 1;
      WithIdDistinct(flows[..n], id);
      var r := WithId(flows[..n], id);
      forall i | 0 <= i < |r|
        ensures r[i].src != flows[n].src
      {
        assert r[i] in r;
        assert r[i] in flows[..n];
      }
    }
  }

  /** Every flow is in the group of its ID, the groups in ascending order. */
  ghost predicate Grouped(flows: seq<Flow>, groups: seq<FlowGroup>)
  {
    && (forall i, j :: 0 <= i < j < |groups| ==> groups[i].id < groups[j].id)
    && (forall i :: 0 <= i < |groups| ==> groups[i].flows == WithId(flows, groups[i].id) && groups[i].flows != [])
    && (forall f :: f in flows ==> HasGroup(groups, f.groupId))
  }

  ghost predicate ById(flows: seq<Flow>, byId: map<int, seq<Flow>>)
  {
    && (forall id :: id in byId ==> byId[id] == WithId(flows, id) && byId[id] != [])
    && (forall f :: f in flows ==> f.groupId in byId)
  }

  method GroupFlows(flows: seq<Flow>) returns (groups: seq<FlowGroup>)
    ensures Grouped(flows, groups)
  {
    var byId: map<int, seq<Flow>> := map[];
    for k := 0 to |flows|
      invariant ById(flows[..k], byId)
    {
      var id := flows[k].groupId;
      ByIdNext(flows, k, byId);
      byId := byId[id := (if id in byId then byId[id] else []) + [flows[k]]];
    }
    assert flows[..|flows|] == flows;
    hide WithId;
    groups := InOrder(byId);
  }

  lemma ByIdNext(flows: seq<Flow>, k: nat, byId: map<int, seq<Flow>>)
    requires k < |flows| && ById(flows[..k], byId)
    ensures ById(
      flows[..k + 1],
      byId[flows[k].groupId := (if flows[k].groupId in byId then byId[flows[k].groupId] else []) + [flows[k]]])
  {
    assert flows[..k + 1] == flows[..k] + [flows[k]] && flows[..k + 1][..k] == flows[..k];
    if flows[k].groupId !in byId {
      NoneWithId(flows[..k], flows[k].groupId);
    }
    assert forall id ::
      WithId(flows[..k + 1], id) == WithId(flows[..k], id) + if flows[k].groupId == id then [flows[k]] else [];
    hide WithId;
  }

  /** The groups in ascending order of their IDs. */
  ghost predicate Ascending(byId: map<int, seq<Flow>>, todo: set<int>, groups: seq<FlowGroup>)
  {
    && (forall i, j :: 0 <= i < j < |groups| ==> groups[i].id < groups[j].id)
    && (forall i :: 0 <= i < |groups| ==>
          groups[i].id in byId && groups[i].id !in todo && groups[i].flows == byId[groups[i].id])
    && (forall i, id :: 0 <= i < |groups| && id in todo ==> groups[i].id < id)
    && (forall id :: id in byId && id !in todo ==> HasGroup(groups, id))
  }

  ghost predicate HasGroup(groups: seq<FlowGroup>, id: int)
  {
    exists i :: 0 <= i < |groups| && groups[i].id == id
  }

  method InOrder(byId: map<int, seq<Flow>>) returns (groups: seq<FlowGroup>)
    ensures Ascending(byId, {}, groups)
  {
    groups := [];
    var todo := byId.Keys;
    while todo != {}
      invariant todo <= byId.Keys && Ascending(byId, todo, groups)
    {
      ghost var least := Smallest(todo);
      var id :| id in todo && forall other :: other in todo ==> id <= other;
      AscendingNext(byId, todo, groups, id);
      groups := groups + [FlowGroup(id, byId[id])];
      todo := todo - {id};
    }
  }

  lemma AscendingNext(byId: map<int, seq<Flow>>, todo: set<int>, groups: seq<FlowGroup>, id: int)
    requires todo <= byId.Keys && Ascending(byId, todo, groups) && id in todo
    requires forall other :: other in todo ==> id <= other
    ensures Ascending(byId, todo - {id}, groups + [FlowGroup(id, byId[id])])
  {
    var after := groups + [FlowGroup(id, byId[id])];
    assert after[|groups|].id == id && forall i :: 0 <= i < |groups| ==> after[i] == groups[i];
    forall other | other in byId && other !in todo - {id}
      ensures HasGroup(after, other)
    {
      if other != id {
        var i :| 0 <= i < |groups| && groups[i].id == other;
        assert after[i].id == other;
      }
    }
  }

  lemma NoneWithId(flows: seq<Flow>, id: int)
    requires forall f :: f in flows ==> f.groupId != id
    ensures WithId(flows, id) == []
  {
    var r := WithId(flows, id);
    assert forall k :: 0 <= k < |r| ==> r[k] in r;
  }

  lemma {:induction false} Smallest(s: set<int>) returns (least: int)
    requires s != {}
    ensures least in s && forall y :: y in s ==> least <= y
    decreases |s|
  {
    assert (forall y: int :: y !in s) ==> s == {};
    var x :| x in s;
    least := x;
    var rest := s - {x};
    if rest != {} {
      var m := Smallest(rest);
      if m < least {
        least := m;
      }
    }
    assert forall y :: y in s ==> y in rest || y == x;
  }

  /** Grouping acceptable flows gives acceptable groups. */
  lemma GroupsAccepted(g: Graph, flows: seq<Flow>, groups: seq<FlowGroup>)
    requires Grouped(flows, groups) && FlowsOk(g, flows)
    ensures GroupsOk(g, groups)
  {
    hide Reachable;
    forall i | 0 <= i < |groups|
      ensures FlowGroupOk(g, groups[i]) && -1 <= groups[i].id
    {
      WithIdDistinct(flows, groups[i].id);
      assert groups[i].flows[0] in groups[i].flows;
      assert forall k :: 0 <= k < |groups[i].flows| ==> groups[i].flows[k] in groups[i].flows;
      assert forall f :: f in groups[i].flows ==> f in flows && f.groupId == groups[i].id;
      hide WithId;
    }
    forall i, j, k, l | 0 <= i < j < |groups| && 0 <= k < |groups[i].flows| && 0 <= l < |groups[j].flows|
      ensures groups[i].flows[k].src != groups[j].flows[l].src
    {
      var a, b := groups[i].flows[k], groups[j].flows[l];
      assert a in groups[i].flows && b in groups[j].flows;
      DifferentSources(flows, a, b);
    }
  }

  lemma DifferentSources(flows: seq<Flow>, a: Flow, b: Flow)
    requires DistinctSources(flows) && a in flows && b in flows && a != b
    ensures a.src != b.src
  {
  }

  ghost predicate FlowsOk(g: Graph, flows: seq<Flow>)
  {
    DistinctSources(flows) && forall f :: f in flows ==> FlowOk(g, f) && f.groupId >= -1
  }

  // ---- the router

  /**
   * Every flow has a route that is its entry of the solution, and every matrix entry is used legally:
   * by one circuit flow, or by at most 32 flows of one packet group.
   */
  ghost predicate IsSolution(g: Graph, fixed: map<Cell, nat>, flows: seq<Flow>, groups: seq<FlowGroup>,
                             hist: seq<Record>,
                             solution: map<PhysPort, Settings>)
  {
    && Grouped(flows, groups) && |hist| == |groups|
    && (forall i :: 0 <= i < |groups| ==> GroupRouted(g, groups[i], hist[i], solution))
    && (forall c :: c in Cells(g) ==> EntryLegal(g, fixed, hist, c))
  }

  /** Weights for the next iteration, from the history of overloads and the last use. */
  function Demand(over: map<Cell, nat>, used: map<Cell, nat>): (r: map<Cell, real>)
    requires over.Keys == used.Keys
    ensures r.Keys == used.Keys && forall c :: c in r ==> r[c] >= 1.0
  {
    map c | c in used :: DemandAt(over[c], used[c])
  }

  function DemandAt(over: nat, used: nat): (r: real)
    ensures r >= 1.0
  {
    var history, congestion := 1.0 + 0.1 * over as real, 1.0 + 0.1 * used as real;
    ProductAtLeastOne(history, congestion);
    history * congestion
  }

  lemma ProductAtLeastOne(a: real, b: real)
    requires a >= 1.0 && b >= 1.0
    ensures a * b >= 1.0
  {
    assert (a - 1.0) * b >= 0.0;
    assert a * b == (a - 1.0) * b + b;
  }

  /** Every overload and every use makes an entry strictly dearer. */
  lemma DemandGrows(over: nat, used: nat, over': nat, used': nat)
    requires over <= over' && used <= used' && (over < over' || used < used')
    ensures DemandAt(over, used) < DemandAt(over', used')
  {
    var a, b := 1.0 + 0.1 * over as real, 1.0 + 0.1 * used as real;
    var a', b' := 1.0 + 0.1 * over' as real, 1.0 + 0.1 * used' as real;
    assert a' * b' - a * b == (a' - a) * b' + a * (b' - b);
    assert (a' - a) * b' >= a' - a && a * (b' - b) >= b' - b;
  }

  /** Only the flow from `src` changed, by one more destination. */
  ghost predicate DestinationAdded(before: seq<Flow>, after: seq<Flow>, src: PhysPort, dst: PhysPort)
  {
    |after| == |before| && forall k :: 0 <= k < |before| ==>
      after[k] == if before[k].src == src then before[k].(dsts := before[k].dsts + [dst]) else before[k]
  }

  /** The group of a new flow: none for a circuit, the first flow's that shares the destination, or a fresh one. */
  ghost predicate GroupChosen(flows: seq<Flow>, dst: PhysPort, isPacketFlow: bool, next: nat, id: int, next': nat)
  {
    if !isPacketFlow then id == -1 && next' == next
    else if exists k :: 0 <= k < |flows| && dst in flows[k].dsts then
      && next' == next
      && exists k ::
           && 0 <= k < |flows| && dst in flows[k].dsts && id == flows[k].groupId
           && forall j :: 0 <= j < k ==> dst !in flows[j].dsts
    else id == next && next' == next + 1 && forall f :: f in flows ==> f.groupId != id
  }

  class Router {
    const graph: Graph
    const fixed: map<Cell, nat>
    var flows: seq<Flow>
    var nextGroupId: nat
    var channels: map<PhysPort, seq<PhysPort>>
    var load: Load
    var over: map<Cell, nat>

    ghost predicate Valid()
      reads this
    {
      && GraphOk(graph) && fixed.Keys == Cells(graph) && ChannelsOk(graph, channels)
      && LoadOk(graph, load) && over.Keys == Cells(graph)
      && DistinctSources(flows) && forall f :: f in flows ==> -1 <= f.groupId < nextGroupId
    }

    /**
     * A known source gets one more destination; otherwise a new flow is appended, whose source is new.
     * A new circuit flow has group -1; a new packet flow joins the group of the earliest flow with its
     * destination, or starts a group of its own.
     */
    method AddFlow(src: PhysPort, dst: PhysPort, isPacketFlow: bool)
      requires Valid() && src.dir == SRC && dst.dir == DST && forall f :: f in flows ==> f.src.dir == SRC
      modifies this`flows, this`nextGroupId
      ensures Valid() && forall f :: f in flows ==> f.src.dir == SRC
      ensures if exists k :: 0 <= k < |old(flows)| && old(flows)[k].src == src
              then nextGroupId == old(nextGroupId) && DestinationAdded(old(flows), flows, src, dst)
              else exists id ::
                     && flows == old(flows) + [Flow(id, src, [dst])]
                     && GroupChosen(old(flows), dst, isPacketFlow, old(nextGroupId), id, nextGroupId)
    {
      var k := 0;
      while k < |flows|
        invariant 0 <= k <= |flows| && flows == old(flows) && forall j :: 0 <= j < k ==> flows[j].src != src
      {
        if flows[k].src == src {
          flows := flows[k := flows[k].(dsts := flows[k].dsts + [dst])];
          return;
        }
        k := k + 1;
      }
      var id := ChooseGroup(dst, isPacketFlow);
      flows := flows + [Flow(id, src, [dst])];
    }

    method ChooseGroup(dst: PhysPort, isPacketFlow: bool) returns (id: int)
      modifies this`nextGroupId
      requires forall f :: f in flows ==> -1 <= f.groupId < nextGroupId
      ensures GroupChosen(flows, dst, isPacketFlow, old(nextGroupId), id, nextGroupId)
    {
      if !isPacketFlow { return -1; }
      var j := 0;
      while j < |flows| && dst !in flows[j].dsts
        invariant 0 <= j <= |flows| && forall k :: 0 <= k < j ==> dst !in flows[k].dsts
      {
        j := j + 1;
      }
      if j < |flows| {
        id := flows[j].groupId;
      } else {
        id := nextGroupId;
        nextGroupId := nextGroupId + 1;
      }
    }

    /**
     * Routes until an iteration leaves no entry over capacity, at most `maxIterations` times; `loads` lists
     * the loads the iterations ended with. It gives up only after all iterations, each of which left some
     * entry over capacity. The last iteration was guided by how often entries had been over capacity and
     * how they were used before.
     */
    method FindAllPaths(maxIterations: int)
      returns (r: Option<map<PhysPort, Settings>>, ghost groups: seq<FlowGroup>, ghost hist: seq<Record>,
        ghost loads: seq<Load>)
      requires Valid() && FlowsOk(graph, flows)
      modifies this`channels, this`load, this`over
      ensures Valid()
      ensures r.Some? ==> IsSolution(graph, fixed, flows, groups, hist, r.value)
      ensures r.Some? ==> 1 <= |loads| <= maxIterations && AllOverloaded(loads[..|loads| - 1])
      ensures r.Some? ==> load == loads[|loads| - 1] && !Overloaded(load)
                          && CongestionAware(graph, BaseFor(graph, loads[..|loads| - 1]), groups, hist)
      ensures r == None ==> |loads| == (if maxIterations >= 0 then maxIterations else 0) && AllOverloaded(loads)
    {
      hide Valid, IsSolution, FlowsOk, Grouped, FindPaths.GroupsOk, CongestionAware, Tallies, BaseFor, Overloaded;
      hist, loads := [], [];
      Clear();
      var gs := GroupFlows(flows);
      groups := gs;
      GroupsAccepted(graph, flows, gs);
      var iteration := -1;
      while true
        invariant Valid() && -1 <= iteration && |loads| == iteration + 1 && AllOverloaded(loads)
        invariant Tallies(graph, loads, over, load.used) && (iteration >= 0 ==> iteration < maxIterations)
        decreases maxIterations - iteration
      {
        iteration := iteration + 1;
        if iteration >= maxIterations { return None, groups, hist, loads; }
        var illegalEdges, solution;
        illegalEdges, solution, hist := TryOnce(gs, loads);
        assert (loads + [load])[..|loads|] == loads;
        loads := loads + [load];
        if illegalEdges == 0 { return Some(solution), groups, hist, loads; }
      }
    }

    /** Forgets all uses and overloads. */
    method Clear()
      requires Valid()
      modifies this`load, this`over
      ensures Valid() && Tallies(graph, [], over, load.used)
    {
      hide GraphOk, ChannelsOk, Cells, DistinctSources;
      load := load.(used := map c | c in load.used :: 0);
      over := map c | c in over :: 0;
      StartBase(graph, over, load.used);
    }

    /** The next iteration after those that ended with `loads`. */
    method TryOnce(groups: seq<FlowGroup>, ghost loads: seq<Load>)
      returns (illegalEdges: nat, solution: map<PhysPort, Settings>, ghost hist: seq<Record>)
      requires Valid() && FindPaths.GroupsOk(graph, groups) && Grouped(flows, groups)
      requires Tallies(graph, loads, over, load.used)
      modifies this`channels, this`load, this`over
      ensures Valid() && Tallies(graph, loads + [load], over, load.used)
      ensures illegalEdges > 0 <==> Overloaded(load)
      ensures CongestionAware(graph, BaseFor(graph, loads), groups, hist)
      ensures illegalEdges == 0 ==> IsSolution(graph, fixed, flows, groups, hist, solution)
    {
      hide GraphOk, ChannelsOk, Cells, DistinctSources, IsSolution, FindPaths.GroupsOk, Grouped, CongestionAware;
      hide LoadOk, Tallies, Tallied, BaseFor, Demand, Overloaded, OverCapacity;
      BaseOf(graph, loads, over, load.used);
      ghost var over0, used0 := over, load.used;
      illegalEdges, solution, hist := RouteOnce(groups);
      NextTally(graph, loads, over0, used0, over, load);
      CountsOverload(load);
    }

    /** One iteration: all routes are ripped up and every flow is routed again. */
    method RouteOnce(groups: seq<FlowGroup>)
      returns (illegalEdges: nat, solution: map<PhysPort, Settings>, ghost hist: seq<Record>)
      requires Valid() && FindPaths.GroupsOk(graph, groups) && Grouped(flows, groups)
      modifies this`channels, this`load, this`over
      ensures Valid() && old(over).Keys == old(load).used.Keys
      ensures CongestionAware(graph, Demand(old(over), old(load).used), groups, hist)
      ensures over == Tallied(old(over), load.used)
      ensures illegalEdges == |OverCapacity(load)|
      ensures illegalEdges == 0 ==> IsSolution(graph, fixed, flows, groups, hist, solution)
    {
      hide GraphOk, ChannelsOk, Cells, DistinctSources, HistoryOk, LoadOk, CongestionAware;
      hide Grouped, GroupRouted, EntryLegal, FindPaths.GroupsOk, DemandAt, Dearer, Fair;
      RippedUp(graph, fixed, over, load);
      ghost var base := Demand(over, load.used);
      RippedDearer(over, fixed, load);
      load := Ripped(over, fixed, load);
      load, channels, solution, hist := RouteAll(graph, load, channels, groups, fixed, base);
      HistoryLoad(graph, fixed, load, hist);
      var illegal := OverCapacity(load);
      over := map c | c in over :: if c in illegal then over[c] + 1 else over[c];
      illegalEdges := |illegal|;
      if illegalEdges == 0 {
        assert forall c :: c in load.used && load.used[c] > MAX_CIRCUIT ==> c in illegal;
        AllLegal(graph, fixed, load, hist);
      }
    }
  }

  function OverCapacity(load: Load): (r: set<Cell>)
  {
    set c | c in load.used && load.used[c] > MAX_CIRCUIT
  }

  // ---- iterations

  /** The overload counts after an iteration that ended with the uses `used`. */
  function Tallied(over: map<Cell, nat>, used: map<Cell, nat>): (r: map<Cell, nat>)
  {
    map c | c in over :: if c in used && used[c] > MAX_CIRCUIT then over[c] + 1 else over[c]
  }

  /** How many of the iterations left `c` over capacity. */
  function TimesOver(loads: seq<Load>, c: Cell): (n: nat)
  {
    if loads == [] then 0
    else
      var last := loads[|loads| - 1];
      TimesOver(loads[..|loads| - 1], c) + if c in last.used && last.used[c] > MAX_CIRCUIT then 1 else 0
  }

  /** How `c` was used by the last iteration. */
  function LastUse(loads: seq<Load>, c: Cell): (n: nat)
  {
    if loads == [] then 0
    else
      var last := loads[|loads| - 1];
      if c in last.used then last.used[c] else 0
  }

  /** The weights an iteration starts from, by the iterations before it. */
  function BaseFor(g: Graph, loads: seq<Load>): (w: Weights)
  {
    map c | c in Cells(g) :: DemandAt(TimesOver(loads, c), LastUse(loads, c))
  }

  /** Every one of the iterations left some entry over capacity. */
  ghost predicate AllOverloaded(loads: seq<Load>)
  {
    forall k :: 0 <= k < |loads| ==> Overloaded(loads[k])
  }

  /** The counts kept by the router are those of the iterations. */
  ghost predicate Tallies(g: Graph, loads: seq<Load>, over: map<Cell, nat>, used: map<Cell, nat>)
  {
    && over.Keys == used.Keys == Cells(g)
    && (forall c :: c in over ==> over[c] == TimesOver(loads, c) && used[c] == LastUse(loads, c))
  }

  lemma StartBase(g: Graph, over: map<Cell, nat>, used: map<Cell, nat>)
    requires over.Keys == used.Keys == Cells(g) && forall c :: c in over ==> over[c] == 0 && used[c] == 0
    ensures Tallies(g, [], over, used)
  {
    hide Cells;
  }

  lemma BaseOf(g: Graph, loads: seq<Load>, over: map<Cell, nat>, used: map<Cell, nat>)
    requires Tallies(g, loads, over, used)
    ensures Demand(over, used) == BaseFor(g, loads)
  {
    hide Cells, TimesOver, LastUse, DemandAt;
  }

  lemma NextTally(g: Graph, loads: seq<Load>, over: map<Cell, nat>, used: map<Cell, nat>, over': map<Cell, nat>,
                  load: Load)
    requires Tallies(g, loads, over, used) && over' == Tallied(over, load.used) && LoadOk(g, load)
    ensures Tallies(g, loads + [load], over', load.used) && (loads + [load])[..|loads|] == loads
  {
    hide Cells;
    assert (loads + [load])[..|loads|] == loads;
    forall c | c in over'
      ensures over'[c] == TimesOver(loads + [load], c) && load.used[c] == LastUse(loads + [load], c)
    {
      assert over[c] == TimesOver(loads, c);
    }
  }

  lemma CountsOverload(load: Load)
    ensures |OverCapacity(load)| > 0 <==> Overloaded(load)
  {
    if Overloaded(load) {
      var c :| c in load.used && load.used[c] > MAX_CIRCUIT;
      assert c in OverCapacity(load);
    }
    if |OverCapacity(load)| > 0 {
      var c :| c in OverCapacity(load);
    }
  }

  lemma RippedDearer(over: map<Cell, nat>, fixed: map<Cell, nat>, load: Load)
    requires over.Keys == load.used.Keys
    ensures Dearer(Demand(over, load.used), Ripped(over, fixed, load)) && Fair(Ripped(over, fixed, load), [])
  {
  }

  /** Some entry is over capacity. */
  ghost predicate Overloaded(load: Load)
  {
    exists c :: c in load.used && load.used[c] > MAX_CIRCUIT
  }

  lemma AllLegal(g: Graph, fixed: map<Cell, nat>, load: Load, hist: seq<Record>)
    requires HistoryOk(g, fixed, load, hist) && fixed.Keys == load.used.Keys == Cells(g)
    requires forall c :: c in load.used ==> load.used[c] <= MAX_CIRCUIT
    ensures forall c :: c in Cells(g) ==> EntryLegal(g, fixed, hist, c)
  {
    hide HistoryOk, Cells, EntryLegal;
    forall c | c in Cells(g)
      ensures EntryLegal(g, fixed, hist, c)
    {
      EntryIsLegal(g, fixed, load, hist, c);
    }
  }

  /** The load at the start of an iteration: all routes removed. */
  function Ripped(over: map<Cell, nat>, fixed: map<Cell, nat>, load: Load): (r: Load)
    requires over.Keys == load.used.Keys
  {
    Load(Demand(over, load.used), map c | c in load.used :: 0, fixed, map c | c in load.groupIds :: -1)
  }

  lemma RippedUp(g: Graph, fixed: map<Cell, nat>, over: map<Cell, nat>, load: Load)
    requires LoadOk(g, load) && fixed.Keys == Cells(g) && over.Keys == Cells(g)
    ensures over.Keys == load.used.Keys && HistoryOk(g, fixed, Ripped(over, fixed, load), [])
  {
    hide Cells;
  }

  lemma HistoryLoad(g: Graph, fixed: map<Cell, nat>, load: Load, hist: seq<Record>)
    requires HistoryOk(g, fixed, load, hist)
    ensures LoadOk(g, load) && load.used.Keys == Cells(g)
  {
    hide Cells;
  }
}
