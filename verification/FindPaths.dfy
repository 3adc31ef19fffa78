/** Routing all flows: one search and one backward trace per flow, group by group, until no entry is over capacity. */
module FindPaths {
  import opened Common
  import opened PacketTypes
  import opened RoutingGraph
  import opened Dijkstra
  import opened PathTrace
  import opened Capacity
  import opened Congestion

  datatype Flow = Flow(groupId: int, src: PhysPort, dsts: seq<PhysPort>)

  // ---- one flow

  method TraceFlow(g: Graph, load0: Load, flow: Flow, preds: map<PhysPort, PhysPort>,
                   ghost w: Weights, ghost s: Search, ghost found: Found, ghost ledger0: Ledger,
                   ghost routes: seq<seq<Link>>, ghost base: Weights, ghost past: seq<Party>)
    returns (load: Load, settings: Settings, ghost links: seq<Link>, ghost ledger: Ledger)
    requires GraphOk(g) && IsTree(g, w, flow.src, s) && preds == s.preds && forall d :: d in flow.dsts ==> d in s.popped
    requires GroupOk(g, load0, found, ledger0, routes, []) && found.groupId == flow.groupId && Dearer(base, load0)
    requires flow.groupId >= -1 && Fair(load0, past + [Party(flow.groupId, ledger0)])
    ensures IsRoute(g, flow.src, flow.dsts, links) && settings == SettingsOf(links) && AlongTree(s, links)
    ensures Dearer(base, load) && Fair(load, past + [Party(flow.groupId, ledger)])
    ensures GroupOk(g, load, found, ledger, routes + [links], [])
  {
    hide GraphOk, GroupOk, Tracing, IsTree, IsRoute, LinksHaveCells, SettingsOf, Dearer, AlongTree, Fair;
    var processed := {flow.src};
    load, settings, links, ledger := load0, map[], [], ledger0;
    StartTrace(g, flow.src, preds);
    for k := 0 to |flow.dsts|
      invariant Tracing(flow.src, preds, processed, links, flow.src) && flow.src in processed
      invariant GroupOk(g, load, found, ledger, routes, links) && LinksHaveCells(g, links)
      invariant settings == SettingsOf(links) && Dearer(base, load)
      invariant Fair(load, past + [Party(flow.groupId, ledger)])
      invariant forall d :: d in flow.dsts[..k] ==> d in processed
    {
      var curr := flow.dsts[k];
      assert curr in flow.dsts && flow.dsts[..k + 1] == flow.dsts[..k] + [curr];
      TraceNext(flow.src, preds, processed, links, flow.src, curr);
      ghost var done := processed;
      while curr !in processed
        invariant Tracing(flow.src, preds, processed, links, curr) && flow.src in processed && done <= processed
        invariant GroupOk(g, load, found, ledger, routes, links) && LinksHaveCells(g, links)
        invariant settings == SettingsOf(links) && Dearer(base, load)
        invariant Fair(load, past + [Party(flow.groupId, ledger)])
        invariant curr in s.popped && (flow.dsts[k] in processed || curr == flow.dsts[k])
        decreases IndexOf(s.popped, curr)
      {
        load, settings, links, ledger :=
          TraceLink(g, load, flow, preds, curr, settings, w, s, found, ledger, routes, processed, links, base, past);
        processed := processed + {curr};
        curr := preds[curr];
      }
      TraceNext(flow.src, preds, processed, links, curr, flow.src);
    }
    assert flow.dsts[..|flow.dsts|] == flow.dsts;
    TraceIsRoute(g, w, s, flow.src, flow.dsts, processed, links);
    TracedAlong(flow.src, s, processed, links);
    FinishRoute(g, load, found, ledger, routes, links);
  }

  /** The links are edges of the search tree. */
  ghost predicate AlongTree(s: Search, links: seq<Link>)
  {
    forall l :: l in links ==> l.to in s.preds && s.preds[l.to] == l.from
  }

  lemma TracedAlong(src: PhysPort, s: Search, processed: set<PhysPort>, links: seq<Link>)
    requires Tracing(src, s.preds, processed, links, src)
    ensures AlongTree(s, links)
  {
    hide SingleDrivers;
  }

  /** One step back: the channel into `curr` is charged and recorded. */
  method TraceLink(g: Graph, load0: Load, flow: Flow, preds: map<PhysPort, PhysPort>, curr: PhysPort,
                   settings0: Settings,
                   ghost w: Weights, ghost s: Search, ghost found: Found, ghost ledger0: Ledger,
                   ghost routes: seq<seq<Link>>,
                   ghost processed: set<PhysPort>, ghost links0: seq<Link>, ghost base: Weights,
                   ghost past: seq<Party>)
    returns (load: Load, settings: Settings, ghost links: seq<Link>, ghost ledger: Ledger)
    requires GraphOk(g) && IsTree(g, w, flow.src, s) && preds == s.preds && curr in s.popped && curr !in processed
    requires GroupOk(g, load0, found, ledger0, routes, links0) && found.groupId == flow.groupId
    requires Tracing(flow.src, preds, processed, links0, curr) && LinksHaveCells(g, links0)
    requires settings0 == SettingsOf(links0)
    requires flow.src in processed && Dearer(base, load0) && flow.groupId >= -1
    requires Fair(load0, past + [Party(flow.groupId, ledger0)])
    ensures Dearer(base, load) && Fair(load, past + [Party(flow.groupId, ledger)])
    ensures curr in preds && preds[curr] in s.popped && IndexOf(s.popped, preds[curr]) < IndexOf(s.popped, curr)
    ensures GroupOk(g, load, found, ledger, routes, links) && LinksHaveCells(g, links) && settings == SettingsOf(links)
    ensures Tracing(flow.src, preds, processed + {curr}, links, preds[curr])
  {
    hide GraphOk, IsTree, GroupOk, Tracing, LinksHaveCells, HasCell, CellOf, Crossed, Entered, Crosses, SettingsOf;
    hide Dearer, Fair;
    TreeLink(g, w, flow.src, s, curr);
    NewCell(g, flow.src, preds, processed, links0, curr);
    TraceStep(flow.src, preds, processed, links0, curr);
    var l := Link(preds[curr], curr);
    CrossedOk(g, load0, found, ledger0, routes, links0, l);
    LinkAdded(g, links0, l);
    var c := CellOf(g, l.from, l.to);
    DearerCrossed(base, load0, c, flow.groupId);
    CrossedFair(load0, past, flow.groupId, ledger0, c);
    load := Crossed(load0, c, flow.groupId);
    settings := WithLink(settings0, l);
    ledger := Entered(ledger0, load0, c, flow.groupId);
    links := links0 + [l];
  }

  lemma LinkAdded(g: Graph, links: seq<Link>, l: Link)
    requires LinksHaveCells(g, links) && HasCell(g, l.from, l.to) && l.to.dir == DST
    ensures LinksHaveCells(g, links + [l]) && SettingsOf(links + [l]) == WithLink(SettingsOf(links), l)
  {
    assert (links + [l])[..|links|] == links;
  }

  lemma TreeLink(g: Graph, w: Weights, src: PhysPort, s: Search, v: PhysPort)
    requires GraphOk(g) && IsTree(g, w, src, s) && v in s.popped && v != src
    ensures v in s.preds && s.preds[v] in s.popped && IndexOf(s.popped, s.preds[v]) < IndexOf(s.popped, v)
    ensures HasCell(g, s.preds[v], v) && v.dir == DST
  {
    hide Edge, GraphOk, Reachable, HasCell;
    assert PredOk(g, w, s, v);
    EarlierIndex(s.popped, s.preds[v], v);
    EdgeHasCell(g, s.preds[v], v);
  }

  lemma StartTrace(g: Graph, src: PhysPort, preds: map<PhysPort, PhysPort>)
    ensures Tracing(src, preds, {src}, [], src) && LinksHaveCells(g, []) && SettingsOf([]) == map[]
  {
  }

  /** The traced links join the finished routes. */
  lemma FinishRoute(g: Graph, load: Load, found: Found, ledger: Ledger, routes: seq<seq<Link>>, links: seq<Link>)
    requires GroupOk(g, load, found, ledger, routes, links)
    ensures GroupOk(g, load, found, ledger, routes + [links], [])
  {
    hide LoadOk, Balanced, SameCells;
    assert (routes + [links])[..|routes|] == routes;
    forall c | c in ledger
      ensures Counted(g, ledger[c], routes + [links], [], c)
    {
      assert Counted(g, ledger[c], routes, links, c) && !Crosses(g, [], c);
      hide Crosses;
    }
  }

  // ---- one group

  function EndOfGroup(load: Load): (r: Load)
    requires load.demand.Keys == load.used.Keys == load.packets.Keys
    ensures r.demand.Keys == r.used.Keys == r.packets.Keys == load.used.Keys && r.groupIds == load.groupIds
    ensures forall c :: c in r.used ==>
              r.packets[c] == 0 && r.used[c] == load.used[c] + if load.packets[c] > 0 then 1 else 0
  {
    var used := map c | c in load.used :: load.used[c] + if load.packets[c] > 0 then 1 else 0;
    Load(map c | c in load.demand :: Bumped(load.demand[c], used[c]), used, map c | c in load.packets :: 0,
      load.groupIds)
  }

  lemma DearerAtEnd(base: Weights, load: Load)
    requires Dearer(base, load) && load.demand.Keys == load.used.Keys == load.packets.Keys
    ensures Dearer(base, EndOfGroup(load))
  {
    hide DearerAt;
    var after := EndOfGroup(load);
    forall c | c in base
      ensures c in after.demand && c in after.used && DearerAt(base[c], after.demand[c], after.used[c])
    {
      DearerBumped(base[c], load.demand[c], load.used[c], after.used[c]);
    }
  }

  /** What a group found, how it crossed the entries, its routes, and the load each of its flows met. */
  datatype Record = Record(found: Found, ledger: Ledger, routes: seq<seq<Link>>, loads: seq<Load>)

  /**
   * Flow `k` of a group was routed with regard to congestion: along a search tree for weights in which no
   * entry is cheaper than its base and one at capacity is dearer by half; and to a circuit flow the
   * entries of earlier circuit flows are at capacity.
   */
  ghost predicate Guided(g: Graph, base: Weights, flow: Flow, routes: seq<seq<Link>>, load: Load, k: nat)
    requires k < |routes|
  {
    && Dearer(base, load)
    && (exists s :: IsTree(g, load.demand, flow.src, s) && AlongTree(s, routes[k]))
    && (flow.groupId < 0 ==> forall c :: c in load.used ==> Crossings(g, routes[..k], c) <= load.used[c])
  }

  ghost predicate AllGuided(g: Graph, base: Weights, flows: seq<Flow>, routes: seq<seq<Link>>, loads: seq<Load>)
  {
    && |flows| == |routes| == |loads|
    && forall k :: 0 <= k < |flows| ==> Guided(g, base, flows[k], routes, loads[k], k)
  }

  function AccountAt(r: Record, c: Cell): (a: Account)
  {
    if c in r.found.packets && c in r.ledger then Account(r.found.packets[c], r.ledger[c]) else Account(0, Entry(0, 0))
  }

  function AccountsAt(hist: seq<Record>, c: Cell): (r: seq<Account>)
    ensures |r| == |hist| && forall i :: 0 <= i < |hist| ==> r[i] == AccountAt(hist[i], c)
  {
    seq(|hist|, i requires 0 <= i < |hist| => AccountAt(hist[i], c))
  }

  /** Units used are units charged; previously routed packets are still counted before the first group only. */
  ghost predicate HistoryOk(g: Graph, fixed: map<Cell, nat>, load: Load, hist: seq<Record>)
  {
    && LoadOk(g, load) && fixed.Keys == Cells(g)
    && (forall c :: c in fixed ==> CellHistory(fixed, load, hist, c))
    && (forall i :: 0 <= i < |hist| ==> RecordOk(g, fixed, hist[i], i))
  }

  ghost predicate CellHistory(fixed: map<Cell, nat>, load: Load, hist: seq<Record>, c: Cell)
  {
    && c in load.used && c in load.packets && c in fixed
    && load.used[c] == Charged(AccountsAt(hist, c)) && load.packets[c] == FixedAt(fixed, c, |hist|)
  }

  /** The packets counted when group `i` begins. */
  function FixedAt(fixed: map<Cell, nat>, c: Cell, i: nat): (n: nat)
    requires c in fixed
  {
    if i == 0 then fixed[c] else 0
  }

  ghost predicate RecordOk(g: Graph, fixed: map<Cell, nat>, r: Record, i: nat)
  {
    && SameCells(g, r.found, r.ledger) && fixed.Keys == Cells(g)
    && (forall c :: c in r.ledger ==> EntryOk(g, fixed, r, i, c))
  }

  ghost predicate EntryOk(g: Graph, fixed: map<Cell, nat>, r: Record, i: nat, c: Cell)
  {
    && c in r.ledger && c in r.found.packets && c in fixed
    && r.found.packets[c] == FixedAt(fixed, c, i)
    && (r.found.groupId < 0 ==> r.ledger[c].joined == 0)
    && r.ledger[c].joined + r.ledger[c].direct == Crossings(g, r.routes, c)
  }

  function Begun(load: Load, groupId: int): (f: Found)
  {
    Found(groupId, load.used, load.packets)
  }

  function NoEntries(cells: set<Cell>): (r: Ledger)
  {
    map c | c in cells :: Entry(0, 0)
  }

  lemma BeginGroup(g: Graph, fixed: map<Cell, nat>, load: Load, hist: seq<Record>, groupId: int)
    requires HistoryOk(g, fixed, load, hist)
    ensures GroupOk(g, load, Begun(load, groupId), NoEntries(Cells(g)), [], [])
  {
    hide Cells, LoadOk, RecordOk, CellHistory, Balanced, Counted;
    LoadCells(g, load);
    var ledger := NoEntries(Cells(g));
    forall c | c in ledger
      ensures Balanced(load, Begun(load, groupId), ledger, c) && Counted(g, ledger[c], [], [], c)
    {
      BeginCell(g, load, groupId, ledger, c);
    }
  }

  lemma BeginCell(g: Graph, load: Load, groupId: int, ledger: Ledger, c: Cell)
    requires c in load.used && c in load.packets && c in ledger && ledger[c] == Entry(0, 0)
    ensures Balanced(load, Begun(load, groupId), ledger, c) && Counted(g, ledger[c], [], [], c)
  {
    assert !Crosses(g, [], c);
    hide Crosses;
  }

  lemma FinishGroup(g: Graph, fixed: map<Cell, nat>, load0: Load, hist: seq<Record>, groupId: int,
                    load: Load, ledger: Ledger, routes: seq<seq<Link>>, loads: seq<Load>)
    requires HistoryOk(g, fixed, load0, hist) && GroupOk(g, load, Begun(load0, groupId), ledger, routes, [])
    ensures load.demand.Keys == load.used.Keys == load.packets.Keys
    ensures HistoryOk(g, fixed, EndOfGroup(load), hist + [Record(Begun(load0, groupId), ledger, routes, loads)])
  {
    hide Cells, LoadOk, RecordOk, CellHistory, Balanced, Counted, EndOfGroup;
    var r := Record(Begun(load0, groupId), ledger, routes, loads);
    LoadCells(g, load);
    EndLoad(g, load);
    forall c | c in fixed
      ensures CellHistory(fixed, EndOfGroup(load), hist + [r], c)
    {
      FinishCell(fixed, load0, hist, load, r, c);
    }
    RecordDone(g, fixed, load0, hist, load, r);
    assert forall i :: 0 <= i < |hist| ==> (hist + [r])[i] == hist[i];
  }

  lemma FinishCell(fixed: map<Cell, nat>, load0: Load, hist: seq<Record>, load: Load, r: Record, c: Cell)
    requires load.demand.Keys == load.used.Keys == load.packets.Keys && c in load.used && c in r.ledger
    requires CellHistory(fixed, load0, hist, c) && r.found.used == load0.used && r.found.packets == load0.packets
    requires Balanced(load, r.found, r.ledger, c)
    ensures CellHistory(fixed, EndOfGroup(load), hist + [r], c)
  {
    ChargedNext(hist, r, c);
    hide Charged, AccountsAt, Filled, Packets;
  }

  lemma EndLoad(g: Graph, load: Load)
    requires LoadOk(g, load)
    ensures load.demand.Keys == load.used.Keys == load.packets.Keys && LoadOk(g, EndOfGroup(load))
  {
    hide Cells;
  }

  lemma ChargedNext(hist: seq<Record>, r: Record, c: Cell)
    ensures Charged(AccountsAt(hist + [r], c)) ==
            Charged(AccountsAt(hist, c)) + Charge(AccountAt(r, c).start, AccountAt(r, c).entry)
  {
    var a := AccountsAt(hist + [r], c);
    assert a[..|hist|] == AccountsAt(hist, c);
  }

  lemma RecordDone(g: Graph, fixed: map<Cell, nat>, load0: Load, hist: seq<Record>, load: Load, r: Record)
    requires HistoryOk(g, fixed, load0, hist) && GroupOk(g, load, r.found, r.ledger, r.routes, [])
    requires r.found.packets == load0.packets && r.found.used == load0.used
    ensures RecordOk(g, fixed, r, |hist|)
  {
    hide Cells, LoadOk, RecordOk, CellHistory, Balanced, Counted, EntryOk;
    LoadCells(g, load);
    forall c | c in r.ledger
      ensures EntryOk(g, fixed, r, |hist|, c)
    {
      EntryDone(g, fixed, load0, hist, load, r, c);
    }
    RecordDefinition(g, fixed, r, |hist|);
  }

  lemma RecordDefinition(g: Graph, fixed: map<Cell, nat>, r: Record, i: nat)
    requires SameCells(g, r.found, r.ledger) && fixed.Keys == Cells(g)
    requires forall c :: c in r.ledger ==> EntryOk(g, fixed, r, i, c)
    ensures RecordOk(g, fixed, r, i)
  {
    hide Cells, EntryOk;
  }

  lemma EntryDone(g: Graph, fixed: map<Cell, nat>, load0: Load, hist: seq<Record>, load: Load, r: Record, c: Cell)
    requires CellHistory(fixed, load0, hist, c) && r.found.packets == load0.packets && c in r.ledger
    requires c in load.used && c in load.packets && c in r.found.used && Balanced(load, r.found, r.ledger, c)
    requires Counted(g, r.ledger[c], r.routes, [], c)
    ensures EntryOk(g, fixed, r, |hist|, c)
  {
    assert !Crosses(g, [], c);
    hide Crosses, Charged, AccountsAt, Filled, Packets;
  }

  /** The route of one flow, and its place in the solution. */
  ghost predicate FlowRouted(g: Graph, flow: Flow, links: seq<Link>, solution: map<PhysPort, Settings>)
  {
    IsRoute(g, flow.src, flow.dsts, links) && flow.src in solution && solution[flow.src] == SettingsOf(links)
  }

  ghost predicate FlowsRouted(g: Graph, flows: seq<Flow>, routes: seq<seq<Link>>, solution: map<PhysPort, Settings>)
  {
    |flows| == |routes| && forall k :: 0 <= k < |flows| ==> FlowRouted(g, flows[k], routes[k], solution)
  }

  /** The flows the router accepts: sources and destinations by direction, every destination reachable. */
  ghost predicate FlowOk(g: Graph, flow: Flow)
  {
    flow.src.dir == SRC && forall d :: d in flow.dsts ==> Reachable(g, flow.src, d)
  }

  ghost predicate DistinctSources(flows: seq<Flow>)
  {
    forall i, j :: 0 <= i < j < |flows| ==> flows[i].src != flows[j].src
  }

  method RouteGroup(g: Graph, load0: Load, known: map<PhysPort, seq<PhysPort>>, groupId: int, flows: seq<Flow>,
                    solution0: map<PhysPort, Settings>, ghost fixed: map<Cell, nat>, ghost hist: seq<Record>,
                    ghost base: Weights)
    returns (load: Load, channels: map<PhysPort, seq<PhysPort>>, solution: map<PhysPort, Settings>,
      ghost record: Record)
    requires GraphOk(g) && ChannelsOk(g, known) && HistoryOk(g, fixed, load0, hist)
    requires DistinctSources(flows) && Dearer(base, load0) && groupId >= -1 && Fair(load0, PartiesOf(hist))
    requires forall k :: 0 <= k < |flows| ==> FlowOk(g, flows[k]) && flows[k].groupId == groupId
    ensures ChannelsOk(g, channels) && HistoryOk(g, fixed, load, hist + [record])
    ensures record.found.groupId == groupId && FlowsRouted(g, flows, record.routes, solution)
    ensures Keeps(solution0, solution, flows)
    ensures Dearer(base, load) && AllGuided(g, base, flows, record.routes, record.loads)
    ensures Fair(load, PartiesOf(hist + [record]))
  {
    hide GraphOk, ChannelsOk, HistoryOk, GroupOk, FlowRouted, LoadOk, Dearer, AllGuided, IsTree, AlongTree, Fair;
    load, channels, solution := load0, known, solution0;
    ghost var found := Begun(load0, groupId);
    ghost var ledger, routes, loads := NoEntries(Cells(g)), [], [];
    ghost var past := PartiesOf(hist);
    NoneGuided(g, base);
    NewParty(load0, past, groupId, ledger);
    BeginGroup(g, fixed, load0, hist, groupId);
    for k := 0 to |flows|
      invariant ChannelsOk(g, channels) && GroupOk(g, load, found, ledger, routes, [])
      invariant FlowsRouted(g, flows[..k], routes, solution) && Keeps(solution0, solution, flows[..k])
      invariant Dearer(base, load) && AllGuided(g, base, flows[..k], routes, loads)
      invariant Fair(load, past + [Party(groupId, ledger)])
    {
      var flow := flows[k];
      ghost var w := load.demand;
      GroupWeights(g, load, found, ledger, routes);
      var preds;
      ghost var s, stale;
      preds, channels, s, stale := ShortestPaths(g, load.demand, channels, flow.src);
      AllReached(g, w, s, flow);
      hide FlowOk;
      var settings;
      ghost var links;
      ghost var met, before := load, ledger;
      load, settings, links, ledger := TraceFlow(g, load, flow, preds, w, s, found, ledger, routes, base, past);
      OneGuided(g, base, flows, k, routes, loads, links, met, found, before, s);
      OneMore(g, flows, k, routes, solution0, solution, links, settings);
      routes, loads := routes + [links], loads + [met];
      solution := solution[flow.src := settings];
    }
    assert flows[..|flows|] == flows;
    FinishGroup(g, fixed, load0, hist, groupId, load, ledger, routes, loads);
    DearerAtEnd(base, load);
    record := Record(found, ledger, routes, loads);
    PartiesNext(hist, record);
    FairAtEnd(load, past + [Party(groupId, ledger)]);
    load := EndOfGroup(load);
  }

  function PartiesOf(hist: seq<Record>): (r: seq<Party>)
  {
    seq(|hist|, i requires 0 <= i < |hist| => Party(hist[i].found.groupId, hist[i].ledger))
  }

  lemma PartiesNext(hist: seq<Record>, r: Record)
    ensures PartiesOf(hist + [r]) == PartiesOf(hist) + [Party(r.found.groupId, r.ledger)]
  {
  }

  lemma FairAtEnd(load: Load, parties: seq<Party>)
    requires Fair(load, parties) && load.demand.Keys == load.used.Keys == load.packets.Keys
    ensures Fair(EndOfGroup(load), parties)
  {
    hide JoinedOn, Sharing;
  }

  lemma NoneGuided(g: Graph, base: Weights)
    ensures AllGuided(g, base, [], [], [])
  {
  }

  lemma OneGuided(g: Graph, base: Weights, flows: seq<Flow>, k: nat, routes: seq<seq<Link>>, loads: seq<Load>,
                  links: seq<Link>, met: Load, found: Found, ledger: Ledger, s: Search)
    requires k < |flows| && AllGuided(g, base, flows[..k], routes, loads) && Dearer(base, met)
    requires IsTree(g, met.demand, flows[k].src, s) && AlongTree(s, links)
    requires GroupOk(g, met, found, ledger, routes, []) && found.groupId == flows[k].groupId
    ensures AllGuided(g, base, flows[..k + 1], routes + [links], loads + [met])
  {
    hide Dearer, IsTree, AlongTree, GroupOk, Crossings;
    var routes', loads' := routes + [links], loads + [met];
    forall j | 0 <= j < k + 1
      ensures Guided(g, base, flows[..k + 1][j], routes', loads'[j], j)
    {
      if j < k {
        assert Guided(g, base, flows[..k][j], routes, loads[j], j);
        assert routes'[..j] == routes[..j];
      } else {
        assert routes'[..k] == routes;
        EarlierPaid(g, met, found, ledger, routes);
      }
    }
  }

  lemma EarlierPaid(g: Graph, load: Load, found: Found, ledger: Ledger, routes: seq<seq<Link>>)
    requires GroupOk(g, load, found, ledger, routes, [])
    ensures found.groupId < 0 ==> forall c :: c in load.used ==> Crossings(g, routes, c) <= load.used[c]
  {
    hide Crossings, Cells, Balanced, Counted;
    assert load.used.Keys == ledger.Keys;
    hide GroupOk;
    if found.groupId < 0 {
      forall c | c in load.used
        ensures Crossings(g, routes, c) <= load.used[c]
      {
        CircuitsPaid(g, load, found, ledger, routes, c);
      }
    }
  }

  /** Only the entries of `flows` were added or replaced. */
  ghost predicate Keeps(before: map<PhysPort, Settings>, after: map<PhysPort, Settings>, flows: seq<Flow>)
  {
    forall x :: x in before && NoSource(flows, x) ==> x in after && after[x] == before[x]
  }

  ghost predicate NoSource(flows: seq<Flow>, x: PhysPort)
  {
    forall k :: 0 <= k < |flows| ==> flows[k].src != x
  }

  lemma GroupWeights(g: Graph, load: Load, found: Found, ledger: Ledger, routes: seq<seq<Link>>)
    requires GroupOk(g, load, found, ledger, routes, [])
    ensures WeightsOk(g, load.demand)
  {
    LoadWeights(g, load);
  }

  lemma AllReached(g: Graph, w: Weights, s: Search, flow: Flow)
    requires IsTree(g, w, flow.src, s) && FlowOk(g, flow)
    ensures forall d :: d in flow.dsts ==> d in s.popped
  {
    hide Reachable, TreeOk;
  }

  lemma OneMore(g: Graph, flows: seq<Flow>, k: nat, routes: seq<seq<Link>>, before: map<PhysPort, Settings>,
                solution: map<PhysPort, Settings>, links: seq<Link>, settings: Settings)
    requires k < |flows| && DistinctSources(flows) && FlowsRouted(g, flows[..k], routes, solution)
    requires Keeps(before, solution, flows[..k])
    requires IsRoute(g, flows[k].src, flows[k].dsts, links) && settings == SettingsOf(links)
    ensures FlowsRouted(g, flows[..k + 1], routes + [links], solution[flows[k].src := settings])
    ensures Keeps(before, solution[flows[k].src := settings], flows[..k + 1])
  {
    hide IsRoute, SettingsOf;
    var after := solution[flows[k].src := settings];
    assert flows[..k + 1] == flows[..k] + [flows[k]];
    forall j | 0 <= j < k + 1
      ensures FlowRouted(g, flows[..k + 1][j], (routes + [links])[j], after)
    {
      if j < k {
        assert FlowRouted(g, flows[..k][j], routes[j], solution);
      }
    }
    forall x | x in before && NoSource(flows[..k + 1], x)
      ensures x in after && after[x] == before[x]
    {
      assert flows[..k + 1][k].src != x;
      assert NoSource(flows[..k], x) by {
        assert forall j :: 0 <= j < k ==> flows[..k][j] == flows[..k + 1][j];
      }
    }
  }

  // ---- one iteration over all groups

  /** Flows with one packet group ID; circuit flows have group ID -1. */
  datatype FlowGroup = FlowGroup(id: int, flows: seq<Flow>)

  /** Ascending IDs from -1; all sources distinct. */
  ghost predicate GroupsOk(g: Graph, groups: seq<FlowGroup>)
  {
    && (forall i, j :: 0 <= i < j < |groups| ==> groups[i].id < groups[j].id)
    && (forall i :: 0 <= i < |groups| ==> FlowGroupOk(g, groups[i]) && groups[i].id >= -1)
    && (forall i, j, k, l :: 0 <= i < j < |groups| && 0 <= k < |groups[i].flows| && 0 <= l < |groups[j].flows| ==>
          groups[i].flows[k].src != groups[j].flows[l].src)
  }

  ghost predicate FlowGroupOk(g: Graph, group: FlowGroup)
  {
    && DistinctSources(group.flows)
    && forall k :: 0 <= k < |group.flows| ==> FlowOk(g, group.flows[k]) && group.flows[k].groupId == group.id
  }

  ghost predicate GroupRouted(g: Graph, group: FlowGroup, r: Record, solution: map<PhysPort, Settings>)
  {
    r.found.groupId == group.id && FlowsRouted(g, group.flows, r.routes, solution)
  }

  method RouteAll(g: Graph, load0: Load, known: map<PhysPort, seq<PhysPort>>, groups: seq<FlowGroup>,
                  ghost fixed: map<Cell, nat>, ghost base: Weights)
    returns (load: Load, channels: map<PhysPort, seq<PhysPort>>, solution: map<PhysPort, Settings>,
      ghost hist: seq<Record>)
    requires GraphOk(g) && ChannelsOk(g, known) && HistoryOk(g, fixed, load0, []) && GroupsOk(g, groups)
    requires Dearer(base, load0) && Fair(load0, [])
    ensures ChannelsOk(g, channels) && HistoryOk(g, fixed, load, hist) && |hist| == |groups|
    ensures forall i :: 0 <= i < |groups| ==> GroupRouted(g, groups[i], hist[i], solution)
    ensures CongestionAware(g, base, groups, hist)
  {
    hide GraphOk, ChannelsOk, HistoryOk, FlowsRouted, Keeps, Dearer, AllGuided, Fair;
    load, channels, solution, hist := load0, known, map[], [];
    assert PartiesOf([]) == [];
    for n := 0 to |groups|
      invariant ChannelsOk(g, channels) && HistoryOk(g, fixed, load, hist) && |hist| == n
      invariant forall i :: 0 <= i < n ==> GroupRouted(g, groups[i], hist[i], solution)
      invariant Dearer(base, load) && AllAware(g, base, groups[..n], hist) && Fair(load, PartiesOf(hist))
    {
      ghost var before := solution;
      ghost var record;
      assert FlowGroupOk(g, groups[n]);
      load, channels, solution, record :=
        RouteGroup(g, load, channels, groups[n].id, groups[n].flows, solution, fixed, hist, base);
      forall i | 0 <= i < n
        ensures GroupRouted(g, groups[i], hist[i], solution)
      {
        StillRouted(g, groups, i, n, hist[i], before, solution);
      }
      hide GroupRouted;
      hist := hist + [record];
    }
    assert groups[..|groups|] == groups;
    FairSharing(load, PartiesOf(hist));
  }

  lemma FairSharing(load: Load, parties: seq<Party>)
    requires Fair(load, parties)
    ensures Sharing(parties)
  {
    hide ClaimsOk, Sharing;
  }

  /** Every flow was routed with regard to congestion, and packet flows share entries that are not contended. */
  ghost predicate CongestionAware(g: Graph, base: Weights, groups: seq<FlowGroup>, hist: seq<Record>)
  {
    AllAware(g, base, groups, hist) && Sharing(PartiesOf(hist))
  }

  ghost predicate AllAware(g: Graph, base: Weights, groups: seq<FlowGroup>, hist: seq<Record>)
  {
    && |groups| == |hist|
    && forall i :: 0 <= i < |groups| ==> AllGuided(g, base, groups[i].flows, hist[i].routes, hist[i].loads)
  }

  lemma StillRouted(g: Graph, groups: seq<FlowGroup>, i: nat, n: nat, r: Record, before: map<PhysPort, Settings>,
                    after: map<PhysPort, Settings>)
    requires i < n < |groups| && GroupsOk(g, groups) && GroupRouted(g, groups[i], r, before)
    requires Keeps(before, after, groups[n].flows)
    ensures GroupRouted(g, groups[i], r, after)
  {
    hide IsRoute, SettingsOf, FlowGroupOk;
    forall k | 0 <= k < |groups[i].flows|
      ensures FlowRouted(g, groups[i].flows[k], r.routes[k], after)
    {
      assert FlowRouted(g, groups[i].flows[k], r.routes[k], before);
      assert NoSource(groups[n].flows, groups[i].flows[k].src);
    }
  }

  // ---- what a solution is

  ghost predicate CrossedBy(g: Graph, hist: seq<Record>, i: nat, c: Cell)
  {
    i < |hist| && Crossings(g, hist[i].routes, c) > 0
  }

  /**
   * One group at most crosses the entry: a circuit flow alone and not where packets were routed before,
   * or up to 32 flows of one packet group.
   */
  ghost predicate EntryLegal(g: Graph, fixed: map<Cell, nat>, hist: seq<Record>, c: Cell)
  {
    && (forall i: nat, j: nat :: CrossedBy(g, hist, i, c) && CrossedBy(g, hist, j, c) ==> i == j)
    && (forall i: nat :: CrossedBy(g, hist, i, c) ==> GroupLegal(g, fixed, hist[i], i, c))
  }

  ghost predicate GroupLegal(g: Graph, fixed: map<Cell, nat>, r: Record, i: nat, c: Cell)
  {
    var n := Crossings(g, r.routes, c);
    && c in fixed && n <= MAX_PACKET
    && (r.found.groupId < 0 ==> n == 1 && fixed[c] == 0)
    && (fixed[c] > 0 ==> i == 0 && (fixed[c] + n <= MAX_PACKET || n == 1))
  }

  lemma EntryIsLegal(g: Graph, fixed: map<Cell, nat>, load: Load, hist: seq<Record>, c: Cell)
    requires HistoryOk(g, fixed, load, hist) && c in fixed && c in load.used && load.used[c] <= MAX_CIRCUIT
    ensures EntryLegal(g, fixed, hist, c)
  {
    hide HistoryOk, Cells, Crossings, GroupLegal, EntryOk, AccountsAt, Charged;
    EntriesOk(g, fixed, load, hist, c);
    forall i: nat, j: nat | CrossedBy(g, hist, i, c) && CrossedBy(g, hist, j, c)
      ensures i == j
    {
      CrossedEntry(g, fixed, hist, i, c);
      CrossedEntry(g, fixed, hist, j, c);
      OneGroup(AccountsAt(hist, c), i, j);
    }
    forall i: nat | CrossedBy(g, hist, i, c)
      ensures GroupLegal(g, fixed, hist[i], i, c)
    {
      GroupIsLegal(g, fixed, hist, i, c);
    }
  }

  lemma EntriesOk(g: Graph, fixed: map<Cell, nat>, load: Load, hist: seq<Record>, c: Cell)
    requires HistoryOk(g, fixed, load, hist) && c in fixed
    ensures forall i :: 0 <= i < |hist| ==> EntryOk(g, fixed, hist[i], i, c)
    ensures c in load.used && load.used[c] == Charged(AccountsAt(hist, c))
  {
    hide Cells, LoadOk, EntryOk, Charged, AccountsAt;
    assert CellHistory(fixed, load, hist, c);
    hide CellHistory;
    forall i | 0 <= i < |hist|
      ensures EntryOk(g, fixed, hist[i], i, c)
    {
      assert RecordOk(g, fixed, hist[i], i);
    }
  }

  lemma CrossedEntry(g: Graph, fixed: map<Cell, nat>, hist: seq<Record>, i: nat, c: Cell)
    requires CrossedBy(g, hist, i, c) && EntryOk(g, fixed, hist[i], i, c)
    ensures i < |hist| && AccountsAt(hist, c)[i].entry.joined + AccountsAt(hist, c)[i].entry.direct >= 1
  {
    hide Crossings;
  }

  lemma GroupIsLegal(g: Graph, fixed: map<Cell, nat>, hist: seq<Record>, i: nat, c: Cell)
    requires CrossedBy(g, hist, i, c) && c in fixed && Charged(AccountsAt(hist, c)) <= MAX_CIRCUIT
    requires forall j :: 0 <= j < |hist| ==> EntryOk(g, fixed, hist[j], j, c)
    ensures GroupLegal(g, fixed, hist[i], i, c)
  {
    hide Crossings, Charged, Charge;
    var accounts := AccountsAt(hist, c);
    ChargedOne(accounts, i);
    UnitCharge(accounts[i].start, accounts[i].entry);
    assert EntryOk(g, fixed, hist[i], i, c) && EntryOk(g, fixed, hist[0], 0, c);
    if fixed[c] > 0 {
      OneGroup(accounts, i, 0);
    }
  }
}
