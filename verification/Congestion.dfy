/** How routing a flow loads the matrix entries, and what the loads say about who crosses an entry. */
module Congestion {
  import opened PacketTypes
  import opened RoutingGraph
  import opened Dijkstra
  import opened PathTrace
  import opened Capacity

  /** The matrices the router keeps: weights, units used, packet flows counted, owning packet group. */
  datatype Load = Load(demand: map<Cell, real>, used: map<Cell, nat>, packets: map<Cell, nat>, groupIds: map<Cell, int>)

  function Cells(g: Graph): (r: set<Cell>)
  {
    set k, i: nat, j: nat | k in g && i < |g[k].srcPorts| && j < |g[k].dstPorts| :: Cell(k.0, k.1, i, j)
  }

  lemma CellInCells(g: Graph, u: PhysPort, v: PhysPort)
    requires HasCell(g, u, v)
    ensures CellOf(g, u, v) in Cells(g)
  {
  }

  ghost predicate LoadOk(g: Graph, load: Load)
  {
    && load.demand.Keys == Cells(g) && load.used.Keys == Cells(g)
    && load.packets.Keys == Cells(g) && load.groupIds.Keys == Cells(g)
    && (forall c :: c in load.demand ==> load.demand[c] >= 0.0)
  }

  lemma LoadWeights(g: Graph, load: Load)
    requires LoadOk(g, load)
    ensures WeightsOk(g, load.demand)
  {
    forall u, v | HasCell(g, u, v)
      ensures CellOf(g, u, v) in load.demand
    {
      CellInCells(g, u, v);
    }
  }

  /** An entry at capacity becomes dearer. */
  function Bumped(demand: real, used: nat): (r: real)
  {
    if used >= MAX_CIRCUIT then demand * 1.5 else demand
  }

  /** No entry is cheaper than at the start of the iteration, and one at capacity is dearer by half at least. */
  ghost predicate Dearer(base: Weights, load: Load)
  {
    forall c :: c in base ==> c in load.demand && c in load.used && DearerAt(base[c], load.demand[c], load.used[c])
  }

  predicate DearerAt(base: real, demand: real, used: nat)
  {
    base >= 0.0 && demand >= (if used >= MAX_CIRCUIT then base * 1.5 else base)
  }

  lemma DearerBumped(base: real, demand: real, used: nat, used': nat)
    requires DearerAt(base, demand, used)
    ensures DearerAt(base, Bumped(demand, used'), used')
  {
  }

  /** A packet flow may join the stream on an entry that no other packet group has claimed. */
  predicate Joins(load: Load, c: Cell, groupId: int)
    requires c in load.groupIds
  {
    groupId >= 0 && (load.groupIds[c] == -1 || load.groupIds[c] == groupId)
  }

  /** A joining packet flow claims the whole row and column of its entry. */
  function Claimed(groupIds: map<Cell, int>, c: Cell, groupId: int): (r: map<Cell, int>)
    ensures r.Keys == groupIds.Keys
  {
    map d | d in groupIds ::
      if d.from == c.from && d.to == c.to && (d.i == c.i || d.j == c.j) then groupId else groupIds[d]
  }

  /** One flow of group `groupId` crosses the entry `c`. */
  function Crossed(load: Load, c: Cell, groupId: int): (r: Load)
    requires c in load.demand && c in load.used && c in load.packets && c in load.groupIds
  {
    var joins := Joins(load, c, groupId);
    var full := joins && load.packets[c] + 1 >= MAX_PACKET;
    var used := if joins && !full then load.used[c] else load.used[c] + 1;
    var packets := if !joins then load.packets[c] else if full then 0 else load.packets[c] + 1;
    Load(load.demand[c := Bumped(load.demand[c], used)], load.used[c := used], load.packets[c := packets],
         if joins then Claimed(load.groupIds, c, groupId) else load.groupIds)
  }

  type Ledger = map<Cell, Entry>

  function Entered(ledger: Ledger, load: Load, c: Cell, groupId: int): (r: Ledger)
    requires c in ledger && c in load.groupIds
  {
    ledger[c := if Joins(load, c, groupId) then Entry(ledger[c].joined + 1, ledger[c].direct)
                else Entry(ledger[c].joined, ledger[c].direct + 1)]
  }

  /** How many of the routes cross an entry. */
  ghost function Crossings(g: Graph, routes: seq<seq<Link>>, c: Cell): (n: nat)
  {
    if routes == [] then 0
    else Crossings(g, routes[..|routes| - 1], c) + if Crosses(g, routes[|routes| - 1], c) then 1 else 0
  }

  /** What a group found when it began: units used and packets counted. */
  datatype Found = Found(groupId: int, used: map<Cell, nat>, packets: map<Cell, nat>)

  /** Load and ledger of one entry agree. */
  ghost predicate Balanced(load: Load, found: Found, ledger: Ledger, c: Cell)
    requires c in load.used && c in load.packets && c in found.used && c in found.packets && c in ledger
  {
    && load.used[c] == found.used[c] + ledger[c].direct + Filled(found.packets[c], ledger[c].joined)
    && load.packets[c] == Packets(found.packets[c], ledger[c].joined)
    && (found.groupId < 0 ==> ledger[c].joined == 0)
  }

  ghost predicate SameCells(g: Graph, found: Found, ledger: Ledger)
  {
    found.used.Keys == Cells(g) && found.packets.Keys == Cells(g) && ledger.Keys == Cells(g)
  }

  /** Within a group: finished routes and the links of the one being traced account for all crossings. */
  ghost predicate GroupOk(g: Graph, load: Load, found: Found, ledger: Ledger, routes: seq<seq<Link>>, links: seq<Link>)
  {
    && LoadOk(g, load) && SameCells(g, found, ledger)
    && (forall c :: c in ledger ==> Balanced(load, found, ledger, c))
    && (forall c :: c in ledger ==> Counted(g, ledger[c], routes, links, c))
  }

  ghost predicate Counted(g: Graph, e: Entry, routes: seq<seq<Link>>, links: seq<Link>, c: Cell)
  {
    e.joined + e.direct == Crossings(g, routes, c) + if Crosses(g, links, c) then 1 else 0
  }

  lemma CrossedOk(g: Graph, load: Load, found: Found, ledger: Ledger, routes: seq<seq<Link>>, links: seq<Link>, l: Link)
    requires GroupOk(g, load, found, ledger, routes, links) && HasCell(g, l.from, l.to)
    requires !Crosses(g, links, CellOf(g, l.from, l.to))
    ensures var c := CellOf(g, l.from, l.to);
            && c in ledger && c in load.demand && c in load.used && c in load.packets && c in load.groupIds
            && GroupOk(g, Crossed(load, c, found.groupId), found, Entered(ledger, load, c, found.groupId), routes,
                 links + [l])
  {
    hide Cells, Crosses, Crossings, HasCell, CellOf, Balanced, Counted, Crossed, Entered, LoadOk;
    var c := CellOf(g, l.from, l.to);
    CellInCells(g, l.from, l.to);
    LoadCells(g, load);
    var load', ledger' := Crossed(load, c, found.groupId), Entered(ledger, load, c, found.groupId);
    CrossedLoad(g, load, c, found.groupId);
    LoadCells(g, load');
    EnteredCells(ledger, load, c, found.groupId);
    forall d | d in ledger
      ensures Balanced(load', found, ledger', d) && Counted(g, ledger'[d], routes, links + [l], d)
    {
      CrossedBalanced(load, found, ledger, c, d);
      EnteredCounted(g, load, found.groupId, ledger, routes, links, l, d);
    }
  }

  lemma LoadCells(g: Graph, load: Load)
    requires LoadOk(g, load)
    ensures load.demand.Keys == load.used.Keys == load.packets.Keys == load.groupIds.Keys == Cells(g)
  {
  }

  lemma EnteredCells(ledger: Ledger, load: Load, c: Cell, groupId: int)
    requires c in ledger && c in load.groupIds
    ensures Entered(ledger, load, c, groupId).Keys == ledger.Keys
  {
  }

  lemma CrossedBalanced(load: Load, found: Found, ledger: Ledger, c: Cell, d: Cell)
    requires c in load.demand && c in load.used && c in load.packets && c in load.groupIds && c in ledger
    requires d in load.used && d in load.packets && d in found.used && d in found.packets && d in ledger
    requires Balanced(load, found, ledger, d)
    ensures Balanced(Crossed(load, c, found.groupId), found, Entered(ledger, load, c, found.groupId), d)
  {
  }

  lemma EnteredCounted(g: Graph, load: Load, groupId: int, ledger: Ledger, routes: seq<seq<Link>>, links: seq<Link>,
                       l: Link, d: Cell)
    requires HasCell(g, l.from, l.to) && CellOf(g, l.from, l.to) in ledger && CellOf(g, l.from, l.to) in load.groupIds
    requires !Crosses(g, links, CellOf(g, l.from, l.to)) && d in ledger && Counted(g, ledger[d], routes, links, d)
    ensures Counted(g, Entered(ledger, load, CellOf(g, l.from, l.to), groupId)[d], routes, links + [l], d)
  {
    CrossesNext(g, links, l, d);
    hide Crosses, Crossings, HasCell, CellOf;
  }

  lemma CrossedLoad(g: Graph, load: Load, c: Cell, groupId: int)
    requires LoadOk(g, load) && c in Cells(g)
    ensures LoadOk(g, Crossed(load, c, groupId))
  {
    hide Cells;
  }

  lemma DearerCrossed(base: Weights, load: Load, c: Cell, groupId: int)
    requires Dearer(base, load) && c in load.demand && c in load.used && c in load.packets && c in load.groupIds
    ensures Dearer(base, Crossed(load, c, groupId))
  {
    hide DearerAt, Claimed;
    var after := Crossed(load, c, groupId);
    if c in base {
      DearerBumped(base[c], load.demand[c], load.used[c], after.used[c]);
    }
  }

  /** The units used on an entry by circuit flows are at least the routes that cross it. */
  lemma CircuitsPaid(g: Graph, load: Load, found: Found, ledger: Ledger, routes: seq<seq<Link>>, c: Cell)
    requires GroupOk(g, load, found, ledger, routes, []) && found.groupId < 0 && c in ledger
    ensures c in load.used && Crossings(g, routes, c) <= load.used[c]
  {
    hide Cells, Crossings;
    assert Balanced(load, found, ledger, c) && Counted(g, ledger[c], routes, [], c);
  }

  // ---- claims

  predicate Known(load: Load, c: Cell)
  {
    c in load.demand && c in load.used && c in load.packets && c in load.groupIds
  }

  /** The entries share a switch port: same box, and same row or column. */
  predicate OnLine(c: Cell, d: Cell)
  {
    d.from == c.from && d.to == c.to && (d.i == c.i || d.j == c.j)
  }

  /** A packet flow that joins keeps other packet groups from joining on its row and column, and nowhere else. */
  lemma ClaimBlocks(load: Load, c: Cell, a: int, d: Cell, b: int)
    requires Known(load, c) && Known(load, d) && Joins(load, c, a) && b >= 0
    ensures Known(Crossed(load, c, a), d)
    ensures Joins(Crossed(load, c, a), d, b) <==> if OnLine(c, d) then b == a else Joins(load, d, b)
  {
  }

  /**
   * The claim is not for good: when another group joins elsewhere in the same box, the entries where its row
   * or column meets those of the first group change hands, and it may join there too.
   */
  lemma CornersChangeHands(load: Load, c: Cell, a: int, e: Cell, b: int, corner: Cell)
    requires Known(load, c) && Known(load, e) && Known(load, corner) && a != b && b >= 0
    requires Joins(load, c, a) && Joins(load, e, b) && !OnLine(c, e) && OnLine(c, corner) && OnLine(e, corner)
    ensures var after := Crossed(load, c, a);
            && Known(after, e) && Known(after, corner) && !Joins(after, corner, b)
            && var later := Crossed(after, e, b);
               Known(later, corner) && Joins(later, corner, b) && !Joins(later, corner, a)
  {
    ClaimBlocks(load, c, a, e, b);
    ClaimBlocks(load, c, a, corner, b);
    var after := Crossed(load, c, a);
    hide Crossed;
    ClaimBlocks(after, e, b, corner, b);
    ClaimBlocks(after, e, b, corner, a);
  }

  // ---- sharing

  /** A group and how it has crossed the entries. */
  datatype Party = Party(groupId: int, ledger: Ledger)

  predicate JoinedAt(p: Party, c: Cell)
  {
    c in p.ledger && p.ledger[c].joined > 0
  }

  /** Group `id` has joined on a row or column through `d`. */
  ghost predicate JoinedOn(parties: seq<Party>, id: int, d: Cell)
  {
    exists i, c :: 0 <= i < |parties| && parties[i].groupId == id && JoinedAt(parties[i], c) && OnLine(c, d)
  }

  /** An entry is claimed only by a group that joined on its row or column. */
  ghost predicate ClaimsOk(load: Load, parties: seq<Party>)
  {
    forall d :: d in load.groupIds && load.groupIds[d] != -1 ==> JoinedOn(parties, load.groupIds[d], d)
  }

  /** Some other packet group joined on a row or column through `c`. */
  ghost predicate Contended(parties: seq<Party>, id: int, c: Cell)
  {
    exists other :: other != id && JoinedOn(parties, other, c)
  }

  /** Packet flows take a unit of their own only on entries that are contended; elsewhere they share. */
  ghost predicate Sharing(parties: seq<Party>)
  {
    forall i, c ::
      0 <= i < |parties| && parties[i].groupId >= 0 && c in parties[i].ledger && parties[i].ledger[c].direct > 0 ==>
        Contended(parties, parties[i].groupId, c)
  }

  ghost predicate Fair(load: Load, parties: seq<Party>)
  {
    ClaimsOk(load, parties) && Sharing(parties)
  }

  /** `after` has every party of `before`, with at least the joined crossings. */
  ghost predicate Grown(before: seq<Party>, after: seq<Party>)
  {
    && |before| <= |after|
    && forall i :: 0 <= i < |before| ==>
         && after[i].groupId == before[i].groupId
         && forall c :: JoinedAt(before[i], c) ==> JoinedAt(after[i], c)
  }

  lemma GrownJoined(before: seq<Party>, after: seq<Party>, id: int, d: Cell)
    requires Grown(before, after) && JoinedOn(before, id, d)
    ensures JoinedOn(after, id, d)
  {
    var i, c :| 0 <= i < |before| && before[i].groupId == id && JoinedAt(before[i], c) && OnLine(c, d);
    assert JoinedAt(after[i], c);
  }

  lemma GrownContended(before: seq<Party>, after: seq<Party>, id: int, c: Cell)
    requires Grown(before, after) && Contended(before, id, c)
    ensures Contended(after, id, c)
  {
    hide Grown, JoinedOn;
    var other :| other != id && JoinedOn(before, other, c);
    GrownJoined(before, after, other, c);
  }

  /** A crossing keeps claims and sharing in order. */
  lemma CrossedFair(load: Load, past: seq<Party>, id: int, ledger: Ledger, c: Cell)
    requires Known(load, c) && c in ledger && Fair(load, past + [Party(id, ledger)]) && id >= -1
    ensures Fair(Crossed(load, c, id), past + [Party(id, Entered(ledger, load, c, id))])
  {
    var before, after := past + [Party(id, ledger)], past + [Party(id, Entered(ledger, load, c, id))];
    assert Grown(before, after);
    hide Grown, Sharing, ClaimsOk;
    CrossedClaims(load, past, id, ledger, c);
    CrossedSharing(load, past, id, ledger, c);
  }

  lemma CrossedClaims(load: Load, past: seq<Party>, id: int, ledger: Ledger, c: Cell)
    requires Known(load, c) && c in ledger && ClaimsOk(load, past + [Party(id, ledger)])
    requires Grown(past + [Party(id, ledger)], past + [Party(id, Entered(ledger, load, c, id))])
    ensures ClaimsOk(Crossed(load, c, id), past + [Party(id, Entered(ledger, load, c, id))])
  {
    hide Grown, JoinedOn;
    var before, after := past + [Party(id, ledger)], past + [Party(id, Entered(ledger, load, c, id))];
    var load' := Crossed(load, c, id);
    forall d | d in load'.groupIds && load'.groupIds[d] != -1
      ensures JoinedOn(after, load'.groupIds[d], d)
    {
      if Joins(load, c, id) && OnLine(c, d) {
        JoinsNow(past, id, Entered(ledger, load, c, id), c, d);
      } else {
        GrownJoined(before, after, load.groupIds[d], d);
      }
    }
  }

  lemma JoinsNow(past: seq<Party>, id: int, ledger: Ledger, c: Cell, d: Cell)
    requires c in ledger && ledger[c].joined > 0 && OnLine(c, d)
    ensures JoinedOn(past + [Party(id, ledger)], id, d)
  {
    var all := past + [Party(id, ledger)];
    assert all[|past|].groupId == id && JoinedAt(all[|past|], c);
  }

  lemma CrossedSharing(load: Load, past: seq<Party>, id: int, ledger: Ledger, c: Cell)
    requires Known(load, c) && c in ledger && Fair(load, past + [Party(id, ledger)]) && id >= -1
    requires Grown(past + [Party(id, ledger)], past + [Party(id, Entered(ledger, load, c, id))])
    ensures Sharing(past + [Party(id, Entered(ledger, load, c, id))])
  {
    hide Grown, JoinedOn, Contended;
    var before, after := past + [Party(id, ledger)], past + [Party(id, Entered(ledger, load, c, id))];
    forall i, d | 0 <= i < |after| && after[i].groupId >= 0 && d in after[i].ledger && after[i].ledger[d].direct > 0
      ensures Contended(after, after[i].groupId, d)
    {
      if i == |past| && d == c && !Joins(load, c, id) {
        Blocked(load, before, id, c);
      } else {
        assert before[i].groupId == after[i].groupId && d in before[i].ledger && before[i].ledger[d].direct > 0;
      }
      GrownContended(before, after, after[i].groupId, d);
    }
  }

  /** A packet flow that may not join finds the entry claimed by another group. */
  lemma Blocked(load: Load, parties: seq<Party>, id: int, c: Cell)
    requires c in load.groupIds && ClaimsOk(load, parties) && id >= 0 && !Joins(load, c, id)
    ensures Contended(parties, id, c)
  {
    hide JoinedOn;
    assert JoinedOn(parties, load.groupIds[c], c);
  }

  lemma NewParty(load: Load, past: seq<Party>, id: int, ledger: Ledger)
    requires Fair(load, past) && forall c :: c in ledger ==> ledger[c] == Entry(0, 0)
    ensures Fair(load, past + [Party(id, ledger)])
  {
    var after := past + [Party(id, ledger)];
    assert Grown(past, after);
    hide Grown, JoinedOn, Contended;
    forall d | d in load.groupIds && load.groupIds[d] != -1
      ensures JoinedOn(after, load.groupIds[d], d)
    {
      GrownJoined(past, after, load.groupIds[d], d);
    }
    forall i, c | 0 <= i < |after| && after[i].groupId >= 0 && c in after[i].ledger && after[i].ledger[c].direct > 0
      ensures Contended(after, after[i].groupId, c)
    {
      assert i < |past| && after[i] == past[i];
      GrownContended(past, after, after[i].groupId, c);
    }
  }
}
