/** Tracing a flow backwards through the search tree, and what the collected links are. */
module PathTrace {
  import opened Common
  import opened PacketTypes
  import opened RoutingGraph
  import opened Dijkstra

  /** A channel taken by a flow. */
  datatype Link = Link(from: PhysPort, to: PhysPort)

  datatype Setting = Setting(srcs: seq<Port>, dsts: seq<Port>)

  type Settings = map<TileLoc, Setting>

  function SettingAt(settings: Settings, t: TileLoc): (r: Setting)
  {
    if t in settings then settings[t] else Setting([], [])
  }

  /** Links inside a switch box become a pair of its setting; links between boxes need no setting. */
  function WithLink(settings: Settings, l: Link): (r: Settings)
  {
    if l.from.tile != l.to.tile then settings
    else
      var before := SettingAt(settings, l.from.tile);
      settings[l.from.tile := Setting(before.srcs + [l.from.port], before.dsts + [l.to.port])]
  }

  function SettingsOf(links: seq<Link>): (r: Settings)
  {
    if links == [] then map[] else WithLink(SettingsOf(links[..|links| - 1]), links[|links| - 1])
  }

  // ---- what a route is

  /** A path whose every step is one of the links. */
  ghost predicate LinkPath(links: seq<Link>, p: seq<PhysPort>)
  {
    p != [] && (|p| > 1 ==> LinkPath(links, p[..|p| - 1]) && Link(p[|p| - 2], p[|p| - 1]) in links)
  }

  ghost predicate Connected(links: seq<Link>, src: PhysPort, v: PhysPort)
  {
    exists p :: LinkPath(links, p) && p[0] == src && p[|p| - 1] == v
  }

  /** No vertex is driven twice, nor is the source. */
  ghost predicate SingleDrivers(src: PhysPort, links: seq<Link>)
  {
    && (forall i, j :: 0 <= i < j < |links| ==> links[i].to != links[j].to)
    && (forall i :: 0 <= i < |links| ==> links[i].to != src)
  }

  ghost predicate IsRoute(g: Graph, src: PhysPort, dsts: seq<PhysPort>, links: seq<Link>)
  {
    && (forall l :: l in links ==> Edge(g, l.from, l.to))
    && SingleDrivers(src, links)
    && (forall d :: d in dsts ==> Connected(links, src, d))
  }

  /** The settings of a route pair up ports that the switch box can connect. */
  lemma {:induction false} PairsAvailable(g: Graph, links: seq<Link>, t: TileLoc)
    requires forall l :: l in links ==> Edge(g, l.from, l.to)
    ensures var r := SettingAt(SettingsOf(links), t);
            && |r.srcs| == |r.dsts|
            && forall k :: 0 <= k < |r.srcs| ==> PairAvailable(g, links, t, r.srcs[k], r.dsts[k])
    decreases |links|
  {
    if links != [] {
      var n := |links| - 1;
      var l := links[n];
      PairsAvailable(g, links[..n], t);
      var r, r' := SettingAt(SettingsOf(links[..n]), t), SettingAt(SettingsOf(links), t);
      assert l in links;
      assert r' == r || (l.from.tile == l.to.tile == t && r' == Setting(r.srcs + [l.from.port], r.dsts + [l.to.port]));
      hide SettingsOf;
      forall k | 0 <= k < |r'.srcs|
        ensures PairAvailable(g, links, t, r'.srcs[k], r'.dsts[k])
      {
        if k < |r.srcs| {
          PairMore(g, links[..n], links, t, r.srcs[k], r.dsts[k]);
        } else {
          LinkPair(g, links, l);
        }
      }
    }
  }

  /** The pair comes from a link of the route, and the switch box of `t` can connect it. */
  ghost predicate PairAvailable(g: Graph, links: seq<Link>, t: TileLoc, p: Port, q: Port)
  {
    && (exists l :: l in links && l.from.tile == t && l.to.tile == t && l.from.port == p && l.to.port == q)
    && (t, t) in g && exists i: nat, j: nat :: Connects(g[(t, t)], p, q, i, j)
  }

  lemma PairMore(g: Graph, links: seq<Link>, more: seq<Link>, t: TileLoc, p: Port, q: Port)
    requires PairAvailable(g, links, t, p, q) && forall l :: l in links ==> l in more
    ensures PairAvailable(g, more, t, p, q)
  {
  }

  lemma LinkPair(g: Graph, links: seq<Link>, l: Link)
    requires Edge(g, l.from, l.to) && l in links && l.from.tile == l.to.tile
    ensures PairAvailable(g, links, l.from.tile, l.from.port, l.to.port)
  {
    assert Intra(g, l.from, l.to);
  }

  predicate PairAt(r: Setting, k: int, l: Link)
  {
    0 <= k < |r.srcs| && k < |r.dsts| && r.srcs[k] == l.from.port && r.dsts[k] == l.to.port
  }

  ghost predicate Configured(r: Setting, l: Link)
  {
    exists k :: PairAt(r, k, l)
  }

  /** Every link inside a switch box is in its setting. */
  lemma {:induction false} LinksConfigured(links: seq<Link>, l: Link)
    requires l in links && l.from.tile == l.to.tile
    ensures Configured(SettingAt(SettingsOf(links), l.from.tile), l)
    decreases |links|
  {
    var n := |links| - 1;
    var before, r := SettingAt(SettingsOf(links[..n]), l.from.tile), SettingAt(SettingsOf(links), l.from.tile);
    SameLengths(links[..n], l.from.tile);
    if l == links[n] {
      assert r == Setting(before.srcs + [l.from.port], before.dsts + [l.to.port]);
      assert PairAt(r, |before.srcs|, l);
    } else {
      LinksConfigured(links[..n], l);
      var k :| PairAt(before, k, l);
      assert PairAt(r, k, l);
    }
  }

  lemma {:induction false} SameLengths(links: seq<Link>, t: TileLoc)
    ensures |SettingAt(SettingsOf(links), t).srcs| == |SettingAt(SettingsOf(links), t).dsts|
    decreases |links|
  {
    if links != [] {
      SameLengths(links[..|links| - 1], t);
    }
  }

  // ---- the backward walk

  /** The loop invariant: the links are the tree edges of the processed vertices, closed but for `curr`. */
  ghost predicate Tracing(src: PhysPort, preds: map<PhysPort, PhysPort>, processed: set<PhysPort>, links: seq<Link>,
                          curr: PhysPort)
  {
    && src in processed
    && (forall v :: v in processed && v != src ==>
          v in preds && Link(preds[v], v) in links && (preds[v] in processed || preds[v] == curr))
    && (forall l :: l in links ==> l.to in processed && l.to != src && l.to in preds && preds[l.to] == l.from)
    && SingleDrivers(src, links)
  }

  lemma TraceStep(src: PhysPort, preds: map<PhysPort, PhysPort>, processed: set<PhysPort>, links: seq<Link>,
                  curr: PhysPort)
    requires Tracing(src, preds, processed, links, curr) && curr !in processed && curr in preds
    ensures Tracing(src, preds, processed + {curr}, links + [Link(preds[curr], curr)], preds[curr])
  {
    assert forall i :: 0 <= i < |links| ==> links[i] in links;
  }

  lemma TraceNext(src: PhysPort, preds: map<PhysPort, PhysPort>, processed: set<PhysPort>, links: seq<Link>,
                  curr: PhysPort, next: PhysPort)
    requires Tracing(src, preds, processed, links, curr) && curr in processed
    ensures Tracing(src, preds, processed, links, next)
  {
    hide SingleDrivers;
  }

  /** In a finished trace every processed vertex is connected to the source: its tree path runs along links. */
  lemma {:induction false} ProcessedConnected(g: Graph, w: Weights, s: Search, src: PhysPort, processed: set<PhysPort>,
                                              links: seq<Link>, v: PhysPort)
    requires IsTree(g, w, src, s) && Tracing(src, s.preds, processed, links, src) && v in processed && v in s.popped
    ensures Connected(links, src, v)
    decreases IndexOf(s.popped, v)
  {
    hide Edge, Weight, Reachable, SingleDrivers, NoDup;
    if v == src {
      assert LinkPath(links, [src]);
    } else {
      assert PredOk(g, w, s, v);
      EarlierIndex(s.popped, s.preds[v], v);
      ProcessedConnected(g, w, s, src, processed, links, s.preds[v]);
      ConnectedNext(links, src, s.preds[v], v);
    }
  }

  lemma ConnectedNext(links: seq<Link>, src: PhysPort, u: PhysPort, v: PhysPort)
    requires Connected(links, src, u) && Link(u, v) in links
    ensures Connected(links, src, v)
  {
    var p :| LinkPath(links, p) && p[0] == src && p[|p| - 1] == u;
    assert (p + [v])[..|p|] == p;
    assert LinkPath(links, p + [v]);
  }

  lemma TraceIsRoute(g: Graph, w: Weights, s: Search, src: PhysPort, dsts: seq<PhysPort>, processed: set<PhysPort>,
                     links: seq<Link>)
    requires IsTree(g, w, src, s) && Tracing(src, s.preds, processed, links, src)
    requires forall d :: d in dsts ==> d in processed && d in s.popped
    ensures IsRoute(g, src, dsts, links)
  {
    forall l | l in links
      ensures Edge(g, l.from, l.to)
    {
      assert PredOk(g, w, s, l.to);
    }
    hide Edge, IsTree;
    forall d | d in dsts
      ensures Connected(links, src, d)
    {
      ProcessedConnected(g, w, s, src, processed, links, d);
    }
    hide Connected;
  }

  // ---- cells

  ghost predicate LinksHaveCells(g: Graph, links: seq<Link>)
  {
    forall l :: l in links ==> HasCell(g, l.from, l.to) && l.to.dir == DST
  }

  /** Some link of the route goes through the matrix entry `c`. */
  ghost predicate Crosses(g: Graph, links: seq<Link>, c: Cell)
  {
    exists l :: l in links && HasCell(g, l.from, l.to) && CellOf(g, l.from, l.to) == c
  }

  /** A route goes through each entry at most once. */
  lemma NewCell(g: Graph, src: PhysPort, preds: map<PhysPort, PhysPort>, processed: set<PhysPort>, links: seq<Link>,
                curr: PhysPort)
    requires Tracing(src, preds, processed, links, curr) && LinksHaveCells(g, links)
    requires curr !in processed && curr in preds && HasCell(g, preds[curr], curr) && curr.dir == DST
    ensures !Crosses(g, links, CellOf(g, preds[curr], curr))
  {
    hide SingleDrivers;
  }

  lemma CrossesNext(g: Graph, links: seq<Link>, l: Link, c: Cell)
    requires HasCell(g, l.from, l.to)
    ensures Crosses(g, links + [l], c) <==> Crosses(g, links, c) || c == CellOf(g, l.from, l.to)
  {
    var more := links + [l];
    assert l in more;
    if Crosses(g, links, c) {
      var k :| k in links && HasCell(g, k.from, k.to) && CellOf(g, k.from, k.to) == c;
      assert k in more;
    }
  }
}
