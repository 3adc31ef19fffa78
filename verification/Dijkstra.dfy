/**
 * The path search of the router. A queued vertex's key may be lowered without telling the heap, so
 * the order of expansion is not the order of distances; the tree it builds is exact all the same.
 */
module Dijkstra {
  import opened Common
  import opened PacketTypes
  import opened RoutingGraph
  import DAryHeap

  type Weights = map<Cell, real>

  datatype Color = GRAY | BLACK

  /** Loop state: vertices popped so far, distances (absent is infinite), predecessors and colours. */
  datatype Search = Search(
    popped: seq<PhysPort>,
    dist: map<PhysPort, real>,
    preds: map<PhysPort, PhysPort>,
    colors: map<PhysPort, Color>)

  /** Every channel has a weight, and none is negative. */
  ghost predicate WeightsOk(g: Graph, w: Weights)
  {
    && (forall u, v :: HasCell(g, u, v) ==> CellOf(g, u, v) in w)
    && (forall c :: c in w ==> w[c] >= 0.0)
  }

  function Weight(g: Graph, w: Weights, u: PhysPort, v: PhysPort): (r: real)
  {
    if HasCell(g, u, v) && CellOf(g, u, v) in w then w[CellOf(g, u, v)] else 0.0
  }

  /** `u` was popped, and before `v` if `v` was popped. */
  ghost predicate Before(popped: seq<PhysPort>, u: PhysPort, v: PhysPort)
  {
    u in popped && forall k :: 0 <= k < |popped| && popped[k] == v ==> u in popped[..k]
  }

  /** The tree edge into `v`: a channel from a vertex popped earlier, with exact distances. */
  ghost predicate PredOk(g: Graph, w: Weights, s: Search, v: PhysPort)
  {
    && v in s.preds && v in s.dist && s.preds[v] in s.dist
    && Edge(g, s.preds[v], v) && Before(s.popped, s.preds[v], v)
    && s.dist[v] == s.dist[s.preds[v]] + Weight(g, w, s.preds[v], v)
  }

  ghost predicate TreeOk(g: Graph, w: Weights, src: PhysPort, s: Search)
  {
    && src in s.dist && s.dist[src] == 0.0
    && (forall v :: v in s.preds <==> v in s.dist && v != src)
    && (forall v :: v in s.preds ==> PredOk(g, w, s, v))
  }

  ghost predicate QueueOk(src: PhysPort, s: Search, queue: set<PhysPort>)
  {
    && NoDup(s.popped)
    && (forall v :: v in queue ==> v !in s.popped)
    && (forall v :: v in s.dist <==> v in queue || v in s.popped)
    && (if s.popped == [] then queue == {src} else s.popped[0] == src)
  }

  /** Black is what has been expanded, grey what is queued or being expanded; the source is never grey. */
  ghost predicate ColorsOk(src: PhysPort, s: Search, queue: set<PhysPort>, cur: Option<PhysPort>)
  {
    && (forall v :: v in s.colors && s.colors[v] == BLACK <==> v in s.popped && cur != Some(v))
    && (forall v :: v in s.colors && s.colors[v] == GRAY <==> v != src && (v in queue || cur == Some(v)))
  }

  ghost predicate Expanded(g: Graph, s: Search, cur: Option<PhysPort>)
  {
    forall u, v :: u in s.popped && cur != Some(u) && Edge(g, u, v) ==> v in s.dist
  }

  /** No shorter way to `v` through `u`. */
  ghost predicate NoShortcut(g: Graph, w: Weights, s: Search, u: PhysPort, v: PhysPort)
  {
    u in s.dist && v in s.dist && s.dist[v] <= s.dist[u] + Weight(g, w, u, v)
  }

  /** An expanded vertex offers no shorter way to a vertex popped after it, or still queued. */
  ghost predicate Relaxed(g: Graph, w: Weights, s: Search, cur: Option<PhysPort>)
  {
    forall u, v :: u in s.popped && cur != Some(u) && Edge(g, u, v) && Before(s.popped, u, v) ==>
      NoShortcut(g, w, s, u, v)
  }

  predicate LastIs(popped: seq<PhysPort>, u: PhysPort)
  {
    popped != [] && popped[|popped| - 1] == u
  }

  ghost predicate Inv(g: Graph, w: Weights, src: PhysPort, s: Search, queue: set<PhysPort>, cur: Option<PhysPort>)
  {
    && TreeOk(g, w, src, s) && QueueOk(src, s, queue) && ColorsOk(src, s, queue, cur) && Expanded(g, s, cur)
    && Relaxed(g, w, s, cur)
    && (cur.Some? ==> cur.value in s.popped && LastIs(s.popped, cur.value))
    && (forall v :: v in s.dist ==> v == src || v in Targets(g))
  }

  function Start(src: PhysPort): (s: Search)
  {
    Search([], map[src := 0.0], map[], map[])
  }

  lemma StartOk(g: Graph, w: Weights, src: PhysPort)
    ensures Inv(g, w, src, Start(src), {src}, None)
  {
  }

  lemma PopOk(g: Graph, w: Weights, src: PhysPort, s: Search, queue: set<PhysPort>, u: PhysPort)
    requires Inv(g, w, src, s, queue, None) && u in queue
    ensures Inv(g, w, src, s.(popped := s.popped + [u]), queue - {u}, Some(u))
  {
    hide Edge, Targets, TreeOk, Relaxed;
    PopTree(g, w, src, s, u);
    PopRelaxed(g, w, s, u);
    hide Weight;
    NoDupConcat(s.popped, [u]);
    hide NoDup;
  }

  lemma PopTree(g: Graph, w: Weights, src: PhysPort, s: Search, u: PhysPort)
    requires TreeOk(g, w, src, s)
    ensures TreeOk(g, w, src, s.(popped := s.popped + [u]))
  {
    hide Edge, Weight, Before;
    var s' := s.(popped := s.popped + [u]);
    forall v | v in s'.preds
      ensures PredOk(g, w, s', v)
    {
      assert PredOk(g, w, s, v);
      BeforeAppend(s.popped, u, s.preds[v], v);
    }
  }

  lemma PopRelaxed(g: Graph, w: Weights, s: Search, u: PhysPort)
    requires Relaxed(g, w, s, None) && NoDup(s.popped)
    ensures Relaxed(g, w, s.(popped := s.popped + [u]), Some(u))
  {
    hide Edge, Weight, NoDup;
    var s' := s.(popped := s.popped + [u]);
    forall x, v | x in s'.popped && x != u && Edge(g, x, v) && Before(s'.popped, x, v)
      ensures NoShortcut(g, w, s', x, v)
    {
      BeforePrefix(s.popped, u, x, v);
      assert NoShortcut(g, w, s, x, v);
    }
  }

  lemma BeforePrefix(popped: seq<PhysPort>, x: PhysPort, u: PhysPort, v: PhysPort)
    requires Before(popped + [x], u, v) && u != x
    ensures Before(popped, u, v)
  {
    var p := popped + [x];
    forall k | 0 <= k < |popped| && popped[k] == v
      ensures u in popped[..k]
    {
      assert p[k] == v && p[..k] == popped[..k];
    }
  }

  lemma BeforeAppend(popped: seq<PhysPort>, x: PhysPort, u: PhysPort, v: PhysPort)
    requires Before(popped, u, v)
    ensures Before(popped + [x], u, v)
  {
    var p := popped + [x];
    forall k | 0 <= k < |p| && p[k] == v
      ensures u in p[..k]
    {
      if k < |popped| {
        assert p[..k] == popped[..k];
      } else {
        assert p[..k] == popped;
      }
    }
  }

  /** The state after the distance of `v` is set through `u`; `isWhite` if `v` was not seen before. */
  function Reached(g: Graph, w: Weights, s: Search, u: PhysPort, v: PhysPort, isWhite: bool): (r: Search)
    requires u in s.dist
  {
    s.(dist := s.dist[v := s.dist[u] + Weight(g, w, u, v)], preds := s.preds[v := u],
       colors := if isWhite then s.colors[v := GRAY] else s.colors)
  }

  /** Setting the distance of a vertex that was not popped leaves the rest of the tree alone. */
  lemma ReachedTree(g: Graph, w: Weights, src: PhysPort, s: Search, u: PhysPort, v: PhysPort, isWhite: bool)
    requires TreeOk(g, w, src, s) && u in s.dist && u in s.popped && v !in s.popped && v != src && Edge(g, u, v)
    ensures TreeOk(g, w, src, Reached(g, w, s, u, v, isWhite))
  {
    hide Edge, Weight, PredOk;
    var s' := Reached(g, w, s, u, v, isWhite);
    forall x | x in s'.preds
      ensures PredOk(g, w, s', x)
    {
      if x != v {
        PredKept(g, w, s, u, v, isWhite, x);
      } else {
        PredNew(g, w, s, u, v, isWhite);
      }
    }
  }

  lemma PredNew(g: Graph, w: Weights, s: Search, u: PhysPort, v: PhysPort, isWhite: bool)
    requires u in s.dist && u in s.popped && v !in s.popped && Edge(g, u, v)
    ensures PredOk(g, w, Reached(g, w, s, u, v, isWhite), v)
  {
    assert u != v;
    hide Edge, Weight;
  }

  lemma PredKept(g: Graph, w: Weights, s: Search, u: PhysPort, v: PhysPort, isWhite: bool, x: PhysPort)
    requires u in s.dist && v !in s.popped && x != v && PredOk(g, w, s, x)
    ensures PredOk(g, w, Reached(g, w, s, u, v, isWhite), x)
  {
    assert s.preds[x] != v;
    hide Edge, Weight, Before;
  }

  /** A distance that is set or lowered opens no shortcut. */
  lemma ReachedRelaxed(g: Graph, w: Weights, s: Search, u: PhysPort, v: PhysPort, isWhite: bool)
    requires Relaxed(g, w, s, Some(u)) && Expanded(g, s, Some(u)) && u in s.dist && v !in s.popped
    requires v in s.dist ==> s.dist[u] + Weight(g, w, u, v) <= s.dist[v]
    ensures Relaxed(g, w, Reached(g, w, s, u, v, isWhite), Some(u))
  {
    hide Edge, Weight, Before;
    var s' := Reached(g, w, s, u, v, isWhite);
    forall x, y | x in s'.popped && x != u && Edge(g, x, y) && Before(s'.popped, x, y)
      ensures NoShortcut(g, w, s', x, y)
    {
      assert NoShortcut(g, w, s, x, y) && x != v;
    }
  }

  /** The rest of the invariant, for a vertex that is now in the queue. */
  lemma ReachedRest(g: Graph, w: Weights, src: PhysPort, s: Search, queue: set<PhysPort>, u: PhysPort, v: PhysPort,
                    isWhite: bool)
    requires QueueOk(src, s, queue) && Expanded(g, s, Some(u)) && u in s.popped && u in s.dist
    requires v !in s.popped && v in Targets(g) && forall x :: x in s.dist ==> x == src || x in Targets(g)
    ensures var s' := Reached(g, w, s, u, v, isWhite);
            && QueueOk(src, s', queue + {v}) && Expanded(g, s', Some(u))
            && forall x :: x in s'.dist ==> x == src || x in Targets(g)
  {
    hide Edge, Targets, Weight, NoDup;
    var s' := Reached(g, w, s, u, v, isWhite);
    assert s'.popped == s.popped && forall x :: x in s'.dist <==> x in s.dist || x == v;
    hide Reached;
  }

  /** A channel to a white vertex. */
  lemma DiscoverOk(g: Graph, w: Weights, src: PhysPort, s: Search, queue: set<PhysPort>, u: PhysPort, v: PhysPort)
    requires GraphOk(g) && src.dir == SRC && Inv(g, w, src, s, queue, Some(u)) && Edge(g, u, v) && v !in s.colors
    ensures v !in s.dist && v !in queue && u in s.dist && v !in s.popped && u in s.popped
    ensures Inv(g, w, src, Reached(g, w, s, u, v, true), queue + {v}, Some(u))
  {
    EdgeHasCell(g, u, v);
    EdgeTarget(g, u, v);
    hide Edge, Targets, Weight, GraphOk, HasCell, TreeOk, QueueOk, ColorsOk, Expanded, Reached, Relaxed, LastIs;
    White(src, s, queue, u, v);
    ReachedTree(g, w, src, s, u, v, true);
    ReachedRelaxed(g, w, s, u, v, true);
    ReachedColors(g, w, src, s, queue, u, v);
    ReachedRest(g, w, src, s, queue, u, v, true);
    ReachedPopped(g, w, s, u, v, true);
  }

  lemma ReachedPopped(g: Graph, w: Weights, s: Search, u: PhysPort, v: PhysPort, isWhite: bool)
    requires u in s.dist
    ensures Reached(g, w, s, u, v, isWhite).popped == s.popped
  {
  }

  lemma White(src: PhysPort, s: Search, queue: set<PhysPort>, u: PhysPort, v: PhysPort)
    requires QueueOk(src, s, queue) && ColorsOk(src, s, queue, Some(u)) && v !in s.colors && v != src && u in s.popped
    ensures v !in s.dist && v !in queue && v !in s.popped && u in s.dist
  {
  }

  lemma ReachedColors(g: Graph, w: Weights, src: PhysPort, s: Search, queue: set<PhysPort>, u: PhysPort, v: PhysPort)
    requires ColorsOk(src, s, queue, Some(u)) && v !in s.colors && v != src && u in s.dist && v !in s.popped
    ensures ColorsOk(src, Reached(g, w, s, u, v, true), queue + {v}, Some(u))
  {
  }

  /** A shorter way to a grey vertex. */
  lemma RelaxOk(g: Graph, w: Weights, src: PhysPort, s: Search, queue: set<PhysPort>, u: PhysPort, v: PhysPort)
    requires WeightsOk(g, w) && Inv(g, w, src, s, queue, Some(u)) && Edge(g, u, v)
    requires v in s.colors && s.colors[v] == GRAY && v in s.dist && u in s.dist
    requires s.dist[u] + Weight(g, w, u, v) < s.dist[v]
    ensures v !in s.popped && u in s.popped && v in s.preds
    ensures Inv(g, w, src, Reached(g, w, s, u, v, false), queue, Some(u))
  {
    hide Edge, Targets, Weight, WeightsOk, TreeOk, Expanded, Reached, ColorsOk, QueueOk, Relaxed, LastIs;
    WeightNonNegative(g, w, u, v);
    Grey(src, s, queue, u, v);
    HasPred(g, w, src, s, v);
    ReachedTree(g, w, src, s, u, v, false);
    ReachedRelaxed(g, w, s, u, v, false);
    ReachedRest(g, w, src, s, queue, u, v, false);
    ReachedPopped(g, w, s, u, v, false);
    ReachedSameColors(g, w, src, s, queue, u, v);
    assert queue + {v} == queue;
  }

  lemma HasPred(g: Graph, w: Weights, src: PhysPort, s: Search, v: PhysPort)
    requires TreeOk(g, w, src, s) && v in s.dist && v != src
    ensures v in s.preds
  {
  }

  lemma WeightNonNegative(g: Graph, w: Weights, u: PhysPort, v: PhysPort)
    requires WeightsOk(g, w)
    ensures Weight(g, w, u, v) >= 0.0
  {
  }

  lemma Grey(src: PhysPort, s: Search, queue: set<PhysPort>, u: PhysPort, v: PhysPort)
    requires QueueOk(src, s, queue) && ColorsOk(src, s, queue, Some(u)) && v in s.colors && s.colors[v] == GRAY
    requires v != u
    ensures v in queue && v !in s.popped && v != src
  {
  }

  lemma ReachedSameColors(g: Graph, w: Weights, src: PhysPort, s: Search, queue: set<PhysPort>, u: PhysPort,
                          v: PhysPort)
    requires ColorsOk(src, s, queue, Some(u)) && u in s.dist
    ensures ColorsOk(src, Reached(g, w, s, u, v, false), queue, Some(u))
  {
  }

  lemma FinishOk(g: Graph, w: Weights, src: PhysPort, s: Search, queue: set<PhysPort>, u: PhysPort)
    requires Inv(g, w, src, s, queue, Some(u)) && forall v :: Edge(g, u, v) ==> Tried(g, w, s, u, v)
    ensures Inv(g, w, src, s.(colors := s.colors[u := BLACK]), queue, None)
  {
    hide Edge, Targets, Weight, TreeOk, NoDup, Relaxed;
    TreeKeepsColors(g, w, src, s, s.colors[u := BLACK]);
    FinishRelaxed(g, w, s, u, s.colors[u := BLACK]);
  }

  /** The channel to `v` has been tried. */
  ghost predicate Tried(g: Graph, w: Weights, s: Search, u: PhysPort, v: PhysPort)
  {
    v in s.dist && (Before(s.popped, u, v) ==> NoShortcut(g, w, s, u, v))
  }

  lemma TriedReached(g: Graph, w: Weights, s: Search, u: PhysPort, v: PhysPort, isWhite: bool, x: PhysPort)
    requires u in s.dist && u in s.popped && v !in s.popped
    requires v in s.dist ==> s.dist[u] + Weight(g, w, u, v) <= s.dist[v]
    requires x == v || Tried(g, w, s, u, x)
    ensures Tried(g, w, Reached(g, w, s, u, v, isWhite), u, x)
  {
    hide Weight, Before;
  }

  lemma AllTriedReached(g: Graph, w: Weights, s: Search, u: PhysPort, dests: seq<PhysPort>, k: nat, isWhite: bool)
    requires k < |dests| && u in s.dist && u in s.popped && dests[k] !in s.popped
    requires dests[k] in s.dist ==> s.dist[u] + Weight(g, w, u, dests[k]) <= s.dist[dests[k]]
    requires forall j :: 0 <= j < k ==> Tried(g, w, s, u, dests[j])
    ensures forall j :: 0 <= j <= k ==> Tried(g, w, Reached(g, w, s, u, dests[k], isWhite), u, dests[j])
  {
    hide Tried, Reached, Weight;
    forall j | 0 <= j <= k
      ensures Tried(g, w, Reached(g, w, s, u, dests[k], isWhite), u, dests[j])
    {
      TriedReached(g, w, s, u, dests[k], isWhite, dests[j]);
    }
  }

  /** A coloured vertex that is not relaxed was popped earlier, or is no farther already. */
  lemma NotRelaxed(g: Graph, w: Weights, src: PhysPort, s: Search, queue: set<PhysPort>, u: PhysPort, v: PhysPort)
    requires Inv(g, w, src, s, queue, Some(u)) && v in s.colors && u in s.dist && v in s.dist
    requires s.colors[v] == GRAY ==> s.dist[v] <= s.dist[u] + Weight(g, w, u, v)
    ensures Tried(g, w, s, u, v)
  {
    hide Weight, TreeOk, Expanded, Relaxed, Targets;
    if s.colors[v] == BLACK {
      var k :| 0 <= k < |s.popped| && s.popped[k] == v;
      assert u !in s.popped[..k];
    }
  }

  lemma FinishRelaxed(g: Graph, w: Weights, s: Search, u: PhysPort, colors: map<PhysPort, Color>)
    requires Relaxed(g, w, s, Some(u)) && forall v :: Edge(g, u, v) ==> Tried(g, w, s, u, v)
    ensures Relaxed(g, w, s.(colors := colors), None)
  {
    hide Edge, Weight, Before;
    var s' := s.(colors := colors);
    forall x, y | x in s'.popped && Edge(g, x, y) && Before(s'.popped, x, y)
      ensures NoShortcut(g, w, s', x, y)
    {
      assert x == u ==> Tried(g, w, s, u, y);
      assert NoShortcut(g, w, s, x, y);
    }
  }

  lemma TreeKeepsColors(g: Graph, w: Weights, src: PhysPort, s: Search, colors: map<PhysPort, Color>)
    requires TreeOk(g, w, src, s)
    ensures TreeOk(g, w, src, s.(colors := colors))
  {
    hide Edge, Weight, Before;
    forall x | x in s.preds
      ensures PredOk(g, w, s.(colors := colors), x)
    {
      assert PredOk(g, w, s, x);
    }
  }

  // ---- the search

  /** The final tree: exactly the reachable vertices, every tree edge exact and from a vertex expanded earlier. */
  ghost predicate IsTree(g: Graph, w: Weights, src: PhysPort, s: Search)
  {
    && NoDup(s.popped) && s.popped != [] && s.popped[0] == src
    && (forall v :: v in s.popped <==> Reachable(g, src, v))
    && (forall v :: v in s.dist <==> v in s.popped)
    && TreeOk(g, w, src, s)
    && Relaxed(g, w, s, None)
  }

  /** Nothing is queued any more. */
  lemma SearchDone(g: Graph, w: Weights, src: PhysPort, s: Search)
    requires Inv(g, w, src, s, {}, None)
    ensures IsTree(g, w, src, s)
  {
    hide Edge, Targets;
    var all := set v | v in s.popped;
    assert Closed(g, all);
    forall v
      ensures v in s.popped <==> Reachable(g, src, v)
    {
      hide TreeOk, Relaxed;
      if Reachable(g, src, v) {
        var p :| IsPath(g, p) && p[0] == src && p[|p| - 1] == v;
        PathStays(g, p, all);
      }
      if v in s.popped {
        TreePathOk(g, w, src, s, v);
      }
    }
  }

  /** The path of tree edges from the source to `v`. */
  ghost function TreePath(g: Graph, w: Weights, src: PhysPort, s: Search, v: PhysPort): (p: seq<PhysPort>)
    requires TreeOk(g, w, src, s) && v in s.popped && v in s.dist
    decreases IndexOf(s.popped, v)
  {
    if v == src then [src]
    else
      assert PredOk(g, w, s, v);
      EarlierIndex(s.popped, s.preds[v], v);
      TreePath(g, w, src, s, s.preds[v]) + [v]
  }

  lemma EarlierIndex(popped: seq<PhysPort>, u: PhysPort, v: PhysPort)
    requires Before(popped, u, v) && v in popped
    ensures u in popped && IndexOf(popped, u) < IndexOf(popped, v)
  {
    var k := IndexOf(popped, v);
    assert u in popped[..k];
  }

  ghost function PathWeight(g: Graph, w: Weights, p: seq<PhysPort>): (r: real)
  {
    if |p| <= 1 then 0.0 else PathWeight(g, w, p[..|p| - 1]) + Weight(g, w, p[|p| - 2], p[|p| - 1])
  }

  /** Predecessor chains end at the source, and their weight is the distance. */
  lemma {:induction false} TreePathOk(g: Graph, w: Weights, src: PhysPort, s: Search, v: PhysPort)
    requires TreeOk(g, w, src, s) && v in s.popped && v in s.dist
    ensures var p := TreePath(g, w, src, s, v);
            && IsPath(g, p) && p[0] == src && p[|p| - 1] == v
            && PathWeight(g, w, p) == s.dist[v]
    ensures Reachable(g, src, v)
    decreases IndexOf(s.popped, v)
  {
    hide Edge, Weight, Reachable, Before;
    if v != src {
      assert PredOk(g, w, s, v);
      EarlierIndex(s.popped, s.preds[v], v);
      TreePathOk(g, w, src, s, s.preds[v]);
      assert TreePath(g, w, src, s, v) == TreePath(g, w, src, s, s.preds[v]) + [v];
      hide TreePath, TreeOk;
      PathExtend(g, w, TreePath(g, w, src, s, s.preds[v]), v);
    }
    PathReaches(g, TreePath(g, w, src, s, v));
  }

  lemma PathExtend(g: Graph, w: Weights, p: seq<PhysPort>, v: PhysPort)
    requires IsPath(g, p) && Edge(g, p[|p| - 1], v)
    ensures IsPath(g, p + [v]) && PathWeight(g, w, p + [v]) == PathWeight(g, w, p) + Weight(g, w, p[|p| - 1], v)
  {
    assert (p + [v])[..|p|] == p;
    hide Edge, Weight;
  }

  lemma PathReaches(g: Graph, p: seq<PhysPort>)
    requires IsPath(g, p)
    ensures Reachable(g, p[0], p[|p| - 1])
  {
  }

  // ---- when the paths are shortest

  /** No path from the source is lighter than the distance of its end. */
  ghost predicate Shortest(g: Graph, w: Weights, src: PhysPort, s: Search)
  {
    forall p :: IsPath(g, p) && p[0] == src ==>
      p[|p| - 1] in s.dist && s.dist[p[|p| - 1]] <= PathWeight(g, w, p)
  }

  /** Channels back to a vertex popped earlier offer no shorter way either. */
  ghost predicate NoneBehind(g: Graph, w: Weights, s: Search)
  {
    forall u, v :: u in s.popped && Edge(g, u, v) && !Before(s.popped, u, v) ==> NoShortcut(g, w, s, u, v)
  }

  /** The tree is one of shortest paths if and only if no channel back to an earlier vertex offers a shorter way. */
  lemma ShortestIff(g: Graph, w: Weights, src: PhysPort, s: Search)
    requires IsTree(g, w, src, s)
    ensures Shortest(g, w, src, s) <==> NoneBehind(g, w, s)
  {
    hide Edge, Weight, TreeOk, Reachable, PathWeight, Before, NoShortcut, NoDup;
    if NoneBehind(g, w, s) {
      forall p | IsPath(g, p) && p[0] == src
        ensures p[|p| - 1] in s.dist && s.dist[p[|p| - 1]] <= PathWeight(g, w, p)
      {
        PathNotShorter(g, w, src, s, p);
      }
    }
    if Shortest(g, w, src, s) {
      forall u, v | u in s.popped && Edge(g, u, v)
        ensures NoShortcut(g, w, s, u, v)
      {
        ShortestStep(g, w, src, s, u, v);
      }
    }
  }

  lemma {:induction false} PathNotShorter(g: Graph, w: Weights, src: PhysPort, s: Search, p: seq<PhysPort>)
    requires IsTree(g, w, src, s) && NoneBehind(g, w, s) && IsPath(g, p) && p[0] == src
    ensures p[|p| - 1] in s.dist && s.dist[p[|p| - 1]] <= PathWeight(g, w, p)
    decreases |p|
  {
    hide Edge, Weight, PredOk, Reachable, Before;
    if |p| > 1 {
      var n := |p| - 1;
      assert IsPath(g, p[..n]) && Edge(g, p[n - 1], p[n]);
      PathNotShorter(g, w, src, s, p[..n]);
      assert NoShortcut(g, w, s, p[n - 1], p[n]);
    }
  }

  lemma ShortestStep(g: Graph, w: Weights, src: PhysPort, s: Search, u: PhysPort, v: PhysPort)
    requires IsTree(g, w, src, s) && Shortest(g, w, src, s) && u in s.popped && Edge(g, u, v)
    ensures NoShortcut(g, w, s, u, v)
  {
    hide Edge, Weight, IsTree, IsPath, PathWeight;
    var p := TreePathTo(g, w, src, s, u);
    PathExtend(g, w, p, v);
    assert (p + [v])[0] == src;
  }

  /** Vertices are popped in the order of their distances. */
  ghost predicate Ascending(s: Search)
  {
    forall u, v :: Before(s.popped, u, v) && u in s.dist && v in s.dist ==> s.dist[u] <= s.dist[v]
  }

  lemma AscendingShortest(g: Graph, w: Weights, src: PhysPort, s: Search)
    requires WeightsOk(g, w) && IsTree(g, w, src, s) && Ascending(s)
    ensures Shortest(g, w, src, s)
  {
    hide Edge, Weight, PredOk, Reachable, WeightsOk, Shortest;
    forall u, v | u in s.popped && Edge(g, u, v) && !Before(s.popped, u, v)
      ensures NoShortcut(g, w, s, u, v)
    {
      WeightNonNegative(g, w, u, v);
      ReachedEnd(g, w, src, s, u, v);
      if u != v {
        EitherBefore(s.popped, u, v);
      }
    }
    ShortestIff(g, w, src, s);
  }

  lemma ReachedEnd(g: Graph, w: Weights, src: PhysPort, s: Search, u: PhysPort, v: PhysPort)
    requires IsTree(g, w, src, s) && u in s.popped && Edge(g, u, v)
    ensures v in s.popped
  {
    hide Edge, Weight, TreeOk, IsPath, PathWeight, Reachable, Relaxed, NoDup;
    var p := TreePathTo(g, w, src, s, u);
    PathExtend(g, w, p, v);
    PathReaches(g, p + [v]);
    assert (p + [v])[0] == src;
  }

  lemma TreePathTo(g: Graph, w: Weights, src: PhysPort, s: Search, u: PhysPort) returns (p: seq<PhysPort>)
    requires IsTree(g, w, src, s) && u in s.popped
    ensures IsPath(g, p) && p != [] && p[0] == src && p[|p| - 1] == u
    ensures u in s.dist && PathWeight(g, w, p) == s.dist[u]
  {
    TreePathOk(g, w, src, s, u);
    p := TreePath(g, w, src, s, u);
  }

  lemma EitherBefore(popped: seq<PhysPort>, u: PhysPort, v: PhysPort)
    requires NoDup(popped) && u in popped && v in popped && u != v
    ensures Before(popped, u, v) || Before(popped, v, u)
  {
    var i :| 0 <= i < |popped| && popped[i] == u;
    var j :| 0 <= j < |popped| && popped[j] == v;
    if i < j {
      assert popped[..j][i] == u;
    } else {
      assert popped[..i][j] == v;
    }
  }

  lemma PopAscending(g: Graph, w: Weights, src: PhysPort, s: Search, queue: set<PhysPort>, u: PhysPort)
    requires Inv(g, w, src, s, queue, None) && Ascending(s) && u in queue && u in s.dist
    requires forall v :: v in queue ==> v in s.dist && s.dist[u] <= s.dist[v]
    ensures Ascending(s.(popped := s.popped + [u]))
  {
    hide TreeOk, Expanded, Relaxed, ColorsOk, Targets, Edge;
    var s' := s.(popped := s.popped + [u]);
    forall x, v | Before(s'.popped, x, v) && x in s'.dist && v in s'.dist
      ensures s'.dist[x] <= s'.dist[v]
    {
      if x != u {
        BeforePrefix(s.popped, u, x, v);
      } else {
        NotAfterLast(s.popped, u, v);
      }
    }
  }

  lemma NotAfterLast(popped: seq<PhysPort>, u: PhysPort, v: PhysPort)
    requires u !in popped && Before(popped + [u], u, v)
    ensures v !in popped
  {
    var p := popped + [u];
    forall k | 0 <= k < |popped|
      ensures popped[k] != v
    {
      assert p[k] == popped[k] && p[..k] == popped[..k];
    }
  }

  lemma ReachedAscending(g: Graph, w: Weights, src: PhysPort, s: Search, queue: set<PhysPort>, u: PhysPort, v: PhysPort,
                         isWhite: bool)
    requires WeightsOk(g, w) && Inv(g, w, src, s, queue, Some(u)) && Ascending(s) && u in s.dist && v !in s.popped
    ensures Ascending(Reached(g, w, s, u, v, isWhite))
  {
    WeightNonNegative(g, w, u, v);
    hide TreeOk, Expanded, Relaxed, ColorsOk, Targets, WeightsOk, Weight;
    var s' := Reached(g, w, s, u, v, isWhite);
    forall x, y | Before(s'.popped, x, y) && x in s'.dist && y in s'.dist
      ensures s'.dist[x] <= s'.dist[y]
    {
      if x != u && y == v {
        BeforeLast(s.popped, x, u);
        assert s.dist[x] <= s.dist[u];
      }
    }
  }

  lemma BeforeLast(popped: seq<PhysPort>, x: PhysPort, u: PhysPort)
    requires NoDup(popped) && LastIs(popped, u) && x in popped && x != u
    ensures Before(popped, x, u)
  {
    var n := |popped| - 1;
    var i :| 0 <= i < |popped| && popped[i] == x;
    assert popped[..n][i] == x;
  }

  /** All channels weigh the same. */
  ghost predicate Uniform(g: Graph, w: Weights)
  {
    forall u, v, x, y :: Edge(g, u, v) && Edge(g, x, y) ==> Weight(g, w, u, v) == Weight(g, w, x, y)
  }

  /** With equal weights and vertices popped in order, the first way to a vertex is a shortest one. */
  lemma FirstWayStands(g: Graph, w: Weights, src: PhysPort, s: Search, queue: set<PhysPort>, u: PhysPort, v: PhysPort)
    requires Inv(g, w, src, s, queue, Some(u)) && Ascending(s) && Uniform(g, w) && Edge(g, u, v)
    requires u in s.dist && v in s.dist && v in s.preds
    ensures s.dist[v] <= s.dist[u] + Weight(g, w, u, v)
  {
    hide Expanded, Relaxed, ColorsOk, Targets, Weight, Edge;
    assert PredOk(g, w, s, v);
    var x := s.preds[v];
    assert Weight(g, w, x, v) == Weight(g, w, u, v);
    hide Uniform, TreeOk;
    if x != u {
      BeforeLast(s.popped, x, u);
    }
  }

  /** The heap is in order for the distances. */
  ghost predicate HeapOrdered(q: seq<PhysPort>, dist: map<PhysPort, real>, d: nat)
  {
    d >= 2 && DAryHeap.KeysFor(q, dist) && DAryHeap.Ordered(q, dist, d)
  }

  lemma SameKeysOrdered(q: seq<PhysPort>, dist: map<PhysPort, real>, d: nat, v: PhysPort, r: real)
    requires HeapOrdered(q, dist, d) && v !in q
    ensures HeapOrdered(q, dist[v := r], d)
  {
    var after := dist[v := r];
    forall i | 0 <= i < |q|
      ensures q[i] in after && after[q[i]] == dist[q[i]]
    {
    }
    forall j | 1 <= j < |q|
      ensures DAryHeap.EdgeOk(q, after, d, j)
    {
      assert DAryHeap.EdgeOk(q, dist, d, j);
    }
  }

  lemma TopLeast(q: seq<PhysPort>, dist: map<PhysPort, real>, d: nat)
    requires HeapOrdered(q, dist, d) && q != []
    ensures forall v :: v in Members(q) ==> v in dist && dist[q[0]] <= dist[v]
  {
    forall v | v in Members(q)
      ensures v in dist && dist[q[0]] <= dist[v]
    {
      var j :| 0 <= j < |q| && q[j] == v;
      DAryHeap.TopMinimum(q, dist, d, j);
    }
  }

  /**
   * Terminates with the exact tree; every vertex is popped, hence queued, at most once. Unless some queued
   * vertex had its distance lowered, which leaves the heap stale, all paths are shortest; with equal
   * weights that does not happen.
   */
  method ShortestPaths(g: Graph, w: Weights, known: map<PhysPort, seq<PhysPort>>, src: PhysPort)
    returns (preds: map<PhysPort, PhysPort>, channels: map<PhysPort, seq<PhysPort>>, ghost s: Search,
      ghost stale: bool)
    requires GraphOk(g) && WeightsOk(g, w) && src.dir == SRC && ChannelsOk(g, known)
    ensures ChannelsOk(g, channels) && IsTree(g, w, src, s) && preds == s.preds
    ensures !stale ==> Shortest(g, w, src, s)
    ensures Uniform(g, w) ==> !stale
  {
    hide Edge, Weight, Targets, WeightsOk, GraphOk, IsTree, Inv, Ascending, HeapOrdered, Shortest, Uniform;
    var distance: map<PhysPort, real> := map[src := 0.0];
    var colors: map<PhysPort, Color> := map[];
    preds, channels := map[], known;
    var q := new DAryHeap.Heap<PhysPort>(4);
    q.Push(src, distance);
    s, stale := Start(src), false;
    StartOk(g, w, src);
    assert Members(q.data) == {src} by { PushedMembers([], q.data, src); }
    StartAscending(src, q.data);
    while q.data != []
      invariant q.Valid() && q.arity == 4 && fresh(q) && ChannelsOk(g, channels)
      invariant s == Search(s.popped, distance, preds, colors)
      invariant Inv(g, w, src, s, Members(q.data), None)
      invariant !stale ==> Ascending(s) && HeapOrdered(q.data, distance, 4)
      invariant Uniform(g, w) ==> !stale
      decreases Targets(g) + {src} - Members(s.popped)
    {
      InvQueue(g, w, src, s, q.data, None);
      NewlyPopped(g, w, src, s, q.data, q.data[0]);
      if !stale {
        PopInOrder(g, w, src, s, q.data);
      }
      PopOk(g, w, src, s, Members(q.data), q.data[0]);
      var u := PopTop(q, distance);
      s := s.(popped := s.popped + [u]);
      if u !in channels {
        var dests := ChannelsFrom(g, u);
        channels := channels[u := dests];
      }
      distance, preds, colors, s, stale :=
        Expand(g, w, src, channels[u], u, q, distance, preds, colors, s, stale);
    }
    assert Members(q.data) == {};
    SearchDone(g, w, src, s);
    if !stale {
      AscendingShortest(g, w, src, s);
    }
  }

  method PopTop(q: DAryHeap.Heap<PhysPort>, distance: map<PhysPort, real>) returns (u: PhysPort)
    requires q.Valid() && q.data != [] && DAryHeap.KeysFor(q.data, distance)
    modifies q
    ensures q.Valid() && u == old(q.data)[0] && Members(q.data) == Members(old(q.data)) - {u}
    ensures HeapOrdered(old(q.data), distance, q.arity) ==> HeapOrdered(q.data, distance, q.arity)
  {
    hide DAryHeap.Ordered;
    u := q.Top();
    ghost var before := q.data;
    q.Pop(distance);
    PoppedMembers(before, q.data);
  }

  lemma StartAscending(src: PhysPort, q: seq<PhysPort>)
    requires multiset(q) == multiset([]) + multiset{src}
    ensures Ascending(Start(src)) && HeapOrdered(q, map[src := 0.0], 4)
  {
    assert |multiset(q)| == 1;
    assert q[0] in multiset(q);
  }

  lemma PopInOrder(g: Graph, w: Weights, src: PhysPort, s: Search, q: seq<PhysPort>)
    requires Inv(g, w, src, s, Members(q), None) && Ascending(s) && HeapOrdered(q, s.dist, 4) && q != []
    ensures Ascending(s.(popped := s.popped + [q[0]]))
  {
    hide Inv, Ascending, HeapOrdered;
    TopLeast(q, s.dist, 4);
    assert q[0] in Members(q);
    PopAscending(g, w, src, s, Members(q), q[0]);
  }

  ghost function Members<T>(q: seq<T>): (r: set<T>)
  {
    set v | v in q
  }

  lemma PushedMembers<T>(before: seq<T>, after: seq<T>, v: T)
    requires multiset(after) == multiset(before) + multiset{v}
    ensures Members(after) == Members(before) + {v}
  {
    forall x
      ensures x in after <==> x in before || x == v
    {
      assert x in multiset(after) <==> x in multiset(before) || x == v;
    }
  }

  lemma PoppedMembers<T>(before: seq<T>, after: seq<T>)
    requires before != [] && NoDup(before) && multiset(after) == multiset(before) - multiset{before[0]}
    ensures Members(after) == Members(before) - {before[0]}
  {
    forall x
      ensures x in after <==> x in before && x != before[0]
    {
      NoDupCount(before, x);
      assert x in multiset(after) <==> x in after;
      assert x in multiset(before) <==> x in before;
    }
  }

  lemma InvQueue(g: Graph, w: Weights, src: PhysPort, s: Search, q: seq<PhysPort>, cur: Option<PhysPort>)
    requires Inv(g, w, src, s, Members(q), cur)
    ensures DAryHeap.KeysFor(q, s.dist) && (cur.Some? ==> cur.value in s.dist)
  {
    forall i | 0 <= i < |q|
      ensures q[i] in s.dist
    {
      assert q[i] in Members(q);
    }
  }

  lemma NewlyPopped(g: Graph, w: Weights, src: PhysPort, s: Search, q: seq<PhysPort>, u: PhysPort)
    requires Inv(g, w, src, s, Members(q), None) && u in q
    ensures u in Targets(g) + {src} - Members(s.popped)
  {
    assert u in Members(q);
  }

  /** Relaxing all channels out of `u`; a queued vertex whose distance is lowered leaves the heap stale. */
  method Expand(g: Graph, w: Weights, src: PhysPort, dests: seq<PhysPort>, u: PhysPort, q: DAryHeap.Heap<PhysPort>,
                distance0: map<PhysPort, real>, preds0: map<PhysPort, PhysPort>, colors0: map<PhysPort, Color>,
                ghost s0: Search, ghost stale0: bool)
    returns (distance: map<PhysPort, real>, preds: map<PhysPort, PhysPort>, colors: map<PhysPort, Color>,
      ghost s: Search, ghost stale: bool)
    requires GraphOk(g) && WeightsOk(g, w) && src.dir == SRC && forall v :: v in dests <==> Edge(g, u, v)
    requires q.Valid() && s0 == Search(s0.popped, distance0, preds0, colors0)
    requires Inv(g, w, src, s0, Members(q.data), Some(u))
    requires !stale0 ==> Ascending(s0) && HeapOrdered(q.data, distance0, q.arity)
    modifies q
    ensures q.Valid() && s == Search(s0.popped, distance, preds, colors) && Inv(g, w, src, s, Members(q.data), None)
    ensures !stale ==> !stale0 && Ascending(s) && HeapOrdered(q.data, distance, q.arity)
    ensures Uniform(g, w) && !stale0 ==> !stale
  {
    hide Inv, Edge, WeightsOk, GraphOk, Tried, Ascending, DAryHeap.Ordered, Uniform, Reached;
    distance, preds, colors, s, stale := distance0, preds0, colors0, s0, stale0;
    for k := 0 to |dests|
      invariant q.Valid() && s == Search(s0.popped, distance, preds, colors)
      invariant Inv(g, w, src, s, Members(q.data), Some(u))
      invariant forall j :: 0 <= j < k ==> Tried(g, w, s, u, dests[j])
      invariant !stale ==> !stale0 && Ascending(s) && HeapOrdered(q.data, distance, q.arity)
      invariant Uniform(g, w) && !stale0 ==> !stale
    {
      var dest := dests[k];
      assert dest in dests;
      InvQueue(g, w, src, s, q.data, Some(u));
      var reach := distance[u] + Weight(g, w, u, dest);
      var relax := dest !in distance || reach < distance[dest];
      if dest !in colors {
        DiscoverOk(g, w, src, s, Members(q.data), u, dest);
        if relax {
          AllTriedReached(g, w, s, u, dests, k, true);
          if !stale {
            ReachedAscending(g, w, src, s, Members(q.data), u, dest, true);
            SameKeysOrdered(q.data, distance, q.arity, dest, reach);
          }
          ReachedFields(g, w, s, u, dest, true);
          s := Reached(g, w, s, u, dest, true);
          distance := distance[dest := reach];
          preds := preds[dest := u];
          colors := colors[dest := GRAY];
        }
        ghost var before := q.data;
        q.Push(dest, distance);
        PushedMembers(before, q.data, dest);
      } else if colors[dest] == GRAY && relax {
        InvColored(g, w, src, s, Members(q.data), u, dest);
        RelaxOk(g, w, src, s, Members(q.data), u, dest);
        AllTriedReached(g, w, s, u, dests, k, false);
        if !stale && Uniform(g, w) {
          FirstWayStands(g, w, src, s, Members(q.data), u, dest);
        }
        stale := true;
        ReachedFields(g, w, s, u, dest, false);
        s := Reached(g, w, s, u, dest, false);
        distance := distance[dest := reach];
        preds := preds[dest := u];
      } else {
        InvColored(g, w, src, s, Members(q.data), u, dest);
        NotRelaxed(g, w, src, s, Members(q.data), u, dest);
      }
    }
    FinishOk(g, w, src, s, Members(q.data), u);
    AscendingColors(s, s.colors[u := BLACK]);
    colors := colors[u := BLACK];
    s := s.(colors := colors);
  }

  lemma ReachedFields(g: Graph, w: Weights, s: Search, u: PhysPort, v: PhysPort, isWhite: bool)
    requires u in s.dist
    ensures Reached(g, w, s, u, v, isWhite) ==
            Search(s.popped, s.dist[v := s.dist[u] + Weight(g, w, u, v)], s.preds[v := u],
                   if isWhite then s.colors[v := GRAY] else s.colors)
  {
  }

  lemma AscendingColors(s: Search, colors: map<PhysPort, Color>)
    ensures Ascending(s) ==> Ascending(s.(colors := colors))
  {
    hide Before;
  }

  lemma InvColored(g: Graph, w: Weights, src: PhysPort, s: Search, queue: set<PhysPort>, u: PhysPort, v: PhysPort)
    requires Inv(g, w, src, s, queue, Some(u)) && v in s.colors
    ensures v in s.dist
  {
    assert s.colors[v] == BLACK || s.colors[v] == GRAY;
  }

  /** The cache holds exactly the channels of each vertex in it. */
  ghost predicate ChannelsOk(g: Graph, channels: map<PhysPort, seq<PhysPort>>)
  {
    forall u, v :: u in channels ==> (v in channels[u] <==> Edge(g, u, v))
  }
}
