/** The planar layout of docs-site/components/ambient/graph.ts: growth and linking over any
    stream of random numbers. */
module Graph {
  import opened Common
  import opened Geometry

  const CLEARANCE: real := 19.0

  /** The clearances, squared. */
  const CLEAR2: real := CLEARANCE * CLEARANCE
  const NODE_CLEAR2: real := (CLEARANCE * 1.4) * (CLEARANCE * 1.4)

  const TRIES: nat := 14
  const MAX_FRONTIER: nat := 4
  const GENERATIONS: nat := 40
  const LINK_RATIO: real := 0.9

  datatype Node = Node(at: Point, parent: Option<nat>)

  /** An edge, by the indices of its nodes. */
  datatype Edge = Edge(start: nat, end: nat)

  /** What growth starts from. */
  function Roots(width: real, height: real): seq<Node>
  {
    var reach := Min(width, height) * 0.18;
    [Node(Point(width * 0.12, -(reach * 0.4)), None), Node(Point(width * 0.39, -(reach * 0.85)), None),
     Node(Point(width * 0.63, -(reach * 0.55)), None), Node(Point(width * 0.89, -(reach * 0.7)), None)]
  }

  // ---------------------------------------------------------------------
  // Planarity
  // ---------------------------------------------------------------------

  predicate Touches(e: Edge, n: nat)
  {
    e.start == n || e.end == n
  }

  predicate Shares(e: Edge, f: Edge)
  {
    Touches(f, e.start) || Touches(f, e.end)
  }

  predicate SameEnds(e: Edge, f: Edge)
  {
    (e.start == f.start && e.end == f.end) || (e.start == f.end && e.end == f.start)
  }

  predicate On(nodes: seq<Node>, e: Edge)
  {
    e.start < |nodes| && e.end < |nodes| && e.start != e.end
  }

  /** Two edges either join at a node, and are not one edge twice, or keep their distance at
      every pair of their points. */
  ghost predicate PairOk(nodes: seq<Node>, older: Edge, newer: Edge)
    requires On(nodes, older) && On(nodes, newer)
  {
    if Shares(older, newer) then !SameEnds(older, newer)
    else Apart(nodes[newer.start].at, nodes[newer.end].at, nodes[older.start].at, nodes[older.end].at, CLEAR2)
  }

  ghost predicate Planar(nodes: seq<Node>, edges: seq<Edge>)
  {
    && (forall k | 0 <= k < |edges| :: On(nodes, edges[k]))
    && forall j, k | 0 <= j < k < |edges| :: PairOk(nodes, edges[j], edges[k])
  }

  /** The code's test of a candidate edge `a`-`b` against an edge it does not join. */
  predicate Passes(nodes: seq<Node>, e: Edge, a: Point, b: Point)
    requires On(nodes, e)
  {
    && Intersection(a, b, nodes[e.start].at, nodes[e.end].at) == None
    && SegmentDistance2(a, b, nodes[e.start].at, nodes[e.end].at) >= CLEAR2
  }

  lemma {:induction false} MoreNodes(nodes: seq<Node>, edges: seq<Edge>, node: Node)
    requires Planar(nodes, edges)
    ensures Planar(nodes + [node], edges)
  {
    hide Apart;
    var more := nodes + [node];
    forall j, k | 0 <= j < k < |edges|
      ensures PairOk(more, edges[j], edges[k])
    {
      assert PairOk(nodes, edges[j], edges[k]);
    }
  }

  lemma {:induction false} MoreEdges(nodes: seq<Node>, edges: seq<Edge>, e: Edge)
    requires Planar(nodes, edges) && On(nodes, e)
    requires forall k | 0 <= k < |edges| :: On(nodes, edges[k]) && PairOk(nodes, edges[k], e)
    ensures Planar(nodes, edges + [e])
  {
    hide PairOk;
  }

  /** An edge that passed the test against every edge it does not join keeps the graph planar. */
  lemma {:induction false} TestedEdgeFits(nodes: seq<Node>, edges: seq<Edge>, e: Edge)
    requires Planar(nodes, edges) && On(nodes, e)
    requires forall k | 0 <= k < |edges| :: On(nodes, edges[k]) &&
               if Shares(edges[k], e) then !SameEnds(edges[k], e)
               else Passes(nodes, edges[k], nodes[e.start].at, nodes[e.end].at)
    ensures Planar(nodes, edges + [e])
  {
    hide Apart, Intersection, SegmentDistance2;
    forall k | 0 <= k < |edges|
      ensures PairOk(nodes, edges[k], e)
    {
      if !Shares(edges[k], e) {
        TestsKeepApart(nodes[e.start].at, nodes[e.end].at, nodes[edges[k].start].at, nodes[edges[k].end].at, CLEAR2);
      }
    }
    MoreEdges(nodes, edges, e);
  }

  /** In a planar graph edges never properly cross, and those that share no node share no point
      either, nor come within the clearance. */
  lemma {:induction false} PlanarEdgesNeverCross(nodes: seq<Node>, edges: seq<Edge>, j: nat, k: nat)
    requires Planar(nodes, edges) && j < k < |edges|
    ensures On(nodes, edges[j]) && On(nodes, edges[k])
    ensures Intersection(nodes[edges[j].start].at, nodes[edges[j].end].at,
                         nodes[edges[k].start].at, nodes[edges[k].end].at) == None
    ensures !SameEnds(edges[j], edges[k])
    ensures !Shares(edges[j], edges[k]) ==>
              forall s: real, t: real | 0.0 <= s <= 1.0 && 0.0 <= t <= 1.0 ::
                Dist2(Along(nodes[edges[k].start].at, nodes[edges[k].end].at, s),
                      Along(nodes[edges[j].start].at, nodes[edges[j].end].at, t)) >= 19.0 * 19.0
  {
    var e, f := edges[j], edges[k];
    var a, b, c, d := nodes[e.start].at, nodes[e.end].at, nodes[f.start].at, nodes[f.end].at;
    assert PairOk(nodes, e, f);
    if Shares(e, f) {
      SharedEndsNeverCross(a, b, c, d);
    } else {
      ApartNeverCross(c, d, a, b, CLEAR2);
    }
  }

  lemma {:induction false} ApartNeverCross(c: Point, d: Point, a: Point, b: Point, k: real)
    requires Apart(c, d, a, b, k) && k > 0.0
    ensures Intersection(a, b, c, d) == None
  {
    hide Turn, Dist2, Along, Intersection;
    IntersectionIsExact(a, b, c, d);
    if ProperlyCross(a, b, c, d) {
      var s: real, t: real :| 0.0 < s < 1.0 && 0.0 < t < 1.0 && Along(a, b, s) == Along(c, d, t);
      ApartAt(c, d, a, b, k, t, s);
      LengthSign(Along(c, d, t), Along(a, b, s));
    }
  }

  lemma {:induction false} ApartAt(c: Point, d: Point, a: Point, b: Point, k: real, t: real, s: real)
    requires Apart(c, d, a, b, k) && 0.0 <= s <= 1.0 && 0.0 <= t <= 1.0
    ensures Dist2(Along(c, d, t), Along(a, b, s)) >= k
  {
  }

  // ---------------------------------------------------------------------
  // Nodes keep their distance too
  // ---------------------------------------------------------------------

  /** No point of the edge is nearer than the clearance to the point. */
  ghost predicate FarFrom(nodes: seq<Node>, e: Edge, p: Point)
    requires On(nodes, e)
  {
    PointToSegment2(p, nodes[e.start].at, nodes[e.end].at) >= CLEAR2
  }

  /** A root that nothing grew from. */
  predicate Bare(nodes: seq<Node>, edges: seq<Edge>, n: nat)
    requires n < |nodes|
  {
    nodes[n].parent == None && forall k | 0 <= k < |edges| :: !Touches(edges[k], n)
  }

  /** Edge `e` keeps the clearance from node `n`. */
  ghost predicate ClearOf(nodes: seq<Node>, e: Edge, n: nat)
    requires On(nodes, e) && n < |nodes|
  {
    Touches(e, n) || FarFrom(nodes, e, nodes[n].at)
  }

  /** Every edge keeps the clearance from every node it does not join, the exempt aside. */
  ghost predicate NodesClear(nodes: seq<Node>, edges: seq<Edge>, exempt: set<nat>)
  {
    && (forall k | 0 <= k < |edges| :: On(nodes, edges[k]))
    && forall k, n {:trigger ClearOf(nodes, edges[k], n)} | 0 <= k < |edges| && 0 <= n < |nodes| && n !in exempt ::
         ClearOf(nodes, edges[k], n)
  }

  function BareRoots(nodes: seq<Node>, edges: seq<Edge>): set<nat>
  {
    set n | 0 <= n < |nodes| && Bare(nodes, edges, n)
  }

  /** How edges grow: down by at least the clearance, and sideways by as much. */
  ghost predicate Grown(nodes: seq<Node>, e: Edge)
    requires On(nodes, e)
  {
    var a, b := nodes[e.start].at, nodes[e.end].at;
    && nodes[e.end].parent == Some(e.start)
    && b.y - a.y >= CLEARANCE && (b.x - a.x >= CLEARANCE || a.x - b.x >= CLEARANCE)
  }

  /** Growth leaves a tree of grown edges: whatever is not a root hangs from its parent. */
  ghost predicate GrownTree(nodes: seq<Node>, edges: seq<Edge>)
  {
    && (forall k | 0 <= k < |edges| :: On(nodes, edges[k]) && Grown(nodes, edges[k]))
    && forall n | 0 <= n < |nodes| && nodes[n].parent.Some? ::
         exists k | 0 <= k < |edges| :: edges[k] == Edge(nodes[n].parent.value, n)
  }

  /** Nothing has grown from `p` on the side `dir`. */
  predicate Free(nodes: seq<Node>, edges: seq<Edge>, p: nat, dir: int)
    requires p < |nodes|
  {
    forall k | 0 <= k < |edges| && On(nodes, edges[k]) && edges[k].start == p ::
      if dir > 0 then nodes[edges[k].end].at.x <= nodes[p].at.x else nodes[edges[k].end].at.x >= nodes[p].at.x
  }

  lemma {:induction false} AlongBetween(a: real, b: real, s: real, bound: real, q: real)
    requires 0.0 <= s <= 1.0 && OnLine(q, a, b, s)
    ensures a <= bound && b <= bound ==> q <= bound
    ensures a >= bound && b >= bound ==> q >= bound
  {
    if a <= bound && b <= bound {
      NonNegativeProduct(1.0 - s, bound - a);
      NonNegativeProduct(s, bound - b);
      assert bound - q == (1.0 - s) * (bound - a) + s * (bound - b);
    }
    if a >= bound && b >= bound {
      NonNegativeProduct(1.0 - s, a - bound);
      NonNegativeProduct(s, b - bound);
      assert q - bound == (1.0 - s) * (a - bound) + s * (b - bound);
    }
  }

  lemma {:induction false} FarInOne(x: real)
    requires x >= CLEARANCE || x <= -CLEARANCE
    ensures Square(x) >= CLEAR2
  {
    if x >= CLEARANCE {
      NonNegativeProduct(x - CLEARANCE, x + CLEARANCE);
      assert (x - CLEARANCE) * (x + CLEARANCE) == x * x - CLEARANCE * CLEARANCE;
    } else {
      NonNegativeProduct(-x - CLEARANCE, -x + CLEARANCE);
      assert (-x - CLEARANCE) * (-x + CLEARANCE) == x * x - CLEARANCE * CLEARANCE;
    }
  }

  /** A point beyond a line by the clearance, with the whole segment on the other side of it. */
  lemma {:induction false} BeyondIsFar(p: Point, a: Point, b: Point, bound: real)
    requires || (p.x >= bound + CLEARANCE && a.x <= bound && b.x <= bound)
             || (p.x <= bound - CLEARANCE && a.x >= bound && b.x >= bound)
             || (p.y >= bound + CLEARANCE && a.y <= bound && b.y <= bound)
             || (p.y <= bound - CLEARANCE && a.y >= bound && b.y >= bound)
    ensures PointToSegment2(p, a, b) >= CLEAR2
  {
    hide Square, NearestAt, Along, OnLine;
    var t := NearestAt(p, a, b);
    var q := Along(a, b, t);
    AlongIs(a, b, t);
    AlongBetween(a.x, b.x, t, bound, q.x);
    AlongBetween(a.y, b.y, t, bound, q.y);
    SquareSign(p.x - q.x);
    SquareSign(p.y - q.y);
    if p.x - q.x >= CLEARANCE || p.x - q.x <= -CLEARANCE {
      FarInOne(p.x - q.x);
    } else {
      FarInOne(p.y - q.y);
    }
  }

  /** A grown candidate: the point `c` below `p` on the side `dir`. */
  ghost predicate Offset(p: Point, c: Point, dir: int)
  {
    && c.y - p.y >= CLEARANCE
    && (if dir > 0 then c.x - p.x >= CLEARANCE else p.x - c.x >= CLEARANCE)
  }

  lemma {:induction false} PassingIsFar(nodes: seq<Node>, e: Edge, a: Point, b: Point)
    requires On(nodes, e) && Passes(nodes, e, a, b)
    ensures FarFrom(nodes, e, a) && FarFrom(nodes, e, b)
    ensures PointToSegment2(nodes[e.start].at, a, b) >= CLEAR2 && PointToSegment2(nodes[e.end].at, a, b) >= CLEAR2
  {
    hide Intersection, PointToSegment2, SegmentDistance2;
    LeastOfFour(a, b, nodes[e.start].at, nodes[e.end].at);
  }

  /** The candidate against an edge that is already there. */
  lemma {:induction false} CandidateIsFar(nodes: seq<Node>, edges: seq<Edge>, p: nat, c: Point, dir: int, k: nat)
    requires GrownTree(nodes, edges) && p < |nodes| && Free(nodes, edges, p, dir) && Offset(nodes[p].at, c, dir)
    requires k < |edges| && On(nodes, edges[k])
    requires !Touches(edges[k], p) ==> Passes(nodes, edges[k], nodes[p].at, c)
    ensures FarFrom(nodes, edges[k], c)
  {
    hide PointToSegment2, Passes;
    var e, at := edges[k], nodes[p].at;
    assert Grown(nodes, e);
    if !Touches(e, p) {
      PassingIsFar(nodes, e, at, c);
    } else if e.end == p {
      BeyondIsFar(c, nodes[e.start].at, at, at.y);
    } else {
      BeyondIsFar(c, at, nodes[e.end].at, at.x);
    }
  }

  /** A node that something joins, against the candidate edge. */
  lemma {:induction false} JoinedNodeIsFar(nodes: seq<Node>, edges: seq<Edge>, p: nat, c: Point, dir: int, k: nat,
                                           n: nat)
    requires GrownTree(nodes, edges) && p < |nodes| && Free(nodes, edges, p, dir) && Offset(nodes[p].at, c, dir)
    requires k < |edges| && On(nodes, edges[k]) && Touches(edges[k], n) && n != p && n < |nodes|
    requires !Touches(edges[k], p) ==> Passes(nodes, edges[k], nodes[p].at, c)
    ensures PointToSegment2(nodes[n].at, nodes[p].at, c) >= CLEAR2
  {
    hide PointToSegment2, Passes;
    var e, at := edges[k], nodes[p].at;
    assert Grown(nodes, e);
    if !Touches(e, p) {
      PassingIsFar(nodes, e, at, c);
    } else if e.end == p {
      BeyondIsFar(nodes[n].at, at, c, at.y);
    } else {
      BeyondIsFar(nodes[n].at, at, c, at.x);
    }
  }

  /** A node that is no bare root is joined by something. */
  lemma {:induction false} Joined(nodes: seq<Node>, edges: seq<Edge>, n: nat) returns (k: nat)
    requires GrownTree(nodes, edges) && n < |nodes| && !Bare(nodes, edges, n)
    ensures k < |edges| && Touches(edges[k], n) && On(nodes, edges[k])
  {
    if nodes[n].parent.Some? {
      k :| 0 <= k < |edges| && edges[k] == Edge(nodes[n].parent.value, n);
    } else {
      k :| 0 <= k < |edges| && Touches(edges[k], n);
    }
  }

  /** The old edges, and the old nodes, after a growth. */
  lemma {:induction false} OldEdgesStayClear(nodes: seq<Node>, edges: seq<Edge>, p: nat, c: Point, dir: int, k: nat,
                                             n: nat)
    requires GrownTree(nodes, edges) && NodesClear(nodes, edges, BareRoots(nodes, edges))
    requires p < |nodes| && Free(nodes, edges, p, dir) && Offset(nodes[p].at, c, dir)
    requires k < |edges| && n <= |nodes| && (n < |nodes| && Bare(nodes, edges, n) ==> n == p)
    requires On(nodes, edges[k]) && (!Touches(edges[k], p) ==> Passes(nodes, edges[k], nodes[p].at, c))
    ensures ClearOf(nodes + [Node(c, Some(p))], edges[k], n)
  {
    hide Passes, Offset, Free, Grown;
    if n == |nodes| {
      CandidateIsFar(nodes, edges, p, c, dir, k);
    } else if Bare(nodes, edges, n) {
      PassingIsFar(nodes, edges[k], nodes[p].at, c);
    } else {
      assert n !in BareRoots(nodes, edges);
      assert ClearOf(nodes, edges[k], n);
    }
  }

  lemma {:induction false} GrowthKeepsClear(nodes: seq<Node>, edges: seq<Edge>, p: nat, c: Point, dir: int)
    requires GrownTree(nodes, edges) && NodesClear(nodes, edges, BareRoots(nodes, edges))
    requires p < |nodes| && Free(nodes, edges, p, dir) && Offset(nodes[p].at, c, dir)
    requires forall k | 0 <= k < |edges| && !Touches(edges[k], p) ::
               On(nodes, edges[k]) && Passes(nodes, edges[k], nodes[p].at, c)
    ensures var more, grown := nodes + [Node(c, Some(p))], edges + [Edge(p, |nodes|)];
            NodesClear(more, grown, BareRoots(more, grown))
  {
    var more, grown := nodes + [Node(c, Some(p))], edges + [Edge(p, |nodes|)];
    forall k, n | 0 <= k < |grown| && 0 <= n < |more| && n !in BareRoots(more, grown)
      ensures On(more, grown[k]) && ClearOf(more, grown[k], n)
    {
      StillBare(nodes, edges, p, c, n);
      hide Passes, Offset, Free, Bare, Grown, BareRoots;
      if k < |edges| {
        assert On(nodes, edges[k]);
        OldEdgesStayClear(nodes, edges, p, c, dir, k, n);
      } else if n != p && n < |nodes| {
        var j := Joined(nodes, edges, n);
        JoinedNodeIsFar(nodes, edges, p, c, dir, j, n);
      }
    }
  }

  lemma {:induction false} StillBare(nodes: seq<Node>, edges: seq<Edge>, p: nat, c: Point, n: nat)
    requires p < |nodes| && n <= |nodes| && n !in BareRoots(nodes + [Node(c, Some(p))], edges + [Edge(p, |nodes|)])
    ensures n < |nodes| && n != p ==> !Bare(nodes, edges, n)
  {
    var more, grown := nodes + [Node(c, Some(p))], edges + [Edge(p, |nodes|)];
    if n < |nodes| && n != p && Bare(nodes, edges, n) {
      assert forall k | 0 <= k < |grown| :: !Touches(grown[k], n);
      assert Bare(more, grown, n);
    }
  }

  lemma {:induction false} GrowthKeepsTree(nodes: seq<Node>, edges: seq<Edge>, p: nat, c: Point, dir: int)
    requires GrownTree(nodes, edges) && p < |nodes| && Offset(nodes[p].at, c, dir)
    ensures GrownTree(nodes + [Node(c, Some(p))], edges + [Edge(p, |nodes|)])
  {
    var more, grown := nodes + [Node(c, Some(p))], edges + [Edge(p, |nodes|)];
    forall k | 0 <= k < |grown|
      ensures On(more, grown[k]) && Grown(more, grown[k])
    {
      assert k < |edges| ==> On(nodes, edges[k]) && Grown(nodes, edges[k]);
    }
    forall n | 0 <= n < |more| && more[n].parent.Some?
      ensures exists k | 0 <= k < |grown| :: grown[k] == Edge(more[n].parent.value, n)
    {
      if n < |nodes| {
        var k :| 0 <= k < |edges| && edges[k] == Edge(nodes[n].parent.value, n);
        assert grown[k] == edges[k];
      } else {
        assert grown[|edges|] == Edge(p, n);
      }
    }
  }

  // ---------------------------------------------------------------------
  // Edges that share a node
  // ---------------------------------------------------------------------

  /** Two segments from one point, neither reaching the other's far end, part at once. */
  lemma {:induction false} PartAtOnce(p: Point, x: Point, y: Point, s: real, t: real)
    requires 0.0 <= s <= 1.0 && 0.0 <= t <= 1.0 && Along(p, x, s) == Along(p, y, t)
    requires PointToSegment2(x, p, y) > 0.0 && PointToSegment2(y, p, x) > 0.0
    ensures Along(p, x, s) == p
  {
    hide PointToSegment2, Dist2;
    if s == 0.0 || t == 0.0 {
      AlongEnds(p, x);
      AlongEnds(p, y);
    } else if t <= s {
      Overlap(p, x, y, s, t);
    } else {
      Overlap(p, y, x, t, s);
    }
  }

  /** If they did not part, the nearer end would lie on the other segment. */
  lemma {:induction false} Overlap(p: Point, x: Point, y: Point, s: real, t: real)
    requires 0.0 < t <= s <= 1.0 && Along(p, x, s) == Along(p, y, t)
    ensures PointToSegment2(x, p, y) <= 0.0
  {
    var r := Fraction(t, s);
    OverlapIn(p.x, x.x, y.x, s, t, r);
    OverlapIn(p.y, x.y, y.y, s, t, r);
    assert Along(p, y, r) == x;
    hide Along, PointToSegment2, Dist2;
    NearestIsNearest(x, p, y, r);
    LengthSign(x, x);
  }

  lemma {:induction false} OverlapIn(p: real, x: real, y: real, s: real, t: real, r: real)
    requires s > 0.0 && r * s == t && p + s * (x - p) == p + t * (y - p)
    ensures p + r * (y - p) == x
  {
    var u, v := x - p, y - p;
    assert s * (r * v) == (r * s) * v;
    Cancel(s, r * v, u);
  }

  /** The end of the edge that is not `n`. */
  function Other(e: Edge, n: nat): nat
  {
    if e.start == n then e.end else e.start
  }

  lemma {:induction false} FarEitherWay(nodes: seq<Node>, e: Edge, n: nat, q: nat)
    requires On(nodes, e) && Touches(e, n) && q < |nodes| && ClearOf(nodes, e, q) && !Touches(e, q)
    ensures n < |nodes| && PointToSegment2(nodes[q].at, nodes[n].at, nodes[Other(e, n)].at) >= CLEAR2
  {
    hide PointToSegment2;
    NearestReversed(nodes[q].at, nodes[e.start].at, nodes[e.end].at);
  }

  /** Where the clearance holds at both far ends, two edges that join at a node share no other
      point: every meeting of two lines is a node they both join. */
  lemma {:induction false} EdgesMeetOnlyAtNodes(nodes: seq<Node>, edges: seq<Edge>, exempt: set<nat>, j: nat, k: nat,
                                                n: nat, s: real, t: real)
    requires Planar(nodes, edges) && NodesClear(nodes, edges, exempt) && j < k < |edges|
    requires Touches(edges[j], n) && Touches(edges[k], n)
    requires Other(edges[j], n) !in exempt && Other(edges[k], n) !in exempt
    requires 0.0 <= s <= 1.0 && 0.0 <= t <= 1.0
    ensures n < |nodes| && Other(edges[j], n) < |nodes| && Other(edges[k], n) < |nodes|
    ensures var p, x, y := nodes[n].at, nodes[Other(edges[j], n)].at, nodes[Other(edges[k], n)].at;
            Along(p, x, s) == Along(p, y, t) ==> Along(p, x, s) == p
  {
    hide Along, PointToSegment2, Apart;
    var e, f := edges[j], edges[k];
    assert On(nodes, e) && On(nodes, f) && PairOk(nodes, e, f);
    assert ClearOf(nodes, e, Other(f, n)) && ClearOf(nodes, f, Other(e, n));
    var p, x, y := nodes[n].at, nodes[Other(e, n)].at, nodes[Other(f, n)].at;
    FarEitherWay(nodes, e, n, Other(f, n));
    FarEitherWay(nodes, f, n, Other(e, n));
    if Along(p, x, s) == Along(p, y, t) {
      PartAtOnce(p, x, y, s, t);
    }
  }

  // ---------------------------------------------------------------------
  // What growth does not compare
  // ---------------------------------------------------------------------

  /** The new edge stays clear of every root that nothing has grown from: the one comparison
      growth does not make. */
  ghost predicate PassesBareRoots(nodes: seq<Node>, edges: seq<Edge>, p: nat, c: Point)
    requires p < |nodes|
  {
    forall n | 0 <= n < |nodes| && n != p && Bare(nodes, edges, n) ::
      PointToSegment2(nodes[n].at, nodes[p].at, c) >= CLEAR2
  }

  /** Growth keeps every edge clear of every node it does not join if and only if the new edge
      stays clear of every root that nothing has grown from. */
  lemma {:induction false} GrowthKeepsAllClearExactlyWhen(nodes: seq<Node>, edges: seq<Edge>, p: nat, c: Point,
                                                          dir: int)
    requires GrownTree(nodes, edges) && NodesClear(nodes, edges, {})
    requires p < |nodes| && Free(nodes, edges, p, dir) && Offset(nodes[p].at, c, dir)
    requires forall k | 0 <= k < |edges| && !Touches(edges[k], p) ::
               On(nodes, edges[k]) && Passes(nodes, edges[k], nodes[p].at, c)
    ensures NodesClear(nodes + [Node(c, Some(p))], edges + [Edge(p, |nodes|)], {}) <==>
            PassesBareRoots(nodes, edges, p, c)
  {
    var more, grown := nodes + [Node(c, Some(p))], edges + [Edge(p, |nodes|)];
    FewerExempt(nodes, edges);
    GrowthKeepsClear(nodes, edges, p, c, dir);
    hide Passes, Offset, Free, Bare, Grown, GrownTree, PointToSegment2;
    if PassesBareRoots(nodes, edges, p, c) {
      forall k | 0 <= k < |grown|
        ensures On(more, grown[k])
      {
        EdgesAreOn(nodes, edges, p, c, k);
      }
      forall k, n | 0 <= k < |grown| && 0 <= n < |more|
        ensures ClearOf(more, grown[k], n)
      {
        BareStays(nodes, edges, p, c, n);
        if n in BareRoots(more, grown) {
          OldNodesStayClear(nodes, edges, p, c, k, n);
        }
      }
    }
    if NodesClear(more, grown, {}) {
      NewEdgeIsLast(nodes, edges, p, c);
    }
  }

  /** The nodes that were there, after a growth that passes the bare roots. */
  lemma {:induction false} OldNodesStayClear(nodes: seq<Node>, edges: seq<Edge>, p: nat, c: Point, k: nat, n: nat)
    requires GrownTree(nodes, edges) && NodesClear(nodes, edges, {})
    requires p < |nodes| && PassesBareRoots(nodes, edges, p, c)
    requires k <= |edges| && n < |nodes| && n != p && Bare(nodes, edges, n)
    ensures On(nodes + [Node(c, Some(p))], (edges + [Edge(p, |nodes|)])[k])
    ensures ClearOf(nodes + [Node(c, Some(p))], (edges + [Edge(p, |nodes|)])[k], n)
  {
    EdgesAreOn(nodes, edges, p, c, k);
    hide PointToSegment2, GrownTree, Bare;
    if k < |edges| {
      assert ClearOf(nodes, edges[k], n);
    }
  }

  lemma {:induction false} NewEdgeIsLast(nodes: seq<Node>, edges: seq<Edge>, p: nat, c: Point)
    requires p < |nodes| && NodesClear(nodes + [Node(c, Some(p))], edges + [Edge(p, |nodes|)], {})
    ensures PassesBareRoots(nodes, edges, p, c)
  {
    hide PointToSegment2, Bare;
    var more, grown := nodes + [Node(c, Some(p))], edges + [Edge(p, |nodes|)];
    forall n | 0 <= n < |nodes| && n != p
      ensures PointToSegment2(nodes[n].at, nodes[p].at, c) >= CLEAR2
    {
      assert grown[|edges|] == Edge(p, |nodes|);
      assert ClearOf(more, grown[|edges|], n);
    }
  }

  lemma {:induction false} FewerExempt(nodes: seq<Node>, edges: seq<Edge>)
    requires NodesClear(nodes, edges, {})
    ensures NodesClear(nodes, edges, BareRoots(nodes, edges))
  {
    hide BareRoots;
    forall k, n | 0 <= k < |edges| && 0 <= n < |nodes|
      ensures On(nodes, edges[k]) && ClearOf(nodes, edges[k], n)
    {
      assert n !in {};
    }
  }

  lemma {:induction false} EdgesAreOn(nodes: seq<Node>, edges: seq<Edge>, p: nat, c: Point, k: nat)
    requires GrownTree(nodes, edges) && p < |nodes| && k <= |edges|
    ensures k < |edges| ==> On(nodes, edges[k])
    ensures On(nodes + [Node(c, Some(p))], (edges + [Edge(p, |nodes|)])[k])
  {
  }

  lemma {:induction false} BareStays(nodes: seq<Node>, edges: seq<Edge>, p: nat, c: Point, n: nat)
    requires p < |nodes| && n <= |nodes|
    ensures n in BareRoots(nodes + [Node(c, Some(p))], edges + [Edge(p, |nodes|)]) ==>
              n < |nodes| && n != p && Bare(nodes, edges, n)
  {
    var more, grown := nodes + [Node(c, Some(p))], edges + [Edge(p, |nodes|)];
    if n in BareRoots(more, grown) {
      assert grown[|edges|] == Edge(p, |nodes|);
      assert forall k | 0 <= k < |edges| :: grown[k] == edges[k];
    }
  }

  /** An end for an edge from the second root of a page 300 wide and high. */
  function CrowdingEnd(): Point
  {
    Point(225.3, 8.1)
  }

  lemma {:induction false} RootsHere()
    ensures Roots(300.0, 300.0) == [Node(Point(36.0, -21.6), None), Node(Point(117.0, -45.9), None),
                                    Node(Point(189.0, -29.7), None), Node(Point(267.0, -37.8), None)]
  {
  }

  lemma {:induction false} RunsPastTheThird()
    ensures PointToSegment2(Point(189.0, -29.7), Point(117.0, -45.9), CrowdingEnd()) < CLEAR2
  {
    var p, c, q := Point(117.0, -45.9), CrowdingEnd(), Point(189.0, -29.7);
    assert Along(p, c, 0.6) == Point(181.98, -13.5);
    assert Dist2(q, Point(181.98, -13.5)) < CLEAR2;
    NearestIsNearest(q, p, c, 0.6);
  }

  lemma {:induction false} CrowdingEndIsAway()
    ensures 120.0 * 120.0 <= Dist2(CrowdingEnd(), Point(117.0, -45.9)) <= 210.0 * 210.0
    ensures forall k | 0 <= k < 4 && k != 1 :: Dist2(Roots(300.0, 300.0)[k].at, CrowdingEnd()) >= NODE_CLEAR2
  {
    var c := CrowdingEnd();
    RootsHere();
    assert Dist2(c, Point(117.0, -45.9)) == 108.3 * 108.3 + 54.0 * 54.0;
    assert Dist2(Point(36.0, -21.6), c) == 189.3 * 189.3 + 29.7 * 29.7;
    assert Dist2(Point(189.0, -29.7), c) == 36.3 * 36.3 + 37.8 * 37.8;
    assert Dist2(Point(267.0, -37.8), c) == 41.7 * 41.7 + 45.9 * 45.9;
  }

  /** And that comparison can fail. From the second root, while there is no edge yet, growth may
      draw an edge that leans between 24 and 64 degrees off the vertical (their tangents are less
      than 0.446 and more than 2.05), is of a length it draws, ends in bounds and clear of every
      node, and yet runs within the clearance of the third root. */
  lemma {:induction false} ABareRootCanBeCrowded()
    ensures var roots, c := Roots(300.0, 300.0), CrowdingEnd();
            var p := roots[1].at;
            && |roots| == 4 && 0.446 * (c.y - p.y) <= c.x - p.x <= 2.05 * (c.y - p.y)
            && 120.0 * 120.0 <= Dist2(c, p) <= 210.0 * 210.0
            && 300.0 * 0.03 <= c.x <= 300.0 * 0.97 && c.y <= 300.0 - 20.0
            && (forall k | 0 <= k < 4 && k != 1 :: Dist2(roots[k].at, c) >= NODE_CLEAR2)
            && Offset(p, c, 1) && GrownTree(roots, []) && NodesClear(roots, [], {}) && Free(roots, [], 1, 1)
            && !PassesBareRoots(roots, [], 1, c)
            && !NodesClear(roots + [Node(c, Some(1))], [Edge(1, 4)], {})
  {
    var roots, c := Roots(300.0, 300.0), CrowdingEnd();
    RootsHere();
    RunsPastTheThird();
    CrowdingEndIsAway();
    hide PointToSegment2, Dist2;
    assert Bare(roots, [], 2);
    assert [] + [Edge(1, |roots|)] == [Edge(1, 4)];
    GrowthKeepsAllClearExactlyWhen(roots, [], 1, c, 1);
  }
}
