/** `buildGraph` of docs-site/components/ambient/graph.ts: the nodes and edges it pushes, one
    random number after another. */
module GraphBuilder {
  import opened Common
  import opened Geometry
  import opened Graph
  import opened Growth

  class Builder {
    const page: Page
    var nodes: seq<Node>
    var segments: seq<Edge>
    var drawn: nat

    ghost function View(): Layout
      reads this
    {
      Layout(nodes, segments, drawn)
    }

    ghost predicate Valid()
      reads this
    {
      page.Valid() && Planar(nodes, segments)
    }

    /** Growth so far has kept every joined node clear of every edge. */
    ghost predicate Clear()
      reads this
    {
      GrownTree(nodes, segments) && NodesClear(nodes, segments, BareRoots(nodes, segments))
    }

    constructor (page: Page)
      requires page.Valid()
      ensures Valid() && this.page == page && View() == Layout([], [], 0)
    {
      this.page := page;
      nodes, segments, drawn := [], [], 0;
    }

    method Draw() returns (r: real)
      requires Valid()
      modifies this`drawn
      ensures r == page.rand(old(drawn)) && drawn == old(drawn) + 1 && 0.0 <= r < 1.0
    {
      r := page.rand(drawn);
      drawn := drawn + 1;
    }

    /** The candidate against every edge it would not join. */
    method ClearsEdges(a: Point, b: Point, i: nat, j: nat) returns (ok: bool)
      requires Planar(nodes, segments)
      ensures ok <==> forall k | 0 <= k < |segments| && !Touches(segments[k], i) && !Touches(segments[k], j) ::
                        On(nodes, segments[k]) && Passes(nodes, segments[k], a, b)
    {
      hide Intersection, SegmentDistance2;
      for k := 0 to |segments|
        invariant forall m | 0 <= m < k && !Touches(segments[m], i) && !Touches(segments[m], j) ::
                    On(nodes, segments[m]) && Passes(nodes, segments[m], a, b)
      {
        var seg := segments[k];
        assert On(nodes, seg);
        if seg.start == i || seg.end == i || seg.start == j || seg.end == j {
          continue;
        }
        if Intersection(a, b, nodes[seg.start].at, nodes[seg.end].at).Some? {
          return false;
        }
        if SegmentDistance2(a, b, nodes[seg.start].at, nodes[seg.end].at) < CLEAR2 {
          return false;
        }
      }
      return true;
    }

    /** The candidate node against every node but its parent. */
    method ClearsNodes(c: Point, parent: nat) returns (ok: bool)
      ensures ok <==> forall k | 0 <= k < |nodes| && k != parent :: Dist2(nodes[k].at, c) >= NODE_CLEAR2
    {
      hide Dist2;
      for k := 0 to |nodes|
        invariant forall m | 0 <= m < k && m != parent :: Dist2(nodes[m].at, c) >= NODE_CLEAR2
      {
        if k == parent {
          continue;
        }
        if Dist2(nodes[k].at, c) < NODE_CLEAR2 {
          return false;
        }
      }
      return true;
    }

    /** Where an attempt reaches from `p`. */
    method Reach(p: Point, dir: int) returns (c: Point)
      requires Valid() && (dir == 1 || dir == -1)
      modifies this`drawn
      ensures c == Candidate(page, p, dir, old(drawn)) && drawn == old(drawn) + 2
      ensures page.trig.Sound() ==> Offset(p, c, dir)
    {
      var u := Draw();
      var angle := page.trig.minAngle + u * (page.trig.maxAngle - page.trig.minAngle);
      var v := Draw();
      var length := page.MinLen() + v * (page.MaxLen() - page.MinLen());
      c := Point(p.x + (dir as real) * page.trig.sin(angle) * length, p.y + page.trig.cos(angle) * length);
      assert angle == Spanned(page.trig.minAngle, page.trig.maxAngle, page.rand(old(drawn)));
      assert length == Spanned(page.MinLen(), page.MaxLen(), page.rand(old(drawn) + 1));
      assert c == Candidate(page, p, dir, old(drawn));
      hide Offset, Candidate;
      if page.trig.Sound() {
        CandidatesGoAside(page, p, dir, old(drawn));
      }
    }

    /** The first of fourteen attempts that fits, or nothing if none does. */
    method Grow(parent: nat, dir: int) returns (r: Option<nat>)
      requires Valid() && parent < |nodes| && (dir == 1 || dir == -1)
      modifies this
      ensures Valid() && (View(), r) == Branched(page, old(View()), parent, dir)
      ensures r.None? <==> forall k: nat | k < TRIES :: !FitsAt(page, old(View()), parent, dir, k)
      ensures r.None? ==> nodes == old(nodes) && segments == old(segments)
      ensures r.Some? ==>
                && r.value == |old(nodes)| && |nodes| == |old(nodes)| + 1
                && nodes == old(nodes) + [Node(nodes[r.value].at, Some(parent))]
                && segments == old(segments) + [Edge(parent, r.value)]
                && page.InBounds(nodes[r.value].at)
                && forall k | 0 <= k < |old(nodes)| && k != parent ::
                     Dist2(nodes[k].at, nodes[r.value].at) >= NODE_CLEAR2
      ensures page.trig.Sound() && r.Some? ==> Offset(nodes[parent].at, nodes[r.value].at, dir)
      ensures page.trig.Sound() && old(Clear()) && old(Free(nodes, segments, parent, dir)) ==> Clear()
    {
      hide Dist2, Passes, Intersection, NodesClear, GrownTree, Free, Offset, Planar, BareRoots, Candidate, FirstFit;
      var p := nodes[parent].at;
      ghost var was := View();
      for attempt := 0 to TRIES
        invariant Valid() && nodes == old(nodes) && segments == old(segments) && drawn == old(drawn) + 2 * attempt
        invariant forall k: nat | k < attempt :: !FitsAt(page, was, parent, dir, k)
      {
        var candidate := Reach(p, dir);
        assert candidate == Candidate(page, p, dir, was.drawn + 2 * attempt);
        if candidate.x < page.width * 0.03 || candidate.x > page.width * 0.97 {
          continue;
        }
        if candidate.y > page.height - 20.0 {
          continue;
        }
        var ok := ClearsEdges(p, candidate, parent, parent);
        if ok {
          ok := ClearsNodes(candidate, parent);
        }
        if !ok {
          continue;
        }
        assert FitsAt(page, was, parent, dir, attempt);
        BranchTakesTheFirstFit(page, was, parent, dir, attempt);
        var index := |nodes|;
        GrownEdgeFits(nodes, segments, parent, candidate);
        if page.trig.Sound() && Clear() && Free(nodes, segments, parent, dir) {
          GrowthKeepsClear(nodes, segments, parent, candidate, dir);
          GrowthKeepsTree(nodes, segments, parent, candidate, dir);
        }
        nodes := nodes + [Node(candidate, Some(parent))];
        segments := segments + [Edge(parent, index)];
        return Some(index);
      }
      FirstFitIs(page, was, parent, dir, 0, TRIES);
      return None;
    }

    // -------------------------------------------------------------------
    // Growth
    // -------------------------------------------------------------------

    /** At most four of the candidates, both edges of the page among them. */
    method Spread(candidates: seq<nat>) returns (picked: seq<nat>)
      requires forall k | 0 <= k < |candidates| :: candidates[k] < |nodes|
      requires Distinct(candidates)
      ensures Distinct(picked) && (forall k | 0 <= k < |picked| :: picked[k] in candidates)
      ensures picked == Thinned(nodes, candidates)
      ensures |picked| == if |candidates| < 4 then |candidates| else 4
      ensures forall c | c in candidates ::
                exists l, r | l in picked && r in picked :: nodes[l].at.x <= nodes[c].at.x <= nodes[r].at.x
    {
      if |candidates| <= MAX_FRONTIER {
        return candidates;
      }
      var byX := SortByX(nodes, candidates);
      SortKeeps(nodes, candidates);
      picked := [];
      for k := 0 to MAX_FRONTIER
        invariant SampledSoFar(byX, picked, k)
      {
        NextSample(byX, picked, k);
        var index := Sample(k, |byX|);
        if byX[index] !in picked {
          picked := picked + [byX[index]];
        }
      }
      SortedByX(nodes, candidates);
      SamplesSpan(nodes, candidates, byX, picked);
    }

    /** Grow on one side of a frontier node, and remember the child. */
    method GrowInto(parent: nat, dir: int, next: seq<nat>) returns (more: seq<nat>)
      requires Valid() && parent < |nodes| && (dir == 1 || dir == -1)
      requires page.trig.Sound() ==> Clear() && Free(nodes, segments, parent, dir)
      modifies this
      ensures Valid() && (page.trig.Sound() ==> Clear())
      ensures Known(next, old(nodes)) ==> (View(), more) == BranchedInto(page, old(View()), parent, dir, next)
      ensures old(nodes) <= nodes && more == next + (if |nodes| == |old(nodes)| then [] else [|old(nodes)|])
      ensures if |nodes| == |old(nodes)| then nodes == old(nodes) && segments == old(segments)
              else segments == old(segments) + [Edge(parent, |old(nodes)|)] && |nodes| == |old(nodes)| + 1
                   && nodes[|old(nodes)|].parent == Some(parent)
                   && (page.trig.Sound() ==> Offset(nodes[parent].at, nodes[|old(nodes)|].at, dir))
    {
      hide NodesClear, GrownTree, Planar, BareRoots, Offset, Free, Dist2, Branched, FitsAt;
      var child := Grow(parent, dir);
      more := next;
      if child.Some? {
        more := more + [child.value];
      }
    }

    /** One frontier node: a fork, or one branch. */
    method GrowFrom(parent: nat, next: seq<nat>) returns (more: seq<nat>)
      requires Valid() && parent < |nodes| && (page.trig.Sound() ==> Clear())
      requires forall k | 0 <= k < |segments| :: segments[k].start != parent
      modifies this
      ensures Valid() && (page.trig.Sound() ==> Clear())
      ensures Known(next, old(nodes)) ==> (View(), more) == GrownFrom(page, old(View()), parent, next)
      ensures old(nodes) <= nodes && |nodes| <= |old(nodes)| + 2
      ensures old(segments) <= segments
      ensures forall k | |old(segments)| <= k < |segments| :: segments[k].start == parent
      ensures more == next + seq(|nodes| - |old(nodes)|, k => |old(nodes)| + k)
    {
      hide NodesClear, GrownTree, Planar, BareRoots, Offset, BranchedInto;
      more := next;
      if nodes[parent].at.y > page.height - page.Reach() * 0.5 {
        return;
      }
      var u := Draw();
      var forking := u < 0.34 && |next| < MAX_FRONTIER * 2;
      var inward := if nodes[parent].at.x < page.width * 0.5 then 1 else -1;
      if forking {
        more := GrowInto(parent, -1, more);
        if page.trig.Sound() {
          FreeOnTheOtherSide(nodes, segments, parent, |old(segments)|);
        }
        more := GrowInto(parent, 1, more);
      } else {
        var v := Draw();
        more := GrowInto(parent, if v < 0.62 then inward else -inward, more);
      }
    }

    /** Every frontier node grows. */
    method GrowEach(frontier: seq<nat>) returns (children: seq<nat>)
      requires Valid() && (page.trig.Sound() ==> Clear())
      requires Indices(frontier, 0, |nodes|) && Waiting(segments, frontier)
      modifies this
      ensures Valid() && (page.trig.Sound() ==> Clear()) && old(nodes) <= nodes
      ensures Indices(children, |old(nodes)|, |nodes|) && StartBelow(segments, |old(nodes)|)
      ensures Known(frontier, old(nodes)) && (View(), children) == GrownEach(page, old(View()), frontier, [])
    {
      children := [];
      EdgesStart(nodes, segments);
      assert frontier[0..] == frontier;
      hide NodesClear, GrownTree, Planar, BareRoots, Indices, Waiting, StartBelow, Known, GrownEach, GrownFrom;
      ghost var base, was := |nodes|, View();
      NoIndices(base);
      IndicesAreKnown(frontier, base, nodes);
      IndicesAreKnown(children, base, nodes);
      for k := 0 to |frontier|
        invariant Valid() && (page.trig.Sound() ==> Clear()) && old(nodes) <= nodes
        invariant Indices(children, base, |nodes|)
        invariant StartBelow(segments, base) && Waiting(segments, frontier[k..])
        invariant Known(frontier[k..], nodes) && Known(children, nodes)
        invariant Known(frontier, was.nodes) && Known([], was.nodes)
        invariant GrownEach(page, View(), frontier[k..], children) == GrownEach(page, was, frontier, [])
      {
        ghost var before, lead, known, l := segments, children, |nodes|, View();
        IndexIn(frontier, k, 0, base);
        NotYet(segments, frontier, k);
        GrowsOneByOne(page, l, frontier, k, lead);
        children := GrowFrom(frontier[k], children);
        StillWaiting(before, segments, frontier, k, base);
        AddNewest(lead, base, known, |nodes|);
      }
      NoneLeft(page, View(), frontier, children);
    }

    /** One generation: the children, thinned. */
    method Generation(frontier: seq<nat>) returns (next: seq<nat>)
      requires Valid() && (page.trig.Sound() ==> Clear())
      requires Indices(frontier, 0, |nodes|) && Waiting(segments, frontier)
      modifies this
      ensures Valid() && (page.trig.Sound() ==> Clear()) && old(nodes) <= nodes
      ensures Indices(next, 0, |nodes|) && Waiting(segments, next) && |next| <= MAX_FRONTIER
      ensures Known(frontier, old(nodes)) && Known(next, nodes)
      ensures forall guard: nat ::
                Generations(page, old(View()), frontier, guard) == if frontier == [] || guard == 0 then old(View())
                                                                   else Generations(page, View(), next, guard - 1)
    {
      hide NodesClear, GrownTree, Planar, BareRoots, GrownEach;
      var children := GrowEach(frontier);
      next := Spread(children);
      PickedWait(segments, children, next, |old(nodes)|, |nodes|);
    }

    /** Pass one: up to forty generations. */
    method GrowAll(roots: seq<nat>)
      requires Valid() && (page.trig.Sound() ==> Clear())
      requires Indices(roots, 0, |nodes|) && Waiting(segments, roots)
      modifies this
      ensures Valid() && (page.trig.Sound() ==> Clear()) && old(nodes) <= nodes
      ensures Known(roots, old(nodes)) && View() == Generations(page, old(View()), roots, 40)
    {
      hide NodesClear, GrownTree, Planar, BareRoots, Known;
      IndicesAreKnown(roots, |nodes|, nodes);
      ghost var was := View();
      var frontier := roots;
      var guard := 0;
      while guard < GENERATIONS && frontier != []
        invariant Valid() && (page.trig.Sound() ==> Clear()) && old(nodes) <= nodes && guard <= GENERATIONS
        invariant Indices(frontier, 0, |nodes|) && Waiting(segments, frontier)
        invariant Known(frontier, nodes) && Known(roots, was.nodes)
        invariant Generations(page, View(), frontier, GENERATIONS - guard) == Generations(page, was, roots, GENERATIONS)
        decreases GENERATIONS - guard
      {
        frontier := Generation(frontier);
        guard := guard + 1;
      }
    }

    // -------------------------------------------------------------------
    // Links
    // -------------------------------------------------------------------

    /** Whether `i` and `j` may be linked. */
    method CanLink(i: nat, j: nat, connected: set<(nat, nat)>) returns (ok: bool)
      requires Valid() && i < |nodes| && j < |nodes|
      ensures ok <==> LinkFits(nodes, segments, i, j, connected) && SpanFits(page, nodes[i].at, nodes[j].at)
    {
      hide Intersection, SegmentDistance2, Dist2, PointToSegment2;
      var a, b := nodes[i].at, nodes[j].at;
      if Key(i, j) in connected {
        return false;
      }
      if !SpanFits(page, a, b) {
        return false;
      }
      ok := ClearsEdges(a, b, i, j);
      if !ok {
        return false;
      }
      for k := 0 to |nodes|
        invariant forall m | 0 <= m < k && m != i && m != j :: PointToSegment2(nodes[m].at, a, b) >= CLEAR2
      {
        if k == i || k == j {
          continue;
        }
        if PointToSegment2(nodes[k].at, a, b) < CLEAR2 {
          return false;
        }
      }
    }

    /** An index, by the next random number. */
    method Pick() returns (i: nat)
      requires Valid() && |nodes| > 0
      modifies this`drawn
      ensures i == PickAt(page, old(drawn), |nodes|) && drawn == old(drawn) + 1 && i < |nodes|
    {
      var u := Draw();
      FloorInRange(u, |nodes|);
      i := (u * (|nodes| as real)).Floor;
    }

    /** Pass two: close the tree into a graph. */
    method LinkAll(ghost exempt: set<nat>)
      requires Valid() && |nodes| > 0
      requires page.trig.Sound() ==> NodesClear(nodes, segments, exempt)
      modifies this`segments, this`drawn
      ensures Valid() && old(segments) <= segments
      ensures View() == Linked(page, old(View()), Budget(nodes), |nodes| * 12)
      ensures page.trig.Sound() ==> NodesClear(nodes, segments, exempt)
      ensures forall k | |old(segments)| <= k < |segments| :: ClearOfNodes(nodes, segments[k])
    {
      hide NodesClear, Planar, LinkFits, Dist2, ClearOfNodes, SpanFits, PickAt, Links, Linked, Keys;
      ghost var was := View();
      var connected := set s | s in segments :: Key(s.start, s.end);
      KeysAre(segments);
      var n := |nodes|;
      var budget := ((n as real) * LINK_RATIO + 0.5).Floor;
      var added, guard := 0, 0;
      while added < budget && guard < n * 12
        invariant Valid() && old(segments) <= segments
        invariant page.trig.Sound() ==> NodesClear(nodes, segments, exempt)
        invariant connected == Keys(segments) && guard <= n * 12
        invariant Linked(page, View(), budget - added, n * 12 - guard) == Linked(page, was, budget, n * 12)
        invariant forall k | |old(segments)| <= k < |segments| :: ClearOfNodes(nodes, segments[k])
        decreases n * 12 - guard
      {
        ghost var l := View();
        var i := Pick();
        var j := Pick();
        guard := guard + 1;
        DrawsAPair(page, l, budget - added, n * 12 - guard + 1, i, j);
        if i == j {
          continue;
        }
        var ok := CanLink(i, j, connected);
        if !ok {
          continue;
        }
        LinkKeepsPlanar(nodes, segments, i, j, connected);
        if page.trig.Sound() {
          LinkKeepsClear(nodes, segments, i, j, connected, exempt);
        }
        LinkIsClear(nodes, segments, i, j, connected);
        KeysMore(segments, Edge(i, j));
        segments := segments + [Edge(i, j)];
        connected := connected + {Key(i, j)};
        added := added + 1;
      }
      NothingToLink(page, View(), budget - added, n * 12 - guard);
    }
  }

  /** `buildGraph`, as far as its nodes and edges: four roots, growth, then links. Every pair of
      edges keeps its distance or joins at a node. And if the angles are as the trigonometric
      functions make them, every edge keeps the clearance from every node it does not join, the
      roots nothing grew from aside; and from those too, if and only if every grown edge does. */
  method BuildGraph(page: Page) returns (g: Builder, ghost grown: nat, ghost bare: set<nat>)
    requires page.Valid()
    ensures fresh(g) && g.View() == Built(page)
    ensures grown <= |g.segments| && g.segments[..grown] == Tree(page).segments
    ensures Planar(g.nodes, g.segments)
    ensures Roots(page.width, page.height) <= g.nodes
    ensures bare == BareRoots(g.nodes, g.segments[..grown])
    ensures forall k | 0 <= k < grown :: g.segments[k].end < |g.nodes|
    ensures page.trig.Sound() ==> GrownTree(g.nodes, g.segments[..grown])
    ensures page.trig.Sound() ==> NodesClear(g.nodes, g.segments, bare)
    ensures page.trig.Sound() ==>
              (NodesClear(g.nodes, g.segments, {}) <==> ClearOfAll(g.nodes, g.segments[..grown], bare))
  {
    g := new Builder(page);
    g.nodes := Roots(page.width, page.height);
    TheRootsWait(g.nodes);
    hide NodesClear, Planar, GrownTree, Generations, Linked, Indices, Waiting, BareRoots, ClearOfNodes, ClearOfAll,
      Known;
    RootsAreClear(g.nodes);
    g.GrowAll([0, 1, 2, 3]);
    grown, bare := |g.segments|, BareRoots(g.nodes, g.segments);
    ghost var tree := g.segments;
    g.LinkAll(bare);
    assert g.segments[..grown] == tree;
    EdgesEnd(g.nodes, g.segments);
    if page.trig.Sound() {
      OnlyGrownEdgesCrowd(g.nodes, g.segments, grown, bare);
    }
  }

  /** The edge keeps the clearance from every node it does not join. */
  ghost predicate ClearOfNodes(nodes: seq<Node>, e: Edge)
  {
    On(nodes, e) && forall n: nat | n < |nodes| :: ClearOf(nodes, e, n)
  }

  /** Every one of these edges keeps the clearance from every one of these nodes. */
  ghost predicate ClearOfAll(nodes: seq<Node>, edges: seq<Edge>, ns: set<nat>)
  {
    forall k, n {:trigger ClearOf(nodes, edges[k], n)}
      | 0 <= k < |edges| && On(nodes, edges[k]) && n in ns && n < |nodes| ::
      ClearOf(nodes, edges[k], n)
  }

  lemma {:induction false} EdgesEnd(nodes: seq<Node>, edges: seq<Edge>)
    requires Planar(nodes, edges)
    ensures forall k | 0 <= k < |edges| :: edges[k].end < |nodes|
  {
    forall k | 0 <= k < |edges|
      ensures edges[k].end < |nodes|
    {
      assert On(nodes, edges[k]);
    }
  }

  /** Links are compared with every node, so only a grown edge can come too near one. */
  lemma {:induction false} OnlyGrownEdgesCrowd(nodes: seq<Node>, edges: seq<Edge>, grown: nat, bare: set<nat>)
    requires grown <= |edges| && NodesClear(nodes, edges, bare)
    requires forall k | grown <= k < |edges| :: ClearOfNodes(nodes, edges[k])
    ensures NodesClear(nodes, edges, {}) <==> ClearOfAll(nodes, edges[..grown], bare)
  {
    hide ClearOf, On;
    if ClearOfAll(nodes, edges[..grown], bare) {
      forall k, n | 0 <= k < |edges| && 0 <= n < |nodes|
        ensures ClearOf(nodes, edges[k], n)
      {
        assert k < grown ==> edges[..grown][k] == edges[k];
      }
    }
    if NodesClear(nodes, edges, {}) {
      forall k, n | 0 <= k < grown && n in bare && n < |nodes|
        ensures ClearOf(nodes, edges[..grown][k], n)
      {
        assert edges[..grown][k] == edges[k];
        assert n !in {};
      }
    }
  }

  lemma {:induction false} TheRootsWait(nodes: seq<Node>)
    requires |nodes| == 4
    ensures Indices([0, 1, 2, 3], 0, |nodes|) && Waiting([], [0, 1, 2, 3])
  {
  }

  lemma {:induction false} RootsAreClear(nodes: seq<Node>)
    requires forall k | 0 <= k < |nodes| :: nodes[k].parent == None
    ensures Planar(nodes, []) && GrownTree(nodes, []) && NodesClear(nodes, [], BareRoots(nodes, []))
  {
  }

  // ---------------------------------------------------------------------
  // Linking
  // ---------------------------------------------------------------------

  lemma {:induction false} LinkKeepsPlanar(nodes: seq<Node>, edges: seq<Edge>, i: nat, j: nat,
                                           connected: set<(nat, nat)>)
    requires Planar(nodes, edges) && i < |nodes| && j < |nodes| && i != j
    requires connected == Keys(edges) && LinkFits(nodes, edges, i, j, connected)
    ensures Planar(nodes, edges + [Edge(i, j)])
  {
    hide Intersection, SegmentDistance2, Apart;
    var e := Edge(i, j);
    forall k | 0 <= k < |edges|
      ensures On(nodes, edges[k]) && if Shares(edges[k], e) then !SameEnds(edges[k], e)
                                     else Passes(nodes, edges[k], nodes[e.start].at, nodes[e.end].at)
    {
      assert On(nodes, edges[k]) && edges[k] in edges;
      assert Key(edges[k].start, edges[k].end) in connected;
    }
    TestedEdgeFits(nodes, edges, e);
  }

  lemma {:induction false} LinkKeepsClear(nodes: seq<Node>, edges: seq<Edge>, i: nat, j: nat,
                                          connected: set<(nat, nat)>, exempt: set<nat>)
    requires i < |nodes| && j < |nodes| && i != j && LinkFits(nodes, edges, i, j, connected)
    requires NodesClear(nodes, edges, exempt)
    ensures NodesClear(nodes, edges + [Edge(i, j)], exempt)
  {
    hide PointToSegment2, Passes;
    var more := edges + [Edge(i, j)];
    forall k | 0 <= k < |more|
      ensures On(nodes, more[k])
    {
      assert k < |edges| ==> On(nodes, edges[k]);
    }
    forall k, n | 0 <= k < |more| && 0 <= n < |nodes| && n !in exempt
      ensures ClearOf(nodes, more[k], n)
    {
      assert k < |edges| ==> ClearOf(nodes, edges[k], n);
    }
  }

  lemma {:induction false} LinkIsClear(nodes: seq<Node>, edges: seq<Edge>, i: nat, j: nat, connected: set<(nat, nat)>)
    requires i < |nodes| && j < |nodes| && i != j && LinkFits(nodes, edges, i, j, connected)
    ensures ClearOfNodes(nodes, Edge(i, j))
  {
    hide PointToSegment2, Passes;
  }

  ghost predicate Indices(ns: seq<nat>, lo: nat, hi: nat)
  {
    Distinct(ns) && forall k | 0 <= k < |ns| :: lo <= ns[k] < hi
  }

  /** No edge leaves any of these nodes yet. */
  ghost predicate Waiting(edges: seq<Edge>, ns: seq<nat>)
  {
    forall j, k | 0 <= j < |ns| && 0 <= k < |edges| :: edges[k].start != ns[j]
  }

  ghost predicate StartBelow(edges: seq<Edge>, base: nat)
  {
    forall k | 0 <= k < |edges| :: edges[k].start < base
  }

  lemma {:induction false} EdgesStart(nodes: seq<Node>, edges: seq<Edge>)
    requires Planar(nodes, edges)
    ensures StartBelow(edges, |nodes|)
  {
    forall k | 0 <= k < |edges|
      ensures edges[k].start < |nodes|
    {
      assert On(nodes, edges[k]);
    }
  }

  lemma {:induction false} NotYet(edges: seq<Edge>, frontier: seq<nat>, k: nat)
    requires k < |frontier| && Waiting(edges, frontier[k..])
    ensures forall m | 0 <= m < |edges| :: edges[m].start != frontier[k]
  {
    assert frontier[k..][0] == frontier[k];
  }

  lemma {:induction false} StillWaiting(before: seq<Edge>, edges: seq<Edge>, frontier: seq<nat>, k: nat, base: nat)
    requires k < |frontier| && Indices(frontier, 0, base) && Waiting(before, frontier[k..]) && StartBelow(before, base)
    requires before <= edges && forall m | |before| <= m < |edges| :: edges[m].start == frontier[k]
    ensures Waiting(edges, frontier[k + 1..]) && StartBelow(edges, base)
  {
    var rest := frontier[k + 1..];
    forall j, m | 0 <= j < |rest| && 0 <= m < |edges|
      ensures edges[m].start != rest[j]
    {
      assert rest[j] == frontier[k + 1 + j] == frontier[k..][j + 1];
      assert m < |before| ==> edges[m] == before[m];
    }
    forall m | 0 <= m < |edges|
      ensures edges[m].start < base
    {
      assert m < |before| ==> edges[m] == before[m];
    }
  }

  lemma {:induction false} AddNewest(children: seq<nat>, base: nat, known: nat, now: nat)
    requires Indices(children, base, known) && base <= known <= now
    ensures Indices(children + seq(now - known, k => known + k), base, now)
  {
  }

  lemma {:induction false} PickedWait(edges: seq<Edge>, children: seq<nat>, picked: seq<nat>, base: nat, now: nat)
    requires StartBelow(edges, base) && Indices(children, base, now)
    requires Distinct(picked) && forall k | 0 <= k < |picked| :: picked[k] in children
    ensures Waiting(edges, picked) && Indices(picked, 0, now)
  {
  }

  lemma {:induction false} IndicesAreKnown(ns: seq<nat>, hi: nat, nodes: seq<Node>)
    requires Indices(ns, 0, hi) && hi <= |nodes|
    ensures Known(ns, nodes)
  {
  }

  lemma {:induction false} NoIndices(base: nat)
    ensures Indices([], base, base)
  {
  }

  lemma {:induction false} IndexIn(ns: seq<nat>, k: nat, lo: nat, hi: nat)
    requires Indices(ns, lo, hi) && k < |ns|
    ensures lo <= ns[k] < hi
  {
  }

  /** Whatever has grown from `p` went left, so the right is free. */
  lemma {:induction false} FreeOnTheOtherSide(nodes: seq<Node>, edges: seq<Edge>, p: nat, n: nat)
    requires p < |nodes| && n <= |edges| && forall k | 0 <= k < n :: edges[k].start != p
    requires forall k | n <= k < |edges| :: edges[k].end < |nodes| && Offset(nodes[p].at, nodes[edges[k].end].at, -1)
    ensures Free(nodes, edges, p, 1)
  {
  }

  /** Over the angles growth draws from, a candidate lies well below its parent and well to the side. */
  lemma {:induction false} CandidatesGoAside(page: Page, p: Point, dir: int, at: nat)
    requires page.Valid() && page.trig.Sound() && (dir == 1 || dir == -1)
    ensures Offset(p, Candidate(page, p, dir, at), dir)
  {
    var trig, u, v := page.trig, page.rand(at), page.rand(at + 1);
    var angle := Spanned(trig.minAngle, trig.maxAngle, u);
    var length := Spanned(page.MinLen(), page.MaxLen(), v);
    DrawnBetween(trig.minAngle, trig.maxAngle, u, angle);
    DrawnBetween(page.MinLen(), page.MaxLen(), v, length);
    BranchesGoAside(p, dir, trig.sin(angle), trig.cos(angle), length);
    hide Spanned, Offset;
  }

  lemma {:induction false} BranchesGoAside(p: Point, dir: int, sin: real, cos: real, length: real)
    requires (dir == 1 || dir == -1) && sin >= 0.4 && cos >= 0.4 && length >= 120.0
    ensures Offset(p, Point(p.x + (dir as real) * sin * length, p.y + cos * length), dir)
  {
    var across, dx, dy := sin * length, (dir as real) * sin * length, cos * length;
    LongEnough(sin, length, across);
    LongEnough(cos, length, dy);
    Signed(dir, sin, length, across, dx);
  }

  lemma {:induction false} DrawnBetween(lo: real, hi: real, u: real, x: real)
    requires lo <= hi && 0.0 <= u < 1.0 && x == lo + u * (hi - lo)
    ensures lo <= x <= hi
  {
    NonNegativeProduct(u, hi - lo);
    NonNegativeProduct(1.0 - u, hi - lo);
    assert (1.0 - u) * (hi - lo) == (hi - lo) - u * (hi - lo);
  }

  lemma {:induction false} Signed(dir: int, ratio: real, length: real, across: real, dx: real)
    requires (dir == 1 || dir == -1) && across == ratio * length && dx == (dir as real) * ratio * length
    ensures dx == if dir == 1 then across else -across
  {
    if dir == 1 {
      assert (dir as real) * ratio == ratio;
    } else {
      assert (dir as real) * ratio == -ratio;
      assert (-ratio) * length == -(ratio * length);
    }
  }

  lemma {:induction false} LongEnough(ratio: real, length: real, y: real)
    requires ratio >= 0.4 && length >= 120.0 && y == ratio * length
    ensures y >= CLEARANCE
  {
    NonNegativeProduct(ratio - 0.4, length - 120.0);
    assert (ratio - 0.4) * (length - 120.0) == y - 120.0 * ratio - 0.4 * length + 48.0;
  }

  /** The new edge joins a new node, so it is no edge twice. */
  lemma {:induction false} GrownEdgeFits(nodes: seq<Node>, edges: seq<Edge>, p: nat, c: Point)
    requires Planar(nodes, edges) && p < |nodes|
    requires forall k | 0 <= k < |edges| && !Touches(edges[k], p) ::
               On(nodes, edges[k]) && Passes(nodes, edges[k], nodes[p].at, c)
    ensures Planar(nodes + [Node(c, Some(p))], edges + [Edge(p, |nodes|)])
  {
    hide Intersection, SegmentDistance2, Apart;
    var more, e := nodes + [Node(c, Some(p))], Edge(p, |nodes|);
    MoreNodes(nodes, edges, Node(c, Some(p)));
    forall k | 0 <= k < |edges|
      ensures On(more, edges[k]) && if Shares(edges[k], e) then !SameEnds(edges[k], e)
                                    else Passes(more, edges[k], more[e.start].at, more[e.end].at)
    {
      assert On(nodes, edges[k]);
    }
    TestedEdgeFits(more, edges, e);
  }
}
