/** What `buildGraph` of docs-site/components/ambient/graph.ts is to push: which candidate a branch
    takes, which branches grow, and which links are added, over any stream of random numbers. */
module Growth {
  import opened Common
  import opened Geometry
  import opened Graph

  /** What is taken of the trigonometric functions: over the angles growth may draw, the sine and
      the cosine are both at least 0.4. `flat` is the test that bars near-horizontal links. */
  datatype Trig = Trig(sin: real -> real, cos: real -> real, minAngle: real, maxAngle: real,
                       flat: (Point, Point) -> bool)
  {
    ghost predicate Sound() {
      && minAngle <= maxAngle
      && forall angle: real | minAngle <= angle <= maxAngle :: sin(angle) >= 0.4 && cos(angle) >= 0.4
    }
  }

  function Max(x: real, y: real): (r: real)
    ensures r >= x && r >= y
  {
    if x < y then y else x
  }

  /** The page to draw on, and the random stream: any numbers from 0 up to 1. */
  datatype Page = Page(width: real, height: real, trig: Trig, rand: nat -> real) {
    ghost predicate Valid() {
      forall k: nat :: 0.0 <= rand(k) < 1.0
    }

    function Reach(): real { Min(width, height) * 0.18 }

    function MinLen(): (r: real)
      ensures r >= 120.0
    {
      Max(120.0, Reach() * 0.7)
    }

    function MaxLen(): (r: real)
      ensures r >= MinLen()
    {
      Max(MinLen() + 90.0, Reach() * 1.7)
    }

    predicate InBounds(c: Point)
    {
      width * 0.03 <= c.x <= width * 0.97 && c.y <= height - 20.0
    }
  }

  /** What has been pushed, and how many random numbers have been drawn. */
  datatype Layout = Layout(nodes: seq<Node>, segments: seq<Edge>, drawn: nat)

  // ---------------------------------------------------------------------
  // A branch
  // ---------------------------------------------------------------------

  /** From `lo` up to `hi`, as `u` goes from 0 up to 1. */
  function Spanned(lo: real, hi: real, u: real): real
  {
    lo + u * (hi - lo)
  }

  /** Where a branch from `p` reaches with the two random numbers at `at`. */
  function Candidate(page: Page, p: Point, dir: int, at: nat): Point
  {
    var angle := Spanned(page.trig.minAngle, page.trig.maxAngle, page.rand(at));
    var length := Spanned(page.MinLen(), page.MaxLen(), page.rand(at + 1));
    Toward(p, dir, page.trig.sin(angle), page.trig.cos(angle), length)
  }

  /** Down, and to one side, by so much. */
  function Toward(p: Point, dir: int, sin: real, cos: real, length: real): Point
  {
    Point(p.x + (dir as real) * sin * length, p.y + cos * length)
  }

  /** The candidate is on the page, neither crosses nor crowds an edge it does not join, and is
      clear of every node but its parent. */
  ghost predicate Fits(page: Page, nodes: seq<Node>, edges: seq<Edge>, parent: nat, c: Point)
    requires parent < |nodes|
  {
    && page.InBounds(c)
    && (forall k | 0 <= k < |edges| && !Touches(edges[k], parent) ::
          On(nodes, edges[k]) && Passes(nodes, edges[k], nodes[parent].at, c))
    && forall k | 0 <= k < |nodes| && k != parent :: Dist2(nodes[k].at, c) >= NODE_CLEAR2
  }

  /** Attempt `k` of a branch fits. */
  ghost predicate FitsAt(page: Page, l: Layout, parent: nat, dir: int, k: nat)
    requires parent < |l.nodes|
  {
    Fits(page, l.nodes, l.segments, parent, Candidate(page, l.nodes[parent].at, dir, l.drawn + 2 * k))
  }

  /** The first attempt from `k` on that fits; `TRIES` if none does. */
  ghost function FirstFit(page: Page, l: Layout, parent: nat, dir: int, k: nat): (r: nat)
    requires parent < |l.nodes| && k <= TRIES
    ensures k <= r <= TRIES
    decreases TRIES - k
  {
    if k == TRIES || FitsAt(page, l, parent, dir, k) then k else FirstFit(page, l, parent, dir, k + 1)
  }

  /** A child at `c`, and the edge that leads to it. */
  function Pushed(l: Layout, parent: nat, c: Point, drawn: nat): (r: Layout)
    ensures l.nodes <= r.nodes && |r.nodes| == |l.nodes| + 1
  {
    Layout(l.nodes + [Node(c, Some(parent))], l.segments + [Edge(parent, |l.nodes|)], drawn)
  }

  /** The branch that takes attempt `k`, or gives up after the last. */
  function Took(page: Page, l: Layout, parent: nat, dir: int, k: nat): (r: (Layout, Option<nat>))
    requires parent < |l.nodes|
    ensures l.nodes <= r.0.nodes && (r.1.Some? ==> r.1.value < |r.0.nodes|)
  {
    if k >= TRIES then (l.(drawn := l.drawn + 2 * TRIES), None)
    else (Pushed(l, parent, Candidate(page, l.nodes[parent].at, dir, l.drawn + 2 * k), l.drawn + 2 * (k + 1)),
          Some(|l.nodes|))
  }

  /** What a branch does: takes the first attempt that fits, or gives up. */
  ghost function Branched(page: Page, l: Layout, parent: nat, dir: int): (r: (Layout, Option<nat>))
    requires parent < |l.nodes|
    ensures l.nodes <= r.0.nodes && (r.1.Some? ==> r.1.value < |r.0.nodes|)
  {
    Took(page, l, parent, dir, FirstFit(page, l, parent, dir, 0))
  }

  /** Attempt `k` is the first that fits, counted from `start`. */
  lemma {:induction false} FirstFitIs(page: Page, l: Layout, parent: nat, dir: int, start: nat, k: nat)
    requires parent < |l.nodes| && start <= k <= TRIES
    requires forall j: nat | start <= j < k :: !FitsAt(page, l, parent, dir, j)
    requires k < TRIES ==> FitsAt(page, l, parent, dir, k)
    ensures FirstFit(page, l, parent, dir, start) == k
    decreases k - start
  {
    hide FitsAt;
    if start < k {
      FirstFitIs(page, l, parent, dir, start + 1, k);
    }
  }

  /** A branch gives up if and only if all its attempts fail. */
  lemma {:induction false} BranchGivesUpExactlyWhen(page: Page, l: Layout, parent: nat, dir: int)
    requires parent < |l.nodes|
    ensures Branched(page, l, parent, dir).1.None? <==>
            forall k: nat | k < 14 :: !FitsAt(page, l, parent, dir, k)
  {
    hide FitsAt, Candidate, FirstFit;
    FirstFitFails(page, l, parent, dir, 0);
  }

  /** Otherwise the child stands where the first attempt that fits reached. */
  lemma {:induction false} BranchTakesTheFirstFit(page: Page, l: Layout, parent: nat, dir: int, k: nat)
    requires parent < |l.nodes| && k < TRIES && FitsAt(page, l, parent, dir, k)
    requires forall j: nat | j < k :: !FitsAt(page, l, parent, dir, j)
    ensures var (r, child) := Branched(page, l, parent, dir);
            && child == Some(|l.nodes|) && r.drawn == l.drawn + 2 * (k + 1)
            && r.nodes == l.nodes + [Node(Candidate(page, l.nodes[parent].at, dir, l.drawn + 2 * k), Some(parent))]
            && r.segments == l.segments + [Edge(parent, |l.nodes|)]
  {
    hide FitsAt, Candidate, FirstFit;
    FirstFitIs(page, l, parent, dir, 0, k);
  }

  lemma {:induction false} FirstFitFails(page: Page, l: Layout, parent: nat, dir: int, start: nat)
    requires parent < |l.nodes| && start <= TRIES
    ensures var k := FirstFit(page, l, parent, dir, start);
            (k < TRIES ==> FitsAt(page, l, parent, dir, k)) &&
            forall j: nat | start <= j < k :: !FitsAt(page, l, parent, dir, j)
    decreases TRIES - start
  {
    hide FitsAt;
    if start < TRIES && !FitsAt(page, l, parent, dir, start) {
      FirstFitFails(page, l, parent, dir, start + 1);
    }
  }

  // ---------------------------------------------------------------------
  // A generation
  // ---------------------------------------------------------------------

  function Also(next: seq<nat>, child: Option<nat>): seq<nat>
  {
    if child.Some? then next + [child.value] else next
  }

  ghost predicate Known(ns: seq<nat>, nodes: seq<Node>)
  {
    forall k | 0 <= k < |ns| :: ns[k] < |nodes|
  }

  /** The branch of a frontier node that does not fork: inward more often than not. */
  function OneWay(page: Page, p: Point, v: real): (dir: int)
    ensures dir == 1 || dir == -1
  {
    var inward := if p.x < page.width * 0.5 then 1 else -1;
    if v < 0.62 then inward else -inward
  }

  /** A branch, and the child it may add to the next frontier. */
  ghost function BranchedInto(page: Page, l: Layout, parent: nat, dir: int, next: seq<nat>): (r: (Layout, seq<nat>))
    requires parent < |l.nodes| && Known(next, l.nodes)
    ensures l.nodes <= r.0.nodes && Known(r.1, r.0.nodes)
  {
    var a := Branched(page, l, parent, dir);
    (a.0, Also(next, a.1))
  }

  /** To the left, and then to the right. */
  ghost function Forked(page: Page, l: Layout, parent: nat, next: seq<nat>): (r: (Layout, seq<nat>))
    requires parent < |l.nodes| && Known(next, l.nodes)
    ensures l.nodes <= r.0.nodes && Known(r.1, r.0.nodes)
  {
    var a := BranchedInto(page, l, parent, -1, next);
    BranchedInto(page, a.0, parent, 1, a.1)
  }

  /** What one frontier node does: nothing near the bottom of the page; else, by one random number,
      it forks, or by another it branches one way. */
  ghost function GrownFrom(page: Page, l: Layout, parent: nat, next: seq<nat>): (r: (Layout, seq<nat>))
    requires parent < |l.nodes| && Known(next, l.nodes)
    ensures l.nodes <= r.0.nodes && Known(r.1, r.0.nodes)
  {
    if l.nodes[parent].at.y > page.height - page.Reach() * 0.5 then (l, next)
    else if page.rand(l.drawn) < 0.34 && |next| < MAX_FRONTIER * 2 then
      Forked(page, l.(drawn := l.drawn + 1), parent, next)
    else
      var dir := OneWay(page, l.nodes[parent].at, page.rand(l.drawn + 1));
      BranchedInto(page, l.(drawn := l.drawn + 2), parent, dir, next)
  }

  /** Every node of a frontier, in order. */
  ghost function GrownEach(page: Page, l: Layout, frontier: seq<nat>, next: seq<nat>): (r: (Layout, seq<nat>))
    requires Known(frontier, l.nodes) && Known(next, l.nodes)
    ensures l.nodes <= r.0.nodes && Known(r.1, r.0.nodes)
    decreases |frontier|
  {
    if frontier == [] then (l, next)
    else
      var a := GrownFrom(page, l, frontier[0], next);
      GrownEach(page, a.0, frontier[1..], a.1)
  }

  // ---------------------------------------------------------------------
  // Sampling the frontier
  // ---------------------------------------------------------------------

  /** `Math.round(k * (n - 1) / (MAX_FRONTIER - 1))`. */
  function Sample(k: nat, n: nat): nat
    requires n > 0
  {
    (2 * k * (n - 1) + 3) / 6
  }

  /** A sample lies at the whole number nearest to its place. */
  lemma {:induction false} SampleIsNearest(k: nat, n: nat)
    requires n > 0
    ensures -1 <= (MAX_FRONTIER - 1) * Sample(k, n) - k * (n - 1) <= 1
  {
    var x := k * (n - 1);
    assert 2 * k * (n - 1) == 2 * x;
  }

  lemma {:induction false} SamplesAscend(n: nat)
    requires n > MAX_FRONTIER
    ensures Sample(0, n) == 0 && Sample(3, n) == n - 1
    ensures Sample(0, n) < Sample(1, n) < Sample(2, n) < Sample(3, n)
  {
  }

  ghost predicate SampledSoFar(byX: seq<nat>, picked: seq<nat>, k: nat)
  {
    && |picked| == k
    && forall m | 0 <= m < k :: |byX| > 0 && Sample(m, |byX|) < |byX| && picked[m] == byX[Sample(m, |byX|)]
  }

  lemma {:induction false} SampleOrder(j: nat, k: nat, n: nat)
    requires n > MAX_FRONTIER && j < k < MAX_FRONTIER
    ensures Sample(j, n) < Sample(k, n) < n
  {
    SamplesAscend(n);
  }

  lemma {:induction false} NextSample(byX: seq<nat>, picked: seq<nat>, k: nat)
    requires |byX| > MAX_FRONTIER && k < MAX_FRONTIER && Distinct(byX) && SampledSoFar(byX, picked, k)
    ensures Sample(k, |byX|) < |byX| && byX[Sample(k, |byX|)] !in picked
    ensures SampledSoFar(byX, picked + [byX[Sample(k, |byX|)]], k + 1)
  {
    hide Sample;
    SampleInRange(k, |byX|);
    forall m | 0 <= m < k
      ensures picked[m] != byX[Sample(k, |byX|)]
    {
      SampleOrder(m, k, |byX|);
    }
  }

  lemma {:induction false} SampleInRange(k: nat, n: nat)
    requires n > MAX_FRONTIER && k < MAX_FRONTIER
    ensures Sample(k, n) < n
  {
    SamplesAscend(n);
  }

  lemma {:induction false} SamplesSpan(nodes: seq<Node>, candidates: seq<nat>, byX: seq<nat>, picked: seq<nat>)
    requires forall k | 0 <= k < |byX| :: byX[k] < |nodes|
    requires |byX| > MAX_FRONTIER && Distinct(byX) && Ascending(nodes, byX)
    requires SampledSoFar(byX, picked, MAX_FRONTIER) && forall c :: c in byX <==> c in candidates
    ensures Distinct(picked) && (forall k | 0 <= k < |picked| :: picked[k] in candidates && picked[k] < |nodes|)
    ensures picked[0] in picked && picked[3] in picked
    ensures forall c | c in candidates :: c < |nodes| && nodes[picked[0]].at.x <= nodes[c].at.x <= nodes[picked[3]].at.x
  {
    hide Sample;
    SamplesAscend(|byX|);
    forall i, j | 0 <= i < j < |picked|
      ensures picked[i] != picked[j]
    {
      SampleOrder(i, j, |byX|);
    }
    forall c | c in candidates
      ensures c < |nodes| && nodes[picked[0]].at.x <= nodes[c].at.x <= nodes[picked[3]].at.x
    {
      assert c in byX;
      var k :| 0 <= k < |byX| && byX[k] == c;
      assert picked[0] == byX[Sample(0, |byX|)] && picked[3] == byX[Sample(3, |byX|)];
    }
  }

  function InsertByX(nodes: seq<Node>, n: nat, s: seq<nat>): seq<nat>
    requires n < |nodes| && forall k | 0 <= k < |s| :: s[k] < |nodes|
  {
    if s == [] then [n]
    else if nodes[n].at.x < nodes[s[0]].at.x then [n] + s
    else [s[0]] + InsertByX(nodes, n, s[1..])
  }

  function SortByX(nodes: seq<Node>, s: seq<nat>): (r: seq<nat>)
    requires forall k | 0 <= k < |s| :: s[k] < |nodes|
    ensures |r| == |s| && forall k | 0 <= k < |r| :: r[k] < |nodes|
  {
    if s == [] then []
    else
      var init := SortByX(nodes, s[..|s| - 1]);
      InsertKeeps(nodes, s[|s| - 1], init);
      InsertByX(nodes, s[|s| - 1], init)
  }

  ghost predicate Ascending(nodes: seq<Node>, s: seq<nat>)
    requires forall k | 0 <= k < |s| :: s[k] < |nodes|
  {
    forall i, j | 0 <= i <= j < |s| :: nodes[s[i]].at.x <= nodes[s[j]].at.x
  }

  lemma {:induction false} InsertKeeps(nodes: seq<Node>, n: nat, s: seq<nat>)
    requires n < |nodes| && forall k | 0 <= k < |s| :: s[k] < |nodes|
    ensures var r := InsertByX(nodes, n, s);
            && |r| == |s| + 1 && (forall k | 0 <= k < |r| :: r[k] < |nodes|)
            && multiset(r) == multiset(s) + multiset{n}
  {
    if s != [] {
      InsertKeeps(nodes, n, s[1..]);
      assert s == [s[0]] + s[1..];
    }
  }

  lemma {:induction false} InsertAscends(nodes: seq<Node>, n: nat, s: seq<nat>)
    requires n < |nodes| && (forall k | 0 <= k < |s| :: s[k] < |nodes|) && Ascending(nodes, s)
    ensures var r := InsertByX(nodes, n, s);
            && (forall k | 0 <= k < |r| :: r[k] < |nodes|) && Ascending(nodes, r)
            && r != [] && (r[0] == n || (s != [] && r[0] == s[0]))
  {
    InsertKeeps(nodes, n, s);
    if s != [] {
      InsertAscends(nodes, n, s[1..]);
    }
  }

  lemma {:induction false} SortedByX(nodes: seq<Node>, s: seq<nat>)
    requires forall k | 0 <= k < |s| :: s[k] < |nodes|
    ensures Ascending(nodes, SortByX(nodes, s))
  {
    if s != [] {
      SortedByX(nodes, s[..|s| - 1]);
      InsertAscends(nodes, s[|s| - 1], SortByX(nodes, s[..|s| - 1]));
    }
  }

  lemma {:induction false} SortCounts(nodes: seq<Node>, s: seq<nat>)
    requires forall k | 0 <= k < |s| :: s[k] < |nodes|
    ensures multiset(SortByX(nodes, s)) == multiset(s)
  {
    if s != [] {
      var init, last := s[..|s| - 1], s[|s| - 1];
      SortCounts(nodes, init);
      InsertKeeps(nodes, last, SortByX(nodes, init));
      assert s == init + [last];
    }
  }

  lemma {:induction false} SortKeeps(nodes: seq<Node>, s: seq<nat>)
    requires (forall k | 0 <= k < |s| :: s[k] < |nodes|) && Distinct(s)
    ensures Distinct(SortByX(nodes, s)) && forall c :: c in SortByX(nodes, s) <==> c in s
  {
    SortCounts(nodes, s);
    hide SortByX;
    DistinctCounts(s);
    CountsDistinct(SortByX(nodes, s));
    SameMembers(SortByX(nodes, s), s);
  }

  lemma {:induction false} SameMembers(r: seq<nat>, s: seq<nat>)
    requires multiset(r) == multiset(s)
    ensures forall c :: c in r <==> c in s
  {
    assert forall c :: c in r <==> c in multiset(r);
    assert forall c :: c in s <==> c in multiset(s);
  }

  lemma {:induction false} DistinctCounts(s: seq<nat>)
    requires Distinct(s)
    ensures forall c :: multiset(s)[c] <= 1
  {
    if s != [] {
      var init, last := s[..|s| - 1], s[|s| - 1];
      DistinctCounts(init);
      assert s == init + [last];
      assert last !in init;
    }
  }

  lemma {:induction false} CountsTwice(s: seq<nat>, i: nat, j: nat)
    requires i < j < |s| && s[i] == s[j]
    ensures multiset(s)[s[i]] >= 2
  {
    assert s == s[..j] + [s[j]] + s[j + 1..];
    assert multiset(s) == multiset(s[..j]) + multiset{s[j]} + multiset(s[j + 1..]);
    assert s[i] == s[..j][i] && s[i] in multiset(s[..j]);
  }

  lemma {:induction false} CountsDistinct(s: seq<nat>)
    requires forall c :: multiset(s)[c] <= 1
    ensures Distinct(s)
  {
    forall i, j | 0 <= i < j < |s|
      ensures s[i] != s[j]
    {
      if s[i] == s[j] {
        CountsTwice(s, i, j);
      }
    }
  }

  /** At most four of the candidates, sampled evenly across the page. */
  function Thinned(nodes: seq<Node>, candidates: seq<nat>): (picked: seq<nat>)
    requires forall k | 0 <= k < |candidates| :: candidates[k] < |nodes|
    ensures forall k | 0 <= k < |picked| :: picked[k] < |nodes|
  {
    if |candidates| <= MAX_FRONTIER then candidates
    else
      var byX := SortByX(nodes, candidates);
      seq(MAX_FRONTIER, k requires 0 <= k < MAX_FRONTIER => (SampleInRange(k, |byX|); byX[Sample(k, |byX|)]))
  }

  /** As many generations as `guard` allows, while anything grows. */
  ghost function Generations(page: Page, l: Layout, frontier: seq<nat>, guard: nat): (r: Layout)
    requires Known(frontier, l.nodes)
    ensures l.nodes <= r.nodes
    decreases guard
  {
    if guard == 0 || frontier == [] then l
    else
      var a := GrownEach(page, l, frontier, []);
      Generations(page, a.0, Thinned(a.0.nodes, a.1), guard - 1)
  }

  /** A frontier, one node at a time. */
  lemma {:induction false} GrowsOneByOne(page: Page, l: Layout, frontier: seq<nat>, k: nat, next: seq<nat>)
    requires k < |frontier| && Known(frontier[k..], l.nodes) && Known(next, l.nodes)
    ensures frontier[k] < |l.nodes| && Known(frontier[k + 1..], GrownFrom(page, l, frontier[k], next).0.nodes)
    ensures var a := GrownFrom(page, l, frontier[k], next);
            GrownEach(page, l, frontier[k..], next) == GrownEach(page, a.0, frontier[k + 1..], a.1)
  {
    hide GrownFrom;
    assert frontier[k..][0] == frontier[k];
    assert frontier[k..][1..] == frontier[k + 1..];
  }

  lemma {:induction false} NoneLeft(page: Page, l: Layout, frontier: seq<nat>, next: seq<nat>)
    requires Known(next, l.nodes)
    ensures frontier[|frontier|..] == [] && Known([], l.nodes)
    ensures GrownEach(page, l, [], next) == (l, next)
  {
  }

  // ---------------------------------------------------------------------
  // Links
  // ---------------------------------------------------------------------

  /** An unordered pair of nodes. */
  function Key(i: nat, j: nat): (nat, nat)
  {
    if i < j then (i, j) else (j, i)
  }

  function Keys(edges: seq<Edge>): set<(nat, nat)>
  {
    set e | e in edges :: Key(e.start, e.end)
  }

  lemma {:induction false} KeysAre(edges: seq<Edge>)
    ensures Keys(edges) == set e | e in edges :: Key(e.start, e.end)
  {
  }

  lemma {:induction false} KeysMore(edges: seq<Edge>, e: Edge)
    ensures Keys(edges + [e]) == Keys(edges) + {Key(e.start, e.end)}
  {
    assert forall f :: f in edges + [e] <==> f in edges || f == e;
  }

  /** The link is new, clears every edge it does not join, and every node. */
  ghost predicate LinkFits(nodes: seq<Node>, edges: seq<Edge>, i: nat, j: nat, connected: set<(nat, nat)>)
    requires i < |nodes| && j < |nodes|
  {
    && Key(i, j) !in connected
    && (forall k | 0 <= k < |edges| && !Touches(edges[k], i) && !Touches(edges[k], j) ::
          On(nodes, edges[k]) && Passes(nodes, edges[k], nodes[i].at, nodes[j].at))
    && forall k | 0 <= k < |nodes| && k != i && k != j ::
         PointToSegment2(nodes[k].at, nodes[i].at, nodes[j].at) >= CLEAR2
  }

  lemma {:induction false} FloorInRange(u: real, n: nat)
    requires 0.0 <= u < 1.0 && n > 0
    ensures 0 <= (u * (n as real)).Floor < n
  {
    NonNegativeProduct(u, n as real);
    OppositeSigns(u - 1.0, n as real);
    assert (u - 1.0) * (n as real) == u * (n as real) - (n as real);
  }

  /** The length of the link, between two limits and compared squared, and its slope. */
  predicate SpanFits(page: Page, a: Point, b: Point)
  {
    var span2, reach := Dist2(b, a), page.Reach();
    reach >= 0.0 && (reach * 0.45) * (reach * 0.45) <= span2 <= (reach * 1.9) * (reach * 1.9) && !page.trig.flat(a, b)
  }

  /** The index one random number picks. */
  function PickAt(page: Page, at: nat, n: nat): (i: nat)
    requires page.Valid() && n > 0
    ensures i < n
  {
    FloorInRange(page.rand(at), n);
    (page.rand(at) * (n as real)).Floor
  }

  /** How many links there may be. */
  function Budget(nodes: seq<Node>): int
  {
    ((|nodes| as real) * LINK_RATIO + 0.5).Floor
  }

  /** The pair drawn next may be linked. */
  ghost predicate Links(page: Page, l: Layout)
    requires page.Valid() && l.nodes != []
  {
    var i, j := PickAt(page, l.drawn, |l.nodes|), PickAt(page, l.drawn + 1, |l.nodes|);
    i != j && LinkFits(l.nodes, l.segments, i, j, Keys(l.segments)) && SpanFits(page, l.nodes[i].at, l.nodes[j].at)
  }

  /** One pair drawn, and linked if it may be. */
  ghost function PairDrawn(page: Page, l: Layout): (r: Layout)
    requires page.Valid() && l.nodes != []
    ensures r.nodes == l.nodes && r.drawn == l.drawn + 2
  {
    var i, j := PickAt(page, l.drawn, |l.nodes|), PickAt(page, l.drawn + 1, |l.nodes|);
    l.(segments := if Links(page, l) then l.segments + [Edge(i, j)] else l.segments, drawn := l.drawn + 2)
  }

  /** The pairs drawn that may be linked, in order, until there are `budget` links more or `guard`
      pairs have been drawn. */
  ghost function Linked(page: Page, l: Layout, budget: int, guard: nat): (r: Layout)
    requires page.Valid() && l.nodes != []
    decreases guard
  {
    if budget <= 0 || guard == 0 then l
    else Linked(page, PairDrawn(page, l), if Links(page, l) then budget - 1 else budget, guard - 1)
  }

  /** What becomes of the pair drawn next. */
  lemma {:induction false} DrawsAPair(page: Page, l: Layout, budget: int, guard: int, i: nat, j: nat)
    requires page.Valid() && l.nodes != [] && budget > 0 && guard > 0
    requires i == PickAt(page, l.drawn, |l.nodes|) && j == PickAt(page, l.drawn + 1, |l.nodes|)
    ensures var links := i != j && LinkFits(l.nodes, l.segments, i, j, Keys(l.segments)) &&
                         SpanFits(page, l.nodes[i].at, l.nodes[j].at);
            Linked(page, l, budget, guard) ==
            if links then Linked(page, Layout(l.nodes, l.segments + [Edge(i, j)], l.drawn + 2), budget - 1, guard - 1)
            else Linked(page, Layout(l.nodes, l.segments, l.drawn + 2), budget, guard - 1)
  {
    hide LinkFits, SpanFits, Keys, PickAt;
  }

  lemma {:induction false} NothingToLink(page: Page, l: Layout, budget: int, guard: nat)
    requires page.Valid() && l.nodes != [] && (budget <= 0 || guard == 0)
    ensures Linked(page, l, budget, guard) == l
  {
  }

  /** The linking pass only adds, never more than its budget, and it ends short of it only after
      drawing every pair it may draw. */
  lemma {:induction false} LinkedStopsWhenDone(page: Page, l: Layout, budget: int, guard: nat)
    requires page.Valid() && l.nodes != []
    ensures var r := Linked(page, l, budget, guard);
            && r.nodes == l.nodes && l.segments <= r.segments && l.drawn <= r.drawn <= l.drawn + 2 * guard
            && |r.segments| - |l.segments| <= (if budget > 0 then budget else 0)
            && (|r.segments| - |l.segments| < budget ==> r.drawn == l.drawn + 2 * guard)
    decreases guard
  {
    hide Links, PickAt;
    if budget > 0 && guard > 0 {
      LinkedStopsWhenDone(page, PairDrawn(page, l), if Links(page, l) then budget - 1 else budget, guard - 1);
    }
  }

  // ---------------------------------------------------------------------
  // The whole graph
  // ---------------------------------------------------------------------

  ghost function Tree(page: Page): (r: Layout)
    ensures Roots(page.width, page.height) <= r.nodes && r.nodes != []
  {
    var start := Layout(Roots(page.width, page.height), [], 0);
    Generations(page, start, [0, 1, 2, 3], GENERATIONS)
  }

  ghost function Built(page: Page): Layout
    requires page.Valid()
  {
    var tree := Tree(page);
    Linked(page, tree, Budget(tree.nodes), |tree.nodes| * 12)
  }
}
